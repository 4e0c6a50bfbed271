/** The agent that tracks proposals and their resolution (crates/sync/src/agent.rs). */
module SyncAgents {
  import opened Common
  import opened Proposals
  import opened SyncState
  import opened SyncHistory
  import opened SyncOutputs
  import opened SyncWinners
  import opened SyncRounds
  import opened SyncProgress

  class SyncAgent {
    const d: Deployment
    /** The factory, and the outputs of the rollup; neither changes. */
    const games: nat -> Game
    const output: nat -> B256
    const anchor: nat
    const struck: nat -> bool
    var cursor: Cursor
    var outputs: map<nat, B256>
    /** The persisted outputs; those in memory are always among them. */
    var db: map<nat, B256>
    var proposals: map<nat, Proposal>
    var eliminations: map<Address, nat>
    /** The tracked canonical proposals, from the root to the tip. */
    ghost var chain: seq<nat>
    /** Whether all resolved games met so far extended the chain, and no delayed game was stored. */
    ghost var lawful: bool

    function Snap(): State
      reads this
    {
      State(cursor, outputs, proposals, eliminations)
    }

    ghost predicate Valid()
      reads this
    {
      && GoodGames(games, d) && Forward(Snap()) && Persisted(outputs, db, output)
      && Passed(cursor.delayed, cursor.next)
      && (lawful ==> Lawful(Snap(), d, games, chain))
    }

    function Chains(): Factory {
      Factory(games, d, output, anchor, struck)
    }

    /** All was lawful, and the winners among the tracked games are the canonical ones. */
    ghost predicate IsFair()
      reads this
    {
      lawful && FairRun(Chains(), Snap(), chain)
    }

    /** All was lawful and fair, and the agent knows the outputs that it needs to judge further games. */
    ghost predicate IsInformed()
      reads this
    {
      WellInformed(Chains(), Snap())
    }

    constructor (
        d: Deployment, games: nat -> Game, output: nat -> B256, db: map<nat, B256>, anchor: nat, lastOutput: nat,
        struck: nat -> bool)
      requires GoodGames(games, d) && TrueOutputs(db, output)
      ensures Valid() && IsFair() && Chains() == Factory(games, d, output, anchor, struck)
      ensures Snap() == State(Cursor(anchor, anchor, [], lastOutput, anchor), map[], map[], map[])
      ensures BasedOn(Chains(), lastOutput) ==> IsInformed()
    {
      this.d, this.games, this.output, this.anchor, this.struck, this.db := d, games, output, anchor, struck, db;
      cursor := Cursor(anchor, anchor, [], lastOutput, anchor);
      outputs, proposals, eliminations := map[], map[], map[];
      chain, lawful := [], true;
      new;
      if BasedOn(Chains(), lastOutput) {
        StartInformed(Chains(), Snap(), lastOutput);
      }
    }

    method AppendToParent(proposal: Proposal)
      requires proposal.parent in proposals
      modifies this`proposals
      ensures Snap() == AppendChild(old(Snap()), proposal.parent, proposal.index)
    {
      var parent := proposals[proposal.parent];
      proposals := proposals[proposal.parent := parent.(children := parent.children + {proposal.index})];
    }

    method DetermineTournamentParticipation(proposal: Proposal) returns (r: Decision)
      modifies this`proposals
      ensures (Snap(), r) == Participate(old(Snap()), d, proposal)
    {
      if !HasParent(proposal) {
        return Take;
      }
      if proposal.resolvedAt != 0 {
        return Take;
      }
      if proposal.parent !in proposals {
        return Skip;
      }
      AppendToParent(proposal);
      var parent := proposals[proposal.parent];
      if EliminatedBefore(Snap(), proposal) {
        return Skip;
      }
      if parent.canonical != Some(true) {
        return Skip;
      }
      if parent.successor.Some? {
        if parent.successor.value !in proposals {
          return Crash;
        }
        var successor := proposals[parent.successor.value];
        if proposal.createdAt < successor.createdAt {
          return Crash;
        }
        if proposal.createdAt - successor.createdAt >= d.timeout {
          return Skip;
        }
      }
      r := Take;
    }

    method DetermineIfCanonical(proposal: Proposal) returns (canonical: Option<bool>)
      ensures canonical == IfCanonical(Snap(), proposal)
    {
      var correct := IsCorrect(proposal);
      if correct.None? {
        return None;
      }
      if correct.value && !EliminatedBefore(Snap(), proposal) {
        var tip := CanonicalTip(Snap());
        canonical := Some(tip.None? || tip.value.height < proposal.height);
      } else {
        canonical := Some(false);
      }
    }

    method SyncProposal(w: World, index: nat) returns (r: Outcome)
      requires GoodGame(games, d, index)
      modifies this`proposals, this`eliminations
      ensures (Snap(), r) == SyncGame(old(Snap()), d, games, w, index)
    {
      var game := games(index);
      if game.OtherType? {
        return Ignored;
      }
      if !w.loads(index) {
        return Failed;
      }
      if game.Foreign? {
        return Ignored;
      }
      var proposal := game.proposal.(resolvedAt := w.resolvedAt(index));
      if proposals != map[] && proposal.parent !in proposals {
        return Ignored;
      }
      if proposal.proposer !in eliminations {
        var round := w.round(proposal.proposer);
        if round > 0 {
          eliminations := eliminations[proposal.proposer := round];
        }
      }
      if cursor.lastOutput + d.span < proposal.height {
        return Delayed(proposal.height);
      }
      var decision := DetermineTournamentParticipation(proposal);
      if decision.Skip? {
        return Ignored;
      } else if decision.Crash? {
        return Panicked;
      }
      r := JudgeAndStore(proposal);
    }

    /** Assesses a proposal that takes part, decides whether it is canonical, and stores it. */
    method JudgeAndStore(loaded: Proposal) returns (r: Outcome)
      requires Loadable(loaded)
      modifies this`proposals
      ensures (Snap(), r) == AssessAndStore(old(Snap()), d, loaded)
    {
      var assessed := AssessCorrectness(outputs, d, ParentOf(Snap(), loaded), loaded);
      if assessed.Bail? {
        return Failed;
      } else if assessed.Panic? {
        return Panicked;
      }
      var proposal := assessed.proposal;
      var canonical := DetermineIfCanonical(proposal);
      if canonical.None? {
        return Failed;
      }
      proposal := proposal.(canonical := canonical);
      if canonical.value && proposal.parent in proposals {
        proposals := proposals[proposal.parent := proposals[proposal.parent].(successor := Some(proposal.index))];
      }
      proposals := proposals[proposal.index := proposal];
      r := Success;
    }

    /** Moves the tip and the resolution cursor to a canonical proposal, or eliminates its proposer if it is wrong. */
    method Follow(proposal: Proposal)
      modifies this`cursor, this`eliminations
      ensures Snap() == FollowUp(old(Snap()), proposal)
    {
      if proposal.canonical == Some(true) {
        cursor := cursor.(tip := proposal.index);
        if proposal.resolvedAt != 0 {
          cursor := cursor.(lastResolved := proposal.index);
        }
      } else if IsCorrect(proposal) == Some(false) {
        if proposal.proposer !in eliminations {
          eliminations := eliminations[proposal.proposer := proposal.index];
        }
      }
    }

    method MoveOn(w: World, index: nat, outcome: Outcome) returns (r: Outcome)
      modifies this`cursor, this`eliminations
      ensures (Snap(), r) == MovedOn(old(Snap()), outcome, w, index)
    {
      r := outcome;
      if r.Success? {
        if cursor.next !in proposals {
          return Aborted;
        }
        Follow(proposals[cursor.next]);
      }
      if !Stops(r, w) {
        if index == cursor.next {
          cursor := cursor.(next := cursor.next + 1);
        }
      }
    }

    /** One round of the loop: stores, follows up on what was stored, and moves on unless it has to stop. */
    method ProcessNext(w: World) returns (r: Outcome)
      requires GoodGame(games, d, NextIndex(cursor).0)
      modifies this`cursor, this`proposals, this`eliminations
      ensures (Snap(), r) == LoopStep(old(Snap()), d, games, w)
    {
      var next := NextIndex(cursor);
      cursor := next.1;
      r := SyncProposal(w, next.0);
      r := MoveOn(w, next.0, r);
    }

    /** What the loop has kept since it started. */
    ghost predicate Kept(start: State, wasLawful: bool, wasFair: bool, w: World, ahead: seq<nat>)
      reads this
    {
      Valid() && LoopKept(Chains(), start, wasLawful, wasFair, w, ahead, Snap(), chain, lawful)
    }

    /** The same, with what it keeps. */
    method NextRound(w: World, ghost start: State, ghost wasLawful: bool, ghost wasFair: bool, ghost ahead: seq<nat>,
                     ghost step: (State, Outcome))
      returns (r: Outcome)
      requires Kept(start, wasLawful, wasFair, w, ahead) && GoodGame(games, d, NextIndex(cursor).0)
      requires HasNext(cursor, w.gameCount) && step == LoopStep(Snap(), d, games, w)
      modifies this
      ensures Kept(start, wasLawful, wasFair, w, if Stops(r, w) then ahead else AheadAfter(old(Snap()), r, ahead))
      ensures (Snap(), r) == step && (lawful ==> r != Panicked && r != Aborted)
    {
      ghost var before := Snap();
      r := ProcessNext(w);
      ghost var stays := RoundOutcome(Chains(), start, wasLawful, wasFair, w, ahead, before, chain, lawful, Snap(), r);
      lawful, chain := stays, ChainStep(before, chain, Snap(), r);
    }

    /** The loop over games, delayed ones first. */
    method ProcessGames(w: World) returns (end: LoopEnd)
      requires Valid() && (lawful ==> Anchored(Snap(), games, w))
      modifies this
      ensures Valid() && (end.Left? ==> Passed(end.ahead, cursor.next) && (lawful && proposals == map[] ==> end.ahead == []))
      ensures (Snap(), end) == ProcessAll(old(Snap()), d, games, w, [])
      ensures lawful ==> old(lawful) && end.Left? && Evolves(old(Snap()), Snap(), games, d)
      ensures old(lawful) && MetUnresolved(old(Snap()), w) && StillAhead(old(Snap()), d, games) ==> lawful
      ensures old(IsFair()) && FairFrom(Chains(), old(Snap()), w) ==>
                IsFair() && end.Left? && Sidelined(Chains(), end.ahead) && FairFrom(Chains(), Snap(), w)
    {
      Unchanged(Snap(), games, d);
      end := RunLoop(w, Snap(), lawful, IsFair());
    }

    method RunLoop(w: World, ghost start: State, ghost wasLawful: bool, ghost wasFair: bool) returns (end: LoopEnd)
      requires Kept(start, wasLawful, wasFair, w, []) && start == Snap()
      modifies this
      ensures (Snap(), end) == ProcessAll(start, d, games, w, []) && (lawful ==> end.Left?)
      ensures Kept(start, wasLawful, wasFair, w, if end.Left? then end.ahead else [])
    {
      ghost var whole := ProcessAll(start, d, games, w, []);
      var ahead: seq<nat> := [];
      while HasNext(cursor, w.gameCount)
        invariant Kept(start, wasLawful, wasFair, w, ahead)
        invariant ProcessAll(Snap(), d, games, w, ahead) == whole
        decreases Remaining(cursor, w.gameCount)
      {
        assert GoodGame(games, d, NextIndex(cursor).0);
        RoundShrinks(Snap(), d, games, w);
        ProcessAllStep(Snap(), d, games, w, ahead);
        var index := NextIndex(cursor).0;
        var outcome := NextRound(w, start, wasLawful, wasFair, ahead, LoopStep(Snap(), d, games, w));
        if outcome.Panicked? {
          return Died;
        } else if outcome.Aborted? {
          return GaveUp;
        }
        if Stops(outcome, w) {
          break;
        }
        if outcome.Delayed? {
          ahead := ahead + [index];
        }
      }
      end := Left(ahead);
    }

    method PruneData()
      modifies this`cursor, this`outputs, this`db, this`proposals
      ensures Snap() == Prune(old(Snap()), d)
      ensures db == old(db) - (old(outputs).Keys - outputs.Keys)
    {
      if |proposals| == 0 {
        assert proposals == map[];
        return;
      }
      EarliestKey(proposals);
      var earliest :| earliest in proposals && forall i :: i in proposals ==> earliest <= i;
      ghost var all := proposals;
      assert earliest in all && all != map[];
      var i := earliest;
      assert proposals == From(all, i);
      while i < cursor.lastResolved
        invariant earliest <= i && (i <= cursor.lastResolved || i == earliest)
        invariant proposals == From(all, i) && cursor == old(cursor) && outputs == old(outputs) && db == old(db)
      {
        proposals := proposals - {i};
        i := i + 1;
      }
      assert proposals == From(all, cursor.lastResolved);
      cursor := cursor.(delayed := Retain(cursor.delayed, cursor.lastResolved));
      if cursor.lastResolved !in proposals {
        return;
      }
      FreeOldOutputs(EarliestOutput(d, proposals[cursor.lastResolved]));
    }

    method FreeOldOutputs(earliestOutput: nat)
      modifies this`outputs, this`db
      ensures outputs == FreeOutputs(old(outputs), earliestOutput, d.span, 1)
      ensures db == old(db) - (old(outputs).Keys - outputs.Keys)
    {
      for i := 1 to earliestOutput + 1
        invariant FreeOutputs(outputs, earliestOutput, d.span, i) == FreeOutputs(old(outputs), earliestOutput, d.span, 1)
        invariant outputs.Keys <= old(outputs).Keys && db == old(db) - (old(outputs).Keys - outputs.Keys)
      {
        var outputNumber := SaturatingSub(earliestOutput, i * d.span);
        if outputNumber !in outputs {
          return;
        }
        outputs := outputs - {outputNumber};
        db := db - {outputNumber};
      }
    }

    /** One round over resolutions: note it, move the cursor there, and prune. */
    method MarkResolved(index: nat, resolvedAt: nat)
      requires Valid() && index in proposals && cursor.lastResolved in proposals
      requires proposals[cursor.lastResolved].successor == Some(index)
      modifies this
      ensures Valid() && lawful == old(lawful)
      ensures Snap() == Prune(Resolve(old(Snap()), index, resolvedAt), d)
      ensures lawful ==> Evolves(old(Snap()), Snap(), games, d) && index in proposals
      ensures old(IsFair()) ==> IsFair()
    {
      ghost var before := Snap();
      ResolutionResults(Chains(), before, chain, lawful, index, resolvedAt);
      chain := if lawful then chain[PositionOf(chain, index)..] else chain;
      proposals := proposals[index := proposals[index].(resolvedAt := resolvedAt)];
      cursor := cursor.(lastResolved := index);
      PruneData();
      FreedStaysPersisted(before.outputs, outputs, old(db), db, output);
    }

    /** Follow successors while they are resolved; fails without the last resolved proposal. */
    method ResolveProposals(w: World) returns (ok: bool)
      requires Valid()
      modifies this
      ensures Valid() && lawful == old(lawful)
      ensures (Snap(), ok) == ResolveAll(old(Snap()), d, w)
      ensures ok ==> cursor.lastResolved in proposals
      ensures lawful ==> Evolves(old(Snap()), Snap(), games, d) && ok == (old(proposals) != map[])
      ensures old(IsFair()) ==> IsFair()
    {
      ghost var start := Snap();
      ghost var whole := ResolveAll(start, d, w);
      Unchanged(start, games, d);
      while true
        invariant Valid() && lawful == old(lawful) && cursor.next == start.cursor.next
        invariant ResolveAll(Snap(), d, w) == whole
        invariant old(IsFair()) ==> IsFair()
        invariant lawful ==> Evolves(start, Snap(), games, d) && (proposals == map[] <==> start.proposals == map[])
        decreases cursor.next - cursor.lastResolved
      {
        ghost var before := Snap();
        if lawful {
          LastResolvedTracked(before, d, games, chain);
        }
        if cursor.lastResolved !in proposals {
          return false;
        }
        var successor := proposals[cursor.lastResolved].successor;
        if successor.None? {
          break;
        }
        var index := successor.value;
        if lawful {
          SuccessorPresent(before, d, games, chain, cursor.lastResolved);
        }
        if index !in proposals {
          return false;
        }
        var resolvedAt := w.resolvedAt(index);
        if resolvedAt == 0 {
          break;
        }
        ResolveAllStep(before, d, w, index);
        MarkResolved(index, resolvedAt);
        if lawful {
          EvolvesTransitive(start, before, Snap(), games, d);
        }
      }
      ok := true;
    }

    method LoadPersisted(blocks: seq<nat>)
      requires TrueOutputs(db, output)
      modifies this`outputs, this`cursor
      ensures outputs == Learned(old(outputs), output, Present(blocks, db))
      ensures cursor == old(cursor).(lastOutput := Latest(old(cursor.lastOutput), Present(blocks, db)))
    {
      for i := 0 to |blocks|
        invariant outputs == Learned(old(outputs), output, Present(blocks[..i], db))
        invariant cursor == old(cursor).(lastOutput := Latest(old(cursor.lastOutput), Present(blocks[..i], db)))
      {
        PresentStep(old(outputs), output, old(cursor.lastOutput), blocks, db, i);
        var n := blocks[i];
        if n in db {
          outputs := outputs[n := db[n]];
          if cursor.lastOutput < n {
            cursor := cursor.(lastOutput := n);
          }
        }
      }
      assert blocks[..|blocks|] == blocks;
    }

    /** Fetch the given outputs, which are not in memory, and persist them. */
    method FetchMissing(blocks: seq<nat>)
      modifies this`outputs, this`db, this`cursor
      ensures outputs == Learned(old(outputs), output, blocks) && db == Learned(old(db), output, blocks)
      ensures cursor == old(cursor).(lastOutput := Latest(old(cursor.lastOutput), blocks))
    {
      for i := 0 to |blocks|
        invariant outputs == Learned(old(outputs), output, blocks[..i]) && db == Learned(old(db), output, blocks[..i])
        invariant cursor == old(cursor).(lastOutput := Latest(old(cursor.lastOutput), blocks[..i]))
      {
        LearnedStep(old(outputs), output, old(cursor.lastOutput), blocks, i);
        LearnedStep(old(db), output, old(cursor.lastOutput), blocks, i);
        var n := blocks[i];
        outputs := outputs[n := output(n)];
        db := db[n := output(n)];
        if cursor.lastOutput < n {
          cursor := cursor.(lastOutput := n);
        }
      }
      assert blocks[..|blocks|] == blocks;
    }

    /** One batch: what is persisted is loaded, the rest is fetched. */
    method SyncBatch(blocks: seq<nat>)
      requires Persisted(outputs, db, output)
      modifies this`outputs, this`db, this`cursor
      ensures outputs == Learned(old(outputs), output, blocks)
      ensures cursor == old(cursor).(lastOutput := Latest(old(cursor.lastOutput), blocks))
      ensures Persisted(outputs, db, output)
    {
      BatchLearned(outputs, db, output, blocks, cursor.lastOutput);
      LearnedIs(outputs, output, blocks);
      PresentIs(blocks, db);
      LearnedIs(outputs, output, Present(blocks, db));
      LoadPersisted(blocks);
      LearnedIs(db, output, Absent(blocks, outputs));
      PresentIs(blocks, outputs);
      FetchMissing(Absent(blocks, outputs));
    }

    /** Fetch outputs in batches of at most 129; persisted ones are loaded, the others fetched and persisted. */
    method SyncOutputs(from: nat, end: nat, step: nat)
      requires step > 0 && Persisted(outputs, db, output)
      modifies this`outputs, this`db, this`cursor
      ensures outputs == Learned(old(outputs), output, Grid(from, end, step))
      ensures cursor == old(cursor).(lastOutput := Latest(old(cursor.lastOutput), Grid(from, end, step)))
      ensures Persisted(outputs, db, output)
    {
      var start := from;
      ghost var known, latest, all, done := outputs, cursor.lastOutput, Grid(from, end, step), [];
      NothingDone(known, output, latest, all);
      while start <= end
        invariant DoneSoFar(known, output, latest, all, done, Grid(start, end, step), outputs, cursor.lastOutput)
        invariant cursor == old(cursor).(lastOutput := cursor.lastOutput) && Persisted(outputs, db, output)
        decreases end + 1 - start
      {
        var batchEnd := Min(end, start + 128 * step);
        var blocks := Grid(start, batchEnd, step);
        BatchDone(known, output, latest, all, done, start, end, step, outputs, cursor.lastOutput);
        SyncBatch(blocks);
        done := done + blocks;
        start := batchEnd + step;
      }
      AllDone(known, output, latest, all, done, start, end, step, outputs, cursor.lastOutput);
    }

    /** The known outputs are extended by one proposal's blocks at most, and not past the safe block. */
    method ExtendOutputs(w: World)
      requires d.span > 0 && Persisted(outputs, db, output)
      modifies this`outputs, this`db, this`cursor
      ensures Snap() == OutputsFetched(old(Snap()), d, output, w.safe) && Persisted(outputs, db, output)
    {
      var outputBlock := Min(w.safe, cursor.lastOutput + BlocksPerProposal(d));
      if cursor.lastOutput + d.span < outputBlock {
        SyncOutputs(cursor.lastOutput, outputBlock, d.span);
      }
    }

    method FetchNewOutputs(w: World)
      requires Valid()
      modifies this`outputs, this`db, this`cursor
      ensures Valid()
      ensures Snap() == OutputsFetched(old(Snap()), d, output, w.safe) && Evolves(old(Snap()), Snap(), games, d)
      ensures old(IsFair()) ==> IsFair()
    {
      FetchEvolves(Snap(), d, games, chain, output, w.safe, lawful);
      if IsFair() {
        CursorFair(Chains(), Snap(), OutputsFetched(Snap(), d, output, w.safe), chain);
      }
      ExtendOutputs(w);
    }

    method KeepDelayed(ahead: seq<nat>)
      requires Valid() && Passed(ahead, cursor.next) && (lawful && proposals == map[] ==> ahead == [])
      modifies this`cursor
      ensures Valid() && cursor == LoadDelayed(old(cursor), ahead) && Evolves(old(Snap()), Snap(), games, d)
      ensures old(IsFair()) && Sidelined(Chains(), ahead) ==> IsFair()
    {
      if IsFair() {
        CursorFair(Chains(), Snap(), Snap().(cursor := LoadDelayed(cursor, ahead)), chain);
      }
      CursorChange(Snap(), LoadDelayed(cursor, ahead), d, games, chain, lawful);
      cursor := LoadDelayed(cursor, ahead);
    }

    method RunStages(w: World) returns (ok: Option<bool>)
      requires Valid() && (lawful ==> Anchored(Snap(), games, w))
      modifies this
      ensures Valid()
      ensures (Snap(), ok) == Stages(old(Snap()), d, games, output, w)
      ensures ok == Some(true) ==> cursor.lastResolved in proposals
      ensures lawful ==> old(lawful) && ok.Some? && Evolves(old(Snap()), Snap(), games, d)
      ensures old(lawful) && MetUnresolved(old(Snap()), w) && WaitsOn(old(Snap()), w) ==> lawful
      ensures old(IsFair()) && FairFrom(Chains(), old(Snap()), w) ==>
                IsFair() && w.resolvedAt(cursor.lastResolved) != 0
    {
      ghost var start := Snap();
      FetchNewOutputs(w);
      ghost var fetched := Snap();
      var end := ProcessGames(w);
      if end.Died? {
        return None;
      } else if end.GaveUp? {
        return Some(false);
      }
      ghost var looped := Snap();
      KeepDelayed(end.ahead);
      ghost var loaded := Snap();
      ResolveAllSettled(loaded, d, w);
      var resolved := ResolveProposals(w);
      if lawful {
        EvolvesThrough(start, fetched, looped, loaded, Snap(), games, d);
      }
      ok := Some(resolved);
    }

    /** The delayed games are too far ahead even of the outputs that the synchronization fetches. */
    ghost predicate WaitsOn(s: State, w: World)
      requires d.span > 0
    {
      StillAhead(OutputsFetched(s, d, output, w.safe), d, games)
    }

    /**
     * A synchronization. As long as it is lawful it keeps the chain and undoes nothing; it stays lawful if the delayed
     * games are still too far ahead and no game was resolved before it is first met, and, from a fair state on, in every
     * fair world, where in addition the canonical proposals stay the winners of the tournaments. An agent that started
     * with its anchor's first output then also passes every game that it can reach, and finds all resolved proposals.
     */
    method Sync(w: World, finalBlock: Option<nat>) returns (r: SyncResult)
      requires Valid() && Anchored(Snap(), games, w)
      modifies this
      ensures Valid()
      ensures var stages := Stages(old(Snap()), d, games, output, w);
              Snap() == stages.0 && r == Verdict(stages.0, stages.1, old(cursor.next), finalBlock)
      ensures lawful ==> old(lawful) && r != Crashed && Evolves(old(Snap()), Snap(), games, d)
      ensures old(lawful) && MetUnresolved(old(Snap()), w) && WaitsOn(old(Snap()), w) ==> lawful
      ensures old(IsFair()) && FairFrom(Chains(), old(Snap()), w) ==>
                IsFair() && w.resolvedAt(cursor.lastResolved) != 0
      ensures SyncAdvances(Chains(), old(Snap()), w, Snap(), r.Synced? || r.Finished?)
      ensures Reports(r, Snap(), old(cursor.next), finalBlock)
    {
      StagesAdvance(Chains(), Snap(), w);
      var first := cursor.next;
      var ok := RunStages(w);
      r := Report(ok, first, finalBlock);
    }

    /** What a synchronization answers: an error, that the final block is resolved, or the processed games still tracked. */
    method Report(ok: Option<bool>, first: nat, finalBlock: Option<nat>) returns (r: SyncResult)
      requires ok == Some(true) ==> cursor.lastResolved in proposals
      ensures r == Verdict(Snap(), ok, first, finalBlock)
      ensures Reports(r, Snap(), first, finalBlock)
    {
      if ok.None? {
        return Crashed;
      }
      if !ok.value {
        return Error;
      }
      if finalBlock.Some? && proposals[cursor.lastResolved].height >= finalBlock.value {
        return Finished;
      }
      TrackedLists(proposals, first, cursor.next);
      r := Synced(Tracked(proposals, first, cursor.next));
    }

    /**
     * One synchronization after the other, until the final block is resolved or so many have been made; errors are only
     * logged. On a fair course the agent never crashes, its canonical proposals are the winners of the tournaments, and
     * it has missed no winner that it met. Once factory and rollup have settled, every game is passed in so many
     * synchronizations as there are spans from the last known output to the highest game.
     */
    method SyncRepeatedly(worlds: nat -> World, count: nat, finalBlock: Option<nat>, ghost n: nat, ghost top: nat)
      returns (last: Option<SyncResult>)
      requires Valid() && IsFair() && FairCourse(Chains(), worlds) && worlds(0).resolvedAt(cursor.lastResolved) != 0
      modifies this
      ensures Valid() && IsFair() && last != Some(Crashed) && (count > 0 ==> last.Some?)
      ensures forall i :: i in proposals ==> (proposals[i].canonical == Some(true) <==> Winner(Chains(), i))
      ensures proposals != map[] ==>
                forall i: nat :: cursor.lastResolved <= i < cursor.next && Winner(Chains(), i) ==> i in proposals
      ensures Evolves(old(Snap()), Snap(), games, d)
      ensures old(IsInformed()) ==> IsInformed()
      ensures old(IsInformed()) && SettledCourse(Chains(), worlds, n, top) && old(cursor.next) <= n && last != Some(Finished) ==>
                Progressed(Chains(), old(cursor), count, n, top, cursor)
    {
      last := RunSyncs(worlds, count, finalBlock, n, top);
      WinnersTracked(Chains(), Snap(), chain);
    }

    method RunSyncs(worlds: nat -> World, count: nat, finalBlock: Option<nat>, ghost n: nat, ghost top: nat)
      returns (last: Option<SyncResult>)
      requires Valid() && IsFair() && FairCourse(Chains(), worlds) && worlds(0).resolvedAt(cursor.lastResolved) != 0
      modifies this
      ensures Valid() && IsFair() && last != Some(Crashed) && (count > 0 ==> last.Some?)
      ensures exists k: nat :: Advances(Chains(), old(Snap()), k, worlds, n, top, Snap()) && (k == count || last == Some(Finished))
    {
      last := None;
      ghost var start := Snap();
      Unchanged(start, games, d);
      for k := 0 to count
        invariant Valid() && IsFair() && worlds(k).resolvedAt(cursor.lastResolved) != 0
        invariant last != Some(Crashed) && (k > 0 ==> last.Some?)
        invariant Advances(Chains(), start, k, worlds, n, top, Snap())
      {
        ghost var before := Snap();
        var r := SyncFairly(worlds, k, finalBlock);
        last := Some(r);
        AdvancesOn(Chains(), start, before, k, worlds, n, top, Snap());
        if r.Finished? {
          return;
        }
      }
    }

    /** The k-th synchronization of a fair course. */
    method SyncFairly(worlds: nat -> World, k: nat, finalBlock: Option<nat>) returns (r: SyncResult)
      requires Valid() && IsFair() && FairCourse(Chains(), worlds) && worlds(k).resolvedAt(cursor.lastResolved) != 0
      modifies this
      ensures Valid() && IsFair() && worlds(k + 1).resolvedAt(cursor.lastResolved) != 0
      ensures r != Crashed && Evolves(old(Snap()), Snap(), games, d)
      ensures old(IsInformed()) ==> IsInformed() && Achieves(Chains(), old(Snap()), worlds(k), Snap())
    {
      CourseFairFrom(Chains(), Snap(), chain, worlds, k);
      assert StaysResolved(worlds(k), worlds(k + 1));
      r := Sync(worlds(k), finalBlock);
    }
  }
}
