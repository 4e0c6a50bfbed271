/** The rounds and stages of a synchronization, and what they keep (crates/sync/src/agent.rs). */
module SyncRounds {
  import opened Common
  import opened Proposals
  import opened SyncState
  import opened SyncHistory
  import opened SyncOutputs
  import opened SyncWinners

  datatype SyncResult = Synced(processed: seq<nat>) | Error | Finished | Crashed

  function Incoming(games: nat -> Game, w: World, index: nat): Proposal
    requires games(index).Ours?
  {
    games(index).proposal.(resolvedAt := w.resolvedAt(index))
  }

  function SyncGame(s: State, d: Deployment, games: nat -> Game, w: World, index: nat): (State, Outcome)
    requires games(index).Ours? ==> Loadable(games(index).proposal)
  {
    match games(index)
    case OtherType => (s, Ignored)
    case Foreign => (s, if w.loads(index) then Ignored else Failed)
    case Ours(p) =>
      if !w.loads(index) then (s, Failed)
      else SyncLoaded(s, d, Incoming(games, w, index), w.round(p.proposer))
  }

  /** What follows on processing a game: following up on what is stored under the next index, which is the game's own
      unless it was delayed, and moving on unless the loop has to stop. */
  function MovedOn(t: State, outcome: Outcome, w: World, index: nat): (State, Outcome) {
    match outcome
    case Success =>
      if t.cursor.next in t.proposals then (MovedPast(FollowUp(t, t.proposals[t.cursor.next]), index), Success)
      else (t, Aborted)
    case Ignored => (MovedPast(t, index), Ignored)
    case Delayed(block) => (if block < w.safe then t else MovedPast(t, index), outcome)
    case _ => (t, outcome)
  }

  /** The state once the next index to process is taken from the queue, if it comes from there. */
  function Taken(s: State): State {
    s.(cursor := NextIndex(s.cursor).1)
  }

  /** One round of the loop: delayed games first, then new ones. */
  function LoopStep(s: State, d: Deployment, games: nat -> Game, w: World): (State, Outcome)
    requires var index := NextIndex(s.cursor).0;
             games(index).Ours? ==> Loadable(games(index).proposal)
  {
    var index := NextIndex(s.cursor).0;
    var processed := SyncGame(Taken(s), d, games, w, index);
    MovedOn(processed.0, processed.1, w, index)
  }

  function ChainStep(s: State, chain: seq<nat>, t: State, outcome: Outcome): seq<nat> {
    if outcome == Success && s.cursor.next in t.proposals then ChainAfter(s, chain, t.proposals[s.cursor.next]) else chain
  }

  /** Whatever is delayed was passed over. */
  predicate Passed(indices: seq<nat>, next: nat) {
    forall k :: 0 <= k < |indices| ==> indices[k] < next
  }

  /** The delayed games are still too far ahead of the known outputs. */
  predicate StillAhead(s: State, d: Deployment, games: nat -> Game) {
    forall k :: 0 <= k < |s.cursor.delayed| ==>
      var game := games(s.cursor.delayed[k]);
      game.Ours? ==> s.cursor.lastOutput + d.span < game.proposal.height
  }

  /** The anchor is a resolved game of this deployment, below the safe block. */
  predicate Anchored(s: State, games: nat -> Game, w: World) {
    s.proposals == map[] ==>
      games(s.cursor.next).Ours? && w.resolvedAt(s.cursor.next) != 0 && games(s.cursor.next).proposal.height < w.safe
  }

  /** If the next game is resolved already, it extends the chain. */
  predicate NextExtends(s: State, games: nat -> Game, w: World, chain: seq<nat>) {
    games(s.cursor.next).Ours? ==> Extends(s, chain, Incoming(games, w, s.cursor.next))
  }

  /** No game but the anchor is resolved before it is first met. */
  ghost predicate MetUnresolved(s: State, w: World) {
    forall i: nat :: i >= s.cursor.next && w.resolvedAt(i) != 0 ==> i == s.cursor.next && s.proposals == map[]
  }

  lemma AdvanceKeeps(s: State, d: Deployment, games: nat -> Game, chain: seq<nat>)
    requires Inv(s, d, games, chain) && s.proposals != map[]
    ensures Inv(Advance(s), d, games, chain) && Evolves(s, Advance(s), games, d)
  {
    CursorKeeps(s, d, games, chain, Advance(s).cursor);
    forall i: nat ensures EvolvesAt(s, Advance(s), i) {
      assert EntryAt(s, games, i);
    }
    forall a: Address ensures EliminationKept(s, Advance(s), a) {
    }
    SameCursorEvolves(s, Advance(s), games, d);
  }

  lemma Unchanged(s: State, games: nat -> Game, d: Deployment)
    ensures Evolves(s, s, games, d)
  {
    forall i: nat ensures EvolvesAt(s, s, i) {
    }
    forall a: Address ensures EliminationKept(s, s, a) {
    }
    SameCursorEvolves(s, s, games, d);
  }

  /** What a round leaves behind, while resolved games extend the chain. */
  ghost predicate RoundKeeps(
      s: State, d: Deployment, games: nat -> Game, chain: seq<nat>, t: State, outcome: Outcome)
  {
    && outcome != Panicked && outcome != Aborted
    && Inv(t, d, games, ChainStep(s, chain, t, outcome))
    && Evolves(s, t, games, d)
    && (t.proposals == map[] ==> t.cursor.next == s.cursor.next && s.proposals == map[])
  }

  lemma MovedOnKeeps(
      s: State, d: Deployment, games: nat -> Game, w: World, chain: seq<nat>, p: Proposal, t: State, outcome: Outcome)
    requires p.index == s.cursor.next == t.cursor.next && Processed(s, d, games, chain, p, t, outcome)
    requires outcome != Aborted
    requires if outcome == Success then Evolves(s, Advance(FollowUp(t, t.proposals[p.index])), games, d)
             else Evolves(s, t, games, d)
    requires s.proposals == map[] && outcome.Delayed? ==> outcome.block < w.safe
    ensures var r := MovedOn(t, outcome, w, p.index);
            RoundKeeps(s, d, games, chain, r.0, r.1)
  {
    if outcome != Success && t.proposals != map[] {
      AdvanceKeeps(t, d, games, chain);
      EvolvesTransitive(s, t, Advance(t), games, d);
    }
  }

  lemma DelayedBlock(s: State, d: Deployment, p: Proposal, round: nat)
    requires Loadable(p)
    ensures var r := SyncLoaded(s, d, p, round);
            && (r.1.Delayed? ==> r.1.block == p.height && (s.proposals != map[] ==> p.parent in s.proposals)) && r.1 != Aborted
  {
  }

  lemma LoadedRoundKeeps(s: State, d: Deployment, games: nat -> Game, w: World, chain: seq<nat>, p: Proposal)
    requires Inv(s, d, games, chain) && GoodGames(games, d) && Forward(s) && GoodGame(games, d, s.cursor.next)
    requires Anchored(s, games, w) && NextGame(s, games, p) && Loadable(p) && Extends(s, chain, p)
    ensures var t := SyncLoaded(s, d, p, w.round(p.proposer));
            var r := MovedOn(t.0, t.1, w, s.cursor.next);
            RoundKeeps(s, d, games, chain, r.0, r.1)
  {
    SyncLoadedKeeps(s, d, games, chain, p, w.round(p.proposer));
    SyncLoadedEvolves(s, d, games, chain, p, w.round(p.proposer));
    SyncLoadedForward(s, d, p, w.round(p.proposer));
    DelayedBlock(s, d, p, w.round(p.proposer));
    var r := SyncLoaded(s, d, p, w.round(p.proposer));
    MovedOnKeeps(s, d, games, w, chain, p, r.0, r.1);
  }

  /** What every round of the loop keeps. */
  lemma LoopStepKeeps(s: State, d: Deployment, games: nat -> Game, w: World, chain: seq<nat>)
    requires Inv(s, d, games, chain) && GoodGames(games, d) && Forward(s) && GoodGame(games, d, s.cursor.next)
    requires Anchored(s, games, w) && NextExtends(s, games, w, chain) && s.cursor.delayed == []
    ensures var r := LoopStep(s, d, games, w);
            RoundKeeps(s, d, games, chain, r.0, r.1)
  {
    if games(s.cursor.next).Ours? && w.loads(s.cursor.next) {
      LoadedRoundKeeps(s, d, games, w, chain, Incoming(games, w, s.cursor.next));
    } else {
      Unchanged(s, games, d);
      if s.proposals != map[] {
        AdvanceKeeps(s, d, games, chain);
      }
    }
  }

  lemma AdvanceForward(s: State)
    requires Forward(s)
    ensures Forward(Advance(s))
  {
    forall i: nat ensures ForwardAt(Advance(s), i) {
      assert ForwardAt(s, i);
    }
  }

  lemma FollowUpForward(s: State, p: Proposal)
    requires Forward(Advance(s))
    ensures Forward(Advance(FollowUp(s, p)))
  {
    forall i: nat ensures ForwardAt(Advance(FollowUp(s, p)), i) {
      assert ForwardAt(Advance(s), i);
    }
  }

  /** The queue and the last known output stay, and the next index moves by one if it was processed. */
  predicate MovedFrom(s: State, t: State, outcome: Outcome, w: World, index: nat) {
    && t.outputs == s.outputs && t.cursor.delayed == s.cursor.delayed && t.cursor.lastOutput == s.cursor.lastOutput
    && t.cursor.next == s.cursor.next + (if index == s.cursor.next && !Stops(outcome, w) then 1 else 0)
  }

  lemma MovedOnForward(t: State, outcome: Outcome, w: World, index: nat)
    requires if outcome == Success then
               Forward(MovedPast(t, index)) && (index == t.cursor.next ==> t.cursor.next in t.proposals)
             else Forward(t)
    requires index <= t.cursor.next
    ensures var r := MovedOn(t, outcome, w, index);
            && Forward(r.0) && MovedFrom(t, r.0, r.1, w, index)
            && (outcome == Success && index < t.cursor.next ==> r == (t, Aborted))
  {
    if outcome == Success {
      if index == t.cursor.next {
        FollowUpForward(t, t.proposals[t.cursor.next]);
      } else {
        assert ForwardAt(t, t.cursor.next);
      }
    } else {
      AdvanceForward(t);
    }
  }

  lemma TakenForward(s: State)
    requires Forward(s)
    ensures Forward(Taken(s))
  {
    forall i: nat ensures ForwardAt(Taken(s), i) {
      assert ForwardAt(s, i);
    }
  }

  lemma SyncGameForward(s: State, d: Deployment, games: nat -> Game, w: World, index: nat)
    requires Forward(s) && GoodGame(games, d, index) && index <= s.cursor.next
    ensures var (t, outcome) := SyncGame(s, d, games, w, index);
            && t.cursor == s.cursor && t.outputs == s.outputs && outcome != Aborted
            && (if outcome == Success then index in t.proposals && Forward(MovedPast(t, index)) else Forward(t))
  {
    if games(index).Ours? {
      var p := Incoming(games, w, index);
      SyncLoadedForward(s, d, p, w.round(p.proposer));
    }
  }

  /** Every round of the loop keeps successors ahead, and a delayed game that is stored aborts the synchronization. */
  lemma LoopStepForward(s: State, d: Deployment, games: nat -> Game, w: World)
    requires var index := NextIndex(s.cursor).0;
             Forward(s) && index <= s.cursor.next && GoodGame(games, d, index)
    ensures var index, r := NextIndex(s.cursor).0, LoopStep(s, d, games, w);
            && Forward(r.0) && MovedFrom(Taken(s), r.0, r.1, w, index)
            && (index < s.cursor.next ==> r.1 != Success)
            && (r.1 == Aborted <==> index < s.cursor.next && SyncGame(Taken(s), d, games, w, index).1 == Success)
  {
    var index := NextIndex(s.cursor).0;
    TakenForward(s);
    SyncGameForward(Taken(s), d, games, w, index);
    var r := SyncGame(Taken(s), d, games, w, index);
    MovedOnForward(r.0, r.1, w, index);
  }

  lemma DelayedGameKeeps(s: State, d: Deployment, games: nat -> Game, w: World, chain: seq<nat>, index: nat)
    requires Inv(s, d, games, chain) && s.proposals != map[] && GoodGame(games, d, index)
    requires SyncGame(s, d, games, w, index).1 != Success && SyncGame(s, d, games, w, index).1 != Panicked
    ensures var t := SyncGame(s, d, games, w, index).0;
            Inv(t, d, games, chain) && Evolves(s, t, games, d) && t.cursor == s.cursor && t.proposals != map[]
  {
    Unchanged(s, games, d);
    if games(index).Ours? && w.loads(index) {
      var p := Incoming(games, w, index);
      PassedEvolves(s, d, games, chain, p, w.round(p.proposer));
    }
  }

  /** A round over a delayed game is the processing of that game, and storing it aborts the synchronization. */
  lemma DelayedStepIs(s: State, d: Deployment, games: nat -> Game, w: World)
    requires Forward(s)
    requires s.cursor.delayed != [] && s.cursor.delayed[0] < s.cursor.next && GoodGame(games, d, s.cursor.delayed[0])
    ensures var (t, outcome) := SyncGame(Taken(s), d, games, w, s.cursor.delayed[0]);
            && LoopStep(s, d, games, w) == (t, if outcome == Success then Aborted else outcome)
            && t.cursor == Taken(s).cursor
  {
    var index := s.cursor.delayed[0];
    TakenForward(s);
    SyncGameForward(Taken(s), d, games, w, index);
    var r := SyncGame(Taken(s), d, games, w, index);
    MovedOnForward(r.0, r.1, w, index);
  }

  /** A delayed game that is neither stored nor crashes the agent changes nothing of the chain. */
  lemma DelayedStepKeeps(s: State, d: Deployment, games: nat -> Game, w: World, chain: seq<nat>)
    requires Inv(s, d, games, chain) && Forward(s) && s.proposals != map[]
    requires s.cursor.delayed != [] && s.cursor.delayed[0] < s.cursor.next && GoodGame(games, d, s.cursor.delayed[0])
    ensures var r := LoopStep(s, d, games, w);
            r.1 != Aborted && r.1 != Panicked ==> RoundKeeps(s, d, games, chain, r.0, r.1)
  {
    var index := s.cursor.delayed[0];
    LoopStepForward(s, d, games, w);
    CursorChange(s, Taken(s).cursor, d, games, chain, true);
    var t := SyncGame(Taken(s), d, games, w, index).0;
    if LoopStep(s, d, games, w).1 != Aborted && LoopStep(s, d, games, w).1 != Panicked {
      DelayedGameKeeps(Taken(s), d, games, w, chain, index);
      EvolvesTransitive(s, Taken(s), t, games, d);
    }
  }

  /** A delayed game that is still too far ahead is not judged. */
  lemma StillAheadWaits(s: State, d: Deployment, games: nat -> Game, w: World)
    requires s.cursor.delayed != [] && GoodGame(games, d, s.cursor.delayed[0])
    requires StillAhead(s, d, games)
    ensures var outcome := SyncGame(Taken(s), d, games, w, s.cursor.delayed[0]).1;
            outcome == Ignored || outcome == Failed || outcome.Delayed?
  {
  }

  /** The round does no harm to the chain: a resolved new game extends it, a delayed game is not stored. */
  predicate RoundLawful(s: State, d: Deployment, games: nat -> Game, w: World, chain: seq<nat>)
    requires var index := NextIndex(s.cursor).0;
             games(index).Ours? ==> Loadable(games(index).proposal)
  {
    if s.cursor.delayed == [] then NextExtends(s, games, w, chain)
    else LoopStep(s, d, games, w).1 != Aborted && LoopStep(s, d, games, w).1 != Panicked
  }

  /** The invariant, and that nothing is delayed before the anchor is stored. */
  ghost predicate Lawful(s: State, d: Deployment, games: nat -> Game, chain: seq<nat>) {
    Inv(s, d, games, chain) && (s.proposals == map[] ==> s.cursor.delayed == [])
  }

  /** Every round of the loop, whether or not it is lawful. */
  lemma LoopStepSafe(s: State, d: Deployment, games: nat -> Game, w: World, chain: seq<nat>, lawful: bool)
    requires var index := NextIndex(s.cursor).0;
             GoodGames(games, d) && GoodGame(games, d, index) && Forward(s) && Passed(s.cursor.delayed, s.cursor.next)
    requires lawful ==> Lawful(s, d, games, chain) && Anchored(s, games, w) && RoundLawful(s, d, games, w, chain)
    ensures var index, r := NextIndex(s.cursor).0, LoopStep(s, d, games, w);
            && Forward(r.0) && MovedFrom(Taken(s), r.0, r.1, w, index) && Passed(r.0.cursor.delayed, r.0.cursor.next)
            && (lawful ==> Lawful(r.0, d, games, ChainStep(s, chain, r.0, r.1))
                           && RoundKeeps(s, d, games, chain, r.0, r.1) && Anchored(r.0, games, w))
  {
    LoopStepForward(s, d, games, w);
    if lawful {
      if s.cursor.delayed == [] {
        LoopStepKeeps(s, d, games, w, chain);
      } else {
        DelayedStepKeeps(s, d, games, w, chain);
        assert ForwardAt(s, s.cursor.next);
      }
    }
  }

  /** The world is fair, and what the agent knows to be resolved is. */
  ghost predicate FairFrom(f: Factory, s: State, w: World) {
    SoundAnchor(f) && FairWorld(f, w, s.cursor.next) && w.resolvedAt(s.cursor.lastResolved) != 0
  }

  /** The canonical proposals are the winners, and no child of a winner is delayed. */
  ghost predicate FairRun(f: Factory, s: State, chain: seq<nat>) {
    Fair(f, s, chain) && Sidelined(f, s.cursor.delayed)
  }

  lemma MovedOnFair(
      f: Factory, s: State, w: World, chain: seq<nat>, p: Proposal, t: State, outcome: Outcome)
    requires Inv(s, f.d, f.games, chain) && Fair(f, s, chain)
    requires FairWorld(f, w, s.cursor.next) && NextGame(s, f.games, p) && s.cursor.next < w.gameCount
    requires p.index == s.cursor.next == t.cursor.next && (outcome.Delayed? ==> outcome.block == p.height)
    requires Processed(s, f.d, f.games, chain, p, t, outcome) && ProcessedFairly(f, s, chain, p, t, outcome)
    requires outcome.Delayed? ==> if s.proposals == map[] then outcome.block < w.safe else p.parent < p.index
    ensures var r := MovedOn(t, outcome, w, p.index);
            && Fair(f, r.0, ChainStep(s, chain, r.0, r.1))
            && SidelinedRound(f, r.1, w, p.index)
  {
    if outcome != Success && t.proposals != map[] {
      NextIsLater(f, s, chain);
      if outcome.Delayed? && outcome.block >= w.safe {
        SidelinedPassable(f, t, chain);
        AdvanceFair(f, t, chain);
      } else if outcome == Ignored {
        AdvanceFair(f, t, chain);
      }
    }
  }

  /** What a round adds to the games that are too far ahead. */
  ghost predicate SidelinedRound(f: Factory, outcome: Outcome, w: World, index: nat) {
    outcome.Delayed? && !Stops(outcome, w) ==> OnSideline(f, index)
  }

  /** In a fair world every round over a new game is lawful and fair. */
  lemma LoopStepFair(f: Factory, s: State, w: World, chain: seq<nat>)
    requires Inv(s, f.d, f.games, chain) && Fair(f, s, chain) && TrueOutputs(s.outputs, f.output) && Forward(s)
    requires GoodGames(f.games, f.d) && GoodGame(f.games, f.d, s.cursor.next)
    requires Anchored(s, f.games, w) && FairFrom(f, s, w) && s.cursor.delayed == [] && s.cursor.next < w.gameCount
    ensures NextExtends(s, f.games, w, chain)
    ensures var r := LoopStep(s, f.d, f.games, w);
            Fair(f, r.0, ChainStep(s, chain, r.0, r.1)) && SidelinedRound(f, r.1, w, s.cursor.next)
  {
    if f.games(s.cursor.next).Ours? {
      var p := Incoming(f.games, w, s.cursor.next);
      SyncLoadedFair(f, s, chain, w, p);
      if w.loads(s.cursor.next) {
        LoadedRoundFair(f, s, w, chain, p);
      }
    } else if s.proposals != map[] {
      SidelinedPassable(f, s, chain);
      AdvanceFair(f, s, chain);
    }
  }

  lemma LoadedRoundFair(f: Factory, s: State, w: World, chain: seq<nat>, p: Proposal)
    requires Inv(s, f.d, f.games, chain) && Fair(f, s, chain) && TrueOutputs(s.outputs, f.output) && Forward(s)
    requires GoodGames(f.games, f.d) && GoodGame(f.games, f.d, s.cursor.next) && Loadable(p)
    requires Anchored(s, f.games, w) && FairFrom(f, s, w) && NextGame(s, f.games, p) && s.cursor.next < w.gameCount
    requires p.resolvedAt == w.resolvedAt(s.cursor.next)
    ensures var t := SyncLoaded(s, f.d, p, w.round(p.proposer));
            var r := MovedOn(t.0, t.1, w, s.cursor.next);
            Fair(f, r.0, ChainStep(s, chain, r.0, r.1)) && SidelinedRound(f, r.1, w, s.cursor.next)
  {
    SyncLoadedFair(f, s, chain, w, p);
    SyncLoadedKeeps(s, f.d, f.games, chain, p, w.round(p.proposer));
    SyncLoadedForward(s, f.d, p, w.round(p.proposer));
    DelayedBlock(s, f.d, p, w.round(p.proposer));
    var r := SyncLoaded(s, f.d, p, w.round(p.proposer));
    assert EntryAt(s, f.games, p.parent);
    MovedOnFair(f, s, w, chain, p, r.0, r.1);
  }

  /** In a fair world a delayed game is never stored. */
  lemma DelayedStepFair(f: Factory, s: State, w: World, chain: seq<nat>)
    requires Inv(s, f.d, f.games, chain) && Fair(f, s, chain) && FairFrom(f, s, w) && Forward(s) && s.proposals != map[]
    requires s.cursor.delayed != []
    requires s.cursor.delayed[0] < s.cursor.next && GoodGame(f.games, f.d, s.cursor.delayed[0])
    requires OnSideline(f, s.cursor.delayed[0])
    ensures var r := LoopStep(s, f.d, f.games, w);
            r.1 != Aborted && r.1 != Panicked && r.1 != Success && Fair(f, r.0, chain)
  {
    DelayedStepIs(s, f.d, f.games, w);
    CursorFair(f, s, Taken(s), chain);
    CursorChange(s, Taken(s).cursor, f.d, f.games, chain, true);
    DelayedGameFair(f, Taken(s), w, chain, s.cursor.delayed[0]);
  }

  lemma DelayedGameFair(f: Factory, s: State, w: World, chain: seq<nat>, index: nat)
    requires Inv(s, f.d, f.games, chain) && Fair(f, s, chain) && FairWorld(f, w, s.cursor.next) && s.proposals != map[]
    requires GoodGame(f.games, f.d, index) && OnSideline(f, index)
    ensures var r := SyncGame(s, f.d, f.games, w, index);
            r.1 != Success && r.1 != Panicked && Fair(f, r.0, chain)
  {
    if f.games(index).Ours? && w.loads(index) {
      SidelinedFair(f, s, chain, w, Incoming(f.games, w, index));
    }
  }

  /** Only a game that was resolved when it was loaded is taken for the last resolved one. */
  lemma SettledRound(s: State, d: Deployment, games: nat -> Game, w: World)
    requires var index := NextIndex(s.cursor).0;
             Forward(s) && index <= s.cursor.next && GoodGame(games, d, index)
    requires w.resolvedAt(s.cursor.lastResolved) != 0
    ensures w.resolvedAt(LoopStep(s, d, games, w).0.cursor.lastResolved) != 0
  {
    var index := NextIndex(s.cursor).0;
    TakenForward(s);
    SyncGameForward(Taken(s), d, games, w, index);
    var r := SyncGame(Taken(s), d, games, w, index);
    MovedOnForward(r.0, r.1, w, index);
    if games(index).Ours? && w.loads(index) {
      var p := Incoming(games, w, index);
      StoredAsLoaded(Taken(s), d, p, w.round(p.proposer));
    }
    if index < s.cursor.next {
      assert ForwardAt(r.0, s.cursor.next);
    }
    SettledMove(r.0, r.1, w, index);
  }

  lemma SettledMove(t: State, outcome: Outcome, w: World, index: nat)
    requires w.resolvedAt(t.cursor.lastResolved) != 0 && index <= t.cursor.next
    requires outcome == Success && index == t.cursor.next ==>
               index in t.proposals && t.proposals[index].resolvedAt == w.resolvedAt(index) && t.proposals[index].index == index
    requires index < t.cursor.next ==> t.cursor.next !in t.proposals
    ensures w.resolvedAt(MovedOn(t, outcome, w, index).0.cursor.lastResolved) != 0
  {
  }

  /** In a fair world every round is lawful and fair. */
  lemma RoundFair(f: Factory, s: State, w: World, chain: seq<nat>)
    requires Lawful(s, f.d, f.games, chain) && FairRun(f, s, chain) && TrueOutputs(s.outputs, f.output) && Forward(s)
    requires GoodGames(f.games, f.d) && GoodGame(f.games, f.d, NextIndex(s.cursor).0)
    requires Anchored(s, f.games, w) && FairFrom(f, s, w) && Passed(s.cursor.delayed, s.cursor.next)
    requires HasNext(s.cursor, w.gameCount)
    ensures RoundLawful(s, f.d, f.games, w, chain)
    ensures var r := LoopStep(s, f.d, f.games, w);
            && FairRun(f, r.0, ChainStep(s, chain, r.0, r.1)) && FairFrom(f, r.0, w)
            && SidelinedRound(f, r.1, w, NextIndex(s.cursor).0)
  {
    LoopStepForward(s, f.d, f.games, w);
    SettledRound(s, f.d, f.games, w);
    if s.cursor.delayed == [] {
      LoopStepFair(f, s, w, chain);
    } else {
      DelayedStepFair(f, s, w, chain);
    }
  }

  /** What a round leaves behind: always, if it and all before it were lawful, and in a fair world. */
  ghost predicate RoundResult(
      f: Factory, s: State, w: World, chain: seq<nat>, wasLawful: bool, roundLawful: bool, t: State, outcome: Outcome)
  {
    var longer := ChainStep(s, chain, t, outcome);
    && Forward(t) && MovedFrom(Taken(s), t, outcome, w, NextIndex(s.cursor).0) && Passed(t.cursor.delayed, t.cursor.next)
    && (wasLawful && roundLawful ==>
          && Lawful(t, f.d, f.games, longer) && Evolves(s, t, f.games, f.d) && Anchored(t, f.games, w)
          && outcome != Panicked && outcome != Aborted
          && (t.proposals == map[] ==> Stops(outcome, w) && s.proposals == map[]))
    && (wasLawful && FairRun(f, s, chain) && FairFrom(f, s, w) ==>
          && roundLawful && FairRun(f, t, longer) && FairFrom(f, t, w)
          && SidelinedRound(f, outcome, w, NextIndex(s.cursor).0))
  }

  lemma RoundResults(
      f: Factory, s: State, w: World, chain: seq<nat>, wasLawful: bool, roundLawful: bool, step: (State, Outcome))
    requires GoodGames(f.games, f.d) && Forward(s) && Passed(s.cursor.delayed, s.cursor.next)
    requires TrueOutputs(s.outputs, f.output) && GoodGame(f.games, f.d, NextIndex(s.cursor).0)
    requires wasLawful ==> Lawful(s, f.d, f.games, chain) && Anchored(s, f.games, w)
    requires HasNext(s.cursor, w.gameCount)
    requires roundLawful == RoundLawful(s, f.d, f.games, w, chain) && step == LoopStep(s, f.d, f.games, w)
    ensures RoundResult(f, s, w, chain, wasLawful, roundLawful, step.0, step.1)
  {
    LoopStepSafe(s, f.d, f.games, w, chain, wasLawful && roundLawful);
    if wasLawful && FairRun(f, s, chain) && FairFrom(f, s, w) {
      RoundFair(f, s, w, chain);
    }
  }

  /** From a fair state every world of a fair course is fair. */
  lemma CourseFairFrom(f: Factory, s: State, chain: seq<nat>, worlds: nat -> World, k: nat)
    requires Inv(s, f.d, f.games, chain) && Fair(f, s, chain) && FairCourse(f, worlds)
    requires worlds(k).resolvedAt(s.cursor.lastResolved) != 0
    ensures FairFrom(f, s, worlds(k)) && Anchored(s, f.games, worlds(k))
  {
    assert FairWorld(f, worlds(k), f.anchor) && AnchorKnown(f, worlds(k));
    if s.proposals != map[] {
      NextIsLater(f, s, chain);
    }
  }

  /** In a fair state the canonical proposals are the winners, and no winner since the last resolved one is missing. */
  lemma WinnersTracked(f: Factory, s: State, chain: seq<nat>)
    requires Inv(s, f.d, f.games, chain) && Fair(f, s, chain)
    ensures forall i :: i in s.proposals ==> (s.proposals[i].canonical == Some(true) <==> Winner(f, i))
    ensures s.proposals != map[] ==>
              forall i: nat :: s.cursor.lastResolved <= i < s.cursor.next && Winner(f, i) ==> i in s.proposals
  {
    if s.proposals != map[] {
      LastResolvedWon(f, s, chain);
    }
    forall i: nat ensures i in s.proposals ==> (s.proposals[i].canonical == Some(true) <==> Winner(f, i)) {
      assert FairAt(f, s, chain, i);
    }
    forall i: nat | s.proposals != map[] && s.cursor.lastResolved <= i < s.cursor.next && Winner(f, i)
      ensures i in s.proposals
    {
      assert FairAt(f, s, chain, i);
    }
  }

  /** A winner above the safe block is passed over, and the state is fair no more. */
  lemma DelayedWinnerMissed(f: Factory, s: State, w: World, chain: seq<nat>, longer: seq<nat>)
    requires Inv(s, f.d, f.games, chain) && Fair(f, s, chain) && Forward(s) && s.proposals != map[]
    requires s.cursor.delayed == [] && GoodGame(f.games, f.d, s.cursor.next) && Winner(f, s.cursor.next)
    requires var outcome := SyncGame(s, f.d, f.games, w, s.cursor.next).1;
             outcome.Delayed? && outcome.block >= w.safe
    ensures !Fair(f, LoopStep(s, f.d, f.games, w).0, longer)
  {
    DelayedNextPassed(s, f.d, f.games, w);
    LastResolvedWon(f, s, chain);
    NextNotOnChain(s, f.d, f.games, chain);
    PassedWinnerUnfair(f, LoopStep(s, f.d, f.games, w).0, longer, s.cursor.next, s.cursor.lastResolved);
  }

  lemma DelayedNextPassed(s: State, d: Deployment, games: nat -> Game, w: World)
    requires s.cursor.delayed == [] && GoodGame(games, d, s.cursor.next)
    requires var outcome := SyncGame(s, d, games, w, s.cursor.next).1;
             outcome.Delayed? && outcome.block >= w.safe
    ensures var t := LoopStep(s, d, games, w).0;
            t.proposals == s.proposals && t.cursor.next == s.cursor.next + 1
  {
    assert Taken(s) == s;
    SyncGameCursor(s, d, games, w, s.cursor.next);
  }

  /** No fair state has passed over a winner and tracks an earlier game. */
  lemma PassedWinnerUnfair(f: Factory, s: State, chain: seq<nat>, i: nat, earlier: nat)
    requires Winner(f, i) && i < s.cursor.next && i !in s.proposals && earlier in s.proposals && earlier < i
    ensures !Fair(f, s, chain)
  {
    assert !FairAt(f, s, chain, i);
  }

  predicate Stops(outcome: Outcome, w: World) {
    outcome == Failed || outcome == Aborted || outcome == Panicked || (outcome.Delayed? && outcome.block < w.safe)
  }

  lemma ResolveForward(s: State, d: Deployment, index: nat, resolvedAt: nat)
    requires Forward(s) && index in s.proposals
    ensures Forward(Prune(Resolve(s, index, resolvedAt), d))
  {
    var t := Prune(Resolve(s, index, resolvedAt), d);
    forall i: nat ensures ForwardAt(t, i) {
      assert ForwardAt(s, i);
    }
  }

  lemma {:induction false} RetainedPassed(indices: seq<nat>, next: nat, from: nat)
    requires Passed(indices, next)
    ensures Passed(Retain(indices, from), next)
  {
    if indices != [] {
      RetainedPassed(indices[1..], next, from);
    }
  }

  lemma {:induction false} RetainedSidelined(f: Factory, indices: seq<nat>, from: nat)
    requires Sidelined(f, indices)
    ensures Sidelined(f, Retain(indices, from))
  {
    if indices != [] {
      RetainedSidelined(f, indices[1..], from);
    }
  }

  lemma ResolvePruneKeeps(s: State, d: Deployment, games: nat -> Game, chain: seq<nat>, index: nat, resolvedAt: nat)
    requires Inv(s, d, games, chain) && d.span > 0 && s.cursor.lastResolved in s.proposals
    requires s.proposals[s.cursor.lastResolved].successor == Some(index)
    ensures index in chain && index in s.proposals
    ensures var t := Prune(Resolve(s, index, resolvedAt), d);
            && Inv(t, d, games, chain[PositionOf(chain, index)..]) && Evolves(s, t, games, d)
            && t.cursor.lastResolved == index && index in t.proposals
  {
    ResolveEvolves(s, d, games, chain, index, resolvedAt);
    ResolveKeeps(s, d, games, chain, index, resolvedAt);
    var u := Resolve(s, index, resolvedAt);
    PruneKeeps(u, d, games, chain);
    PruneEvolves(u, d, games, chain);
    EvolvesTransitive(s, u, Prune(u, d), games, d);
  }

  /** What a round over resolutions leaves behind. */
  ghost predicate ResolutionResult(f: Factory, s: State, chain: seq<nat>, lawful: bool, index: nat, t: State) {
    && Forward(t) && Passed(t.cursor.delayed, t.cursor.next)
    && TrueOutputs(t.outputs, f.output) && t.outputs.Keys <= s.outputs.Keys
    && (lawful ==>
          && index in chain && index in t.proposals && Evolves(s, t, f.games, f.d)
          && var rest := chain[PositionOf(chain, index)..];
             Lawful(t, f.d, f.games, rest) && (FairRun(f, s, chain) ==> FairRun(f, t, rest)))
  }

  lemma ResolutionResults(f: Factory, s: State, chain: seq<nat>, lawful: bool, index: nat, resolvedAt: nat)
    requires Forward(s) && Passed(s.cursor.delayed, s.cursor.next) && TrueOutputs(s.outputs, f.output) && f.d.span > 0
    requires index in s.proposals && s.cursor.lastResolved in s.proposals
    requires s.proposals[s.cursor.lastResolved].successor == Some(index)
    requires lawful ==> Inv(s, f.d, f.games, chain)
    ensures ResolutionResult(f, s, chain, lawful, index, Prune(Resolve(s, index, resolvedAt), f.d))
  {
    ResolveForward(s, f.d, index, resolvedAt);
    ResolveTrue(s, f.d, f.output, index, resolvedAt);
    RetainedPassed(s.cursor.delayed, s.cursor.next, index);
    if lawful {
      ResolvePruneKeeps(s, f.d, f.games, chain, index, resolvedAt);
      if FairRun(f, s, chain) {
        ResolvePruneFair(f, s, chain, index, resolvedAt);
        RetainedSidelined(f, s.cursor.delayed, index);
      }
    }
  }

  // ---------------------------------------------------------------------------------------------
  // Outputs
  // ---------------------------------------------------------------------------------------------

  /** The delayed games and the last known output are no part of the invariant. */
  lemma CursorChange(s: State, cursor: Cursor, d: Deployment, games: nat -> Game, chain: seq<nat>, lawful: bool)
    requires Forward(s) && (lawful ==> Inv(s, d, games, chain))
    requires cursor == s.cursor.(lastOutput := cursor.lastOutput, delayed := cursor.delayed)
    ensures var t := s.(cursor := cursor);
            Forward(t) && Evolves(s, t, games, d) && (lawful ==> Inv(t, d, games, chain))
  {
    var t := s.(cursor := cursor);
    forall i: nat ensures ForwardAt(t, i) && EvolvesAt(s, t, i) {
      assert ForwardAt(s, i);
    }
    forall a: Address ensures EliminationKept(s, t, a) {
    }
    SameCursorEvolves(s, t, games, d);
    if lawful {
      CursorKeeps(s, d, games, chain, cursor);
    }
  }

  /** Once the anchor is stored, the last resolved proposal is tracked. */
  lemma LastResolvedTracked(s: State, d: Deployment, games: nat -> Game, chain: seq<nat>)
    requires Inv(s, d, games, chain)
    ensures s.cursor.lastResolved in s.proposals <==> s.proposals != map[]
  {
    if s.proposals != map[] {
      ChainAt(s.proposals, d, chain, PositionOf(chain, s.cursor.lastResolved));
    }
  }

  lemma ResolveTrue(s: State, d: Deployment, output: nat -> B256, index: nat, resolvedAt: nat)
    requires TrueOutputs(s.outputs, output) && index in s.proposals && d.span > 0
    ensures var kept := Prune(Resolve(s, index, resolvedAt), d).outputs;
            TrueOutputs(kept, output) && kept.Keys <= s.outputs.Keys
  {
    var t := Resolve(s, index, resolvedAt);
    FreeKeeps(s.outputs, EarliestOutput(d, t.proposals[index]), d.span, 1);
  }

  lemma FreedStaysPersisted(
      before: map<nat, B256>, after: map<nat, B256>, db: map<nat, B256>, kept: map<nat, B256>, output: nat -> B256)
    requires Persisted(before, db, output) && TrueOutputs(after, output)
    requires after.Keys <= before.Keys && kept == db - (before.Keys - after.Keys)
    ensures Persisted(after, kept, output)
  {
  }

  lemma EarliestKey(proposals: map<nat, Proposal>)
    requires proposals != map[]
    ensures exists e :: e in proposals && forall i :: i in proposals ==> e <= i
  {
    var n: nat :| n in proposals;
    EarliestBelow(proposals, n);
  }

  lemma {:induction false} EarliestBelow(proposals: map<nat, Proposal>, n: nat)
    requires n in proposals
    ensures exists e :: e in proposals && forall i :: i in proposals ==> e <= i
    decreases n
  {
    if i: nat :| i in proposals && i < n {
      EarliestBelow(proposals, i);
    }
  }

  /** The processed games of a range that are still tracked. */
  function Tracked(proposals: map<nat, Proposal>, from: nat, to: nat): seq<nat>
    decreases to - from
  {
    if from >= to then [] else (if from in proposals then [from] else []) + Tracked(proposals, from + 1, to)
  }

  // ---------------------------------------------------------------------------------------------
  // A whole synchronization
  // ---------------------------------------------------------------------------------------------

  /** The round before the loops: outputs are fetched if the known ones lag by more than a span. */
  function OutputsFetched(s: State, d: Deployment, output: nat -> B256, safe: nat): State
    requires d.span > 0
  {
    var end := Min(safe, s.cursor.lastOutput + BlocksPerProposal(d));
    if s.cursor.lastOutput + d.span >= end then s
    else
      var blocks := Grid(s.cursor.lastOutput, end, d.span);
      s.(outputs := Learned(s.outputs, output, blocks),
         cursor := s.cursor.(lastOutput := Latest(s.cursor.lastOutput, blocks)))
  }

  /** How the loop over games ends: with the indices that were too far ahead, or with the whole synchronization. */
  datatype LoopEnd = Left(ahead: seq<nat>) | GaveUp | Died

  /** The games that are still to be processed. */
  function Remaining(c: Cursor, gameCount: nat): nat {
    |c.delayed| + if c.next < gameCount then gameCount - c.next else 0
  }

  /** Every round that does not stop leaves fewer games. */
  lemma RoundShrinks(s: State, d: Deployment, games: nat -> Game, w: World)
    requires var index := NextIndex(s.cursor).0;
             games(index).Ours? ==> Loadable(games(index).proposal)
    requires HasNext(s.cursor, w.gameCount)
    ensures var r := LoopStep(s, d, games, w);
            !Stops(r.1, w) ==> Remaining(r.0.cursor, w.gameCount) < Remaining(s.cursor, w.gameCount)
  {
    var index := NextIndex(s.cursor).0;
    SyncGameCursor(Taken(s), d, games, w, index);
    var r := SyncGame(Taken(s), d, games, w, index);
    MovedOnCursor(r.0, r.1, w, index);
  }

  lemma SyncGameCursor(s: State, d: Deployment, games: nat -> Game, w: World, index: nat)
    requires games(index).Ours? ==> Loadable(games(index).proposal)
    ensures SyncGame(s, d, games, w, index).0.cursor == s.cursor
  {
  }

  lemma MovedOnCursor(t: State, outcome: Outcome, w: World, index: nat)
    ensures var r := MovedOn(t, outcome, w, index);
            && r.0.cursor.delayed == t.cursor.delayed && r.0.cursor.lastOutput == t.cursor.lastOutput
            && r.0.cursor.next == t.cursor.next + (if index == t.cursor.next && !Stops(r.1, w) then 1 else 0)
  {
  }

  /** All rounds over delayed and new games. */
  ghost function ProcessAll(s: State, d: Deployment, games: nat -> Game, w: World, ahead: seq<nat>): (State, LoopEnd)
    requires GoodGames(games, d)
    decreases Remaining(s.cursor, w.gameCount)
  {
    assert GoodGame(games, d, NextIndex(s.cursor).0);
    if !HasNext(s.cursor, w.gameCount) then (s, Left(ahead))
    else
      var r := LoopStep(s, d, games, w);
      RoundShrinks(s, d, games, w);
      if r.1 == Panicked then (r.0, Died)
      else if r.1 == Aborted then (r.0, GaveUp)
      else if Stops(r.1, w) then (r.0, Left(ahead))
      else ProcessAll(r.0, d, games, w, AheadAfter(s, r.1, ahead))
  }

  function AheadAfter(s: State, outcome: Outcome, ahead: seq<nat>): seq<nat> {
    if outcome.Delayed? then ahead + [NextIndex(s.cursor).0] else ahead
  }

  lemma ProcessAllStep(s: State, d: Deployment, games: nat -> Game, w: World, ahead: seq<nat>)
    requires GoodGames(games, d) && HasNext(s.cursor, w.gameCount) && GoodGame(games, d, NextIndex(s.cursor).0)
    ensures var r := LoopStep(s, d, games, w);
            ProcessAll(s, d, games, w, ahead) ==
              if r.1 == Panicked then (r.0, Died)
              else if r.1 == Aborted then (r.0, GaveUp)
              else if Stops(r.1, w) then (r.0, Left(ahead))
              else ProcessAll(r.0, d, games, w, AheadAfter(s, r.1, ahead))
  {
  }

  /** A delayed game that is stored after all makes the synchronization fail, and the tip stays where it was. */
  lemma StoredDelayedFails(s: State, d: Deployment, games: nat -> Game, w: World)
    requires GoodGames(games, d) && Forward(s) && s.cursor.delayed != [] && s.cursor.delayed[0] < s.cursor.next
    requires GoodGame(games, d, s.cursor.delayed[0])
    requires SyncGame(Taken(s), d, games, w, s.cursor.delayed[0]).1 == Success
    ensures var (t, end) := ProcessAll(s, d, games, w, []);
            && end == GaveUp && t == SyncGame(Taken(s), d, games, w, s.cursor.delayed[0]).0
            && t.cursor == s.cursor.(delayed := s.cursor.delayed[1..])
  {
    DelayedStepIs(s, d, games, w);
    ProcessAllStep(s, d, games, w, []);
  }

  /** Along the successors of the last resolved proposal as far as they are resolved; whether all were tracked. */
  function ResolveAll(s: State, d: Deployment, w: World): (State, bool)
    decreases s.cursor.next - s.cursor.lastResolved
  {
    var last := s.cursor.lastResolved;
    if last !in s.proposals then (s, false)
    else if s.proposals[last].successor.None? then (s, true)
    else
      var index := s.proposals[last].successor.value;
      if index !in s.proposals then (s, false)
      else if w.resolvedAt(index) == 0 then (s, true)
      else if index <= last || index >= s.cursor.next then (s, false)
      else ResolveAll(Prune(Resolve(s, index, w.resolvedAt(index)), d), d, w)
  }

  /** Fetching, processing and resolving; no answer stands for a crash, a negative one for an error: a synchronization
      that gave up forgets the indices that were too far ahead. */
  ghost function Stages(s: State, d: Deployment, games: nat -> Game, output: nat -> B256, w: World): (State, Option<bool>)
    requires GoodGames(games, d)
  {
    var processed := ProcessAll(OutputsFetched(s, d, output, w.safe), d, games, w, []);
    match processed.1
    case Died => (processed.0, None)
    case GaveUp => (processed.0, Some(false))
    case Left(ahead) =>
      var t := processed.0;
      var resolved := ResolveAll(t.(cursor := LoadDelayed(t.cursor, ahead)), d, w);
      (resolved.0, Some(resolved.1))
  }

  lemma ResolveAllStep(s: State, d: Deployment, w: World, index: nat)
    requires Forward(s) && s.cursor.lastResolved in s.proposals && index in s.proposals && w.resolvedAt(index) != 0
    requires s.proposals[s.cursor.lastResolved].successor == Some(index)
    ensures ResolveAll(s, d, w) == ResolveAll(Prune(Resolve(s, index, w.resolvedAt(index)), d), d, w)
    ensures s.cursor.lastResolved < index < s.cursor.next
  {
    assert ForwardAt(s, s.cursor.lastResolved);
  }

  /** The last resolved proposal was resolved when it was found to be. */
  lemma {:induction false} ResolveAllSettled(s: State, d: Deployment, w: World)
    ensures w.resolvedAt(s.cursor.lastResolved) != 0 ==> w.resolvedAt(ResolveAll(s, d, w).0.cursor.lastResolved) != 0
    decreases s.cursor.next - s.cursor.lastResolved
  {
    var last := s.cursor.lastResolved;
    if last in s.proposals && s.proposals[last].successor.Some? {
      var index := s.proposals[last].successor.value;
      if index in s.proposals && w.resolvedAt(index) != 0 && last < index < s.cursor.next {
        ResolveAllSettled(Prune(Resolve(s, index, w.resolvedAt(index)), d), d, w);
      }
    }
  }

  function Verdict(s: State, ok: Option<bool>, first: nat, finalBlock: Option<nat>): SyncResult {
    if ok.None? then Crashed
    else if !ok.value || s.cursor.lastResolved !in s.proposals then Error
    else if finalBlock.Some? && s.proposals[s.cursor.lastResolved].height >= finalBlock.value then Finished
    else Synced(Tracked(s.proposals, first, s.cursor.next))
  }

  lemma AheadPassed(s: State, t: State, outcome: Outcome, w: World, ahead: seq<nat>)
    requires MovedFrom(Taken(s), t, outcome, w, NextIndex(s.cursor).0)
    requires Passed(ahead, s.cursor.next) && Passed(s.cursor.delayed, s.cursor.next)
    ensures Passed(if Stops(outcome, w) then ahead else AheadAfter(s, outcome, ahead), t.cursor.next)
  {
  }

  lemma StillAheadMoved(s: State, t: State, outcome: Outcome, w: World, d: Deployment, games: nat -> Game)
    requires MovedFrom(Taken(s), t, outcome, w, NextIndex(s.cursor).0)
    ensures StillAhead(s, d, games) ==> StillAhead(t, d, games)
  {
    assert forall k :: 0 <= k < |t.cursor.delayed| ==>
        t.cursor.delayed[k] == s.cursor.delayed[if s.cursor.delayed == [] then k else k + 1];
  }

  lemma StillEmpty(start: State, s: State, d: Deployment, games: nat -> Game)
    requires Forward(s) && Evolves(start, s, games, d) && start.proposals == map[] && s.cursor.next == start.cursor.next
    ensures s.proposals == map[]
  {
    forall i: nat ensures i !in s.proposals {
      assert ForwardAt(s, i) && EvolvesAt(start, s, i);
    }
  }

  /** If nothing but the anchor was resolved when it is first met, a round over what still waits is lawful. */
  lemma UnresolvedRoundLawful(start: State, s: State, d: Deployment, games: nat -> Game, w: World, chain: seq<nat>)
    requires Inv(s, d, games, chain) && Forward(s) && Evolves(start, s, games, d)
    requires MetUnresolved(start, w) && StillAhead(s, d, games) && Passed(s.cursor.delayed, s.cursor.next)
    requires GoodGame(games, d, NextIndex(s.cursor).0)
    ensures RoundLawful(s, d, games, w, chain)
  {
    LoopStepForward(s, d, games, w);
    if s.cursor.delayed != [] {
      StillAheadWaits(s, d, games, w);
    } else if games(s.cursor.next).Ours? {
      var p := Incoming(games, w, s.cursor.next);
      if p.resolvedAt != 0 {
        StillEmpty(start, s, d, games);
      }
    }
  }

  /** What the loop over games keeps from its start on, lawfully and fairly or not; only games that were passed over are
      too far ahead, and none before the anchor is stored. */
  ghost predicate LoopKept(f: Factory, start: State, wasLawful: bool, wasFair: bool, w: World, ahead: seq<nat>,
                           s: State, chain: seq<nat>, lawful: bool)
  {
    && Passed(ahead, s.cursor.next) && (lawful && s.proposals == map[] ==> ahead == [])
    && s.cursor.next >= start.cursor.next && (StillAhead(start, f.d, f.games) ==> StillAhead(s, f.d, f.games))
    && (lawful ==> wasLawful && Evolves(start, s, f.games, f.d) && Anchored(s, f.games, w))
    && (wasLawful && MetUnresolved(start, w) && StillAhead(start, f.d, f.games) ==> lawful)
    && (wasFair && FairFrom(f, start, w) ==>
          lawful && FairRun(f, s, chain) && FairFrom(f, s, w) && Sidelined(f, ahead))
  }

  lemma LoopKeptNext(f: Factory, start: State, wasLawful: bool, wasFair: bool, w: World, ahead: seq<nat>,
                     s: State, chain: seq<nat>, lawful: bool, roundLawful: bool, t: State, outcome: Outcome)
    requires LoopKept(f, start, wasLawful, wasFair, w, ahead, s, chain, lawful)
    requires Passed(s.cursor.delayed, s.cursor.next)
    requires RoundResult(f, s, w, chain, lawful, roundLawful, t, outcome)
    requires lawful && MetUnresolved(start, w) && StillAhead(s, f.d, f.games) ==> roundLawful
    ensures LoopKept(f, start, wasLawful, wasFair, w, if Stops(outcome, w) then ahead else AheadAfter(s, outcome, ahead),
                     t, ChainStep(s, chain, t, outcome), lawful && roundLawful)
  {
    StillAheadMoved(s, t, outcome, w, f.d, f.games);
    AheadPassed(s, t, outcome, w, ahead);
    if lawful && roundLawful {
      EvolvesTransitive(start, s, t, f.games, f.d);
    }
  }

  /** A round keeps all of it. */
  lemma RoundOutcome(f: Factory, start: State, wasLawful: bool, wasFair: bool, w: World, ahead: seq<nat>,
                     s: State, chain: seq<nat>, lawful: bool, t: State, outcome: Outcome)
    returns (stays: bool)
    requires LoopKept(f, start, wasLawful, wasFair, w, ahead, s, chain, lawful)
    requires GoodGames(f.games, f.d) && Forward(s) && Passed(s.cursor.delayed, s.cursor.next)
    requires TrueOutputs(s.outputs, f.output) && GoodGame(f.games, f.d, NextIndex(s.cursor).0)
    requires lawful ==> Lawful(s, f.d, f.games, chain)
    requires HasNext(s.cursor, w.gameCount)
    requires (t, outcome) == LoopStep(s, f.d, f.games, w)
    ensures stays ==> lawful
    ensures LoopKept(f, start, wasLawful, wasFair, w, if Stops(outcome, w) then ahead else AheadAfter(s, outcome, ahead),
                     t, ChainStep(s, chain, t, outcome), stays)
    ensures Forward(t) && Passed(t.cursor.delayed, t.cursor.next) && t.outputs == s.outputs
    ensures stays ==> Lawful(t, f.d, f.games, ChainStep(s, chain, t, outcome)) && outcome != Panicked && outcome != Aborted
  {
    var roundLawful := RoundLawful(s, f.d, f.games, w, chain);
    RoundResults(f, s, w, chain, lawful, roundLawful, (t, outcome));
    if lawful && MetUnresolved(start, w) && StillAhead(s, f.d, f.games) {
      UnresolvedRoundLawful(start, s, f.d, f.games, w, chain);
    }
    LoopKeptNext(f, start, wasLawful, wasFair, w, ahead, s, chain, lawful, roundLawful, t, outcome);
    stays := lawful && roundLawful;
  }

  /** Fetching outputs changes nothing else. */
  lemma FetchEvolves(
      s: State, d: Deployment, games: nat -> Game, chain: seq<nat>, output: nat -> B256, safe: nat, lawful: bool)
    requires Forward(s) && TrueOutputs(s.outputs, output) && d.span > 0 && (lawful ==> Inv(s, d, games, chain))
    ensures var t := OutputsFetched(s, d, output, safe);
            Forward(t) && TrueOutputs(t.outputs, output) && Evolves(s, t, games, d) && (lawful ==> Inv(t, d, games, chain))
  {
    var t := OutputsFetched(s, d, output, safe);
    var end := Min(safe, s.cursor.lastOutput + BlocksPerProposal(d));
    LearnedIs(s.outputs, output, Grid(s.cursor.lastOutput, end, d.span));
    var u := s.(outputs := t.outputs);
    forall i: nat ensures ForwardAt(u, i) && EvolvesAt(s, u, i) {
      assert ForwardAt(s, i);
    }
    forall a: Address ensures EliminationKept(s, u, a) {
    }
    SameCursorEvolves(s, u, games, d);
    if lawful {
      forall i: nat ensures EntryAt(u, games, i) && Aside(u, chain, i) {
        assert EntryAt(s, games, i) && Aside(s, chain, i);
      }
    }
    CursorChange(u, t.cursor, d, games, chain, lawful);
    EvolvesTransitive(s, u, t, games, d);
  }
}
