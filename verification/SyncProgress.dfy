/** That a synchronization learns the outputs it needs, and passes the games it can judge (crates/sync/src/agent.rs). */
module SyncProgress {
  import opened Common
  import opened Blobs
  import opened Proposals
  import opened SyncState
  import opened SyncHistory
  import opened SyncOutputs
  import opened SyncWinners
  import opened SyncRounds

  // ---------------------------------------------------------------------------------------------
  // Fetching
  // ---------------------------------------------------------------------------------------------

  /** The k-th output block from a base on. */
  function Point(base: nat, span: nat, k: nat): nat {
    base + k * span
  }

  ghost predicate OnGrid(base: nat, span: nat, b: nat) {
    exists k: nat :: Point(base, span, k) == b
  }

  lemma GridStep(base: nat, span: nat, b: nat, k: nat)
    requires OnGrid(base, span, b)
    ensures OnGrid(base, span, b + k * span)
  {
    var j: nat :| Point(base, span, j) == b;
    assert Point(base, span, j + k) == b + k * span;
  }

  /** The points of the grid from another point of it on. */
  lemma GridFrom(base: nat, span: nat, a: nat, b: nat) returns (k: nat)
    requires span > 0 && OnGrid(base, span, a) && OnGrid(base, span, b) && a <= b
    ensures b == a + k * span
  {
    var i: nat :| Point(base, span, i) == a;
    var j: nat :| Point(base, span, j) == b;
    if j < i {
      Scaled(j + 1, i, span);
    }
    k := j - i;
    assert i * span + k * span == j * span;
  }

  /** How far a synchronization fetches, and where that leaves the last known output. */
  function FetchEnd(d: Deployment, last: nat, safe: nat): nat {
    Min(safe, last + BlocksPerProposal(d))
  }

  /** Nothing moves unless the outputs lag by more than a span; then the last known one is the last before the end. */
  ghost predicate LastOutputMoved(d: Deployment, last: nat, safe: nat, later: nat) {
    if last + d.span < FetchEnd(d, last, safe) then
      OnGrid(last, d.span, later) && later <= FetchEnd(d, last, safe) < later + d.span
    else later == last
  }

  lemma GridEarlier(start: nat, step: nat, b: nat)
    requires OnGrid(start + step, step, b)
    ensures OnGrid(start, step, b)
  {
    var k: nat :| Point(start + step, step, k) == b;
    assert Point(start, step, k + 1) == b;
  }

  lemma LatestFirst(last: nat, start: nat, rest: seq<nat>)
    requires last <= start
    ensures Latest(last, [start] + rest) == Latest(start, rest)
  {
    LatestConcat(last, [start], rest);
    assert [start][..0] == [];
  }

  lemma {:induction false} LatestOfGrid(last: nat, start: nat, end: nat, step: nat)
    requires step > 0 && start <= end && last <= start
    ensures var later := Latest(last, Grid(start, end, step));
            OnGrid(start, step, later) && later <= end < later + step
    decreases end - start
  {
    LatestFirst(last, start, Grid(start + step, end, step));
    if start + step <= end {
      LatestOfGrid(start, start + step, end, step);
      GridEarlier(start, step, Latest(start, Grid(start + step, end, step)));
    } else {
      assert Point(start, step, 0) == start;
    }
  }

  /** What fetching leaves behind: nothing is lost, and if the outputs lag all of the range are known. */
  lemma FetchLearns(s: State, d: Deployment, output: nat -> B256, safe: nat)
    requires d.span > 0 && TrueOutputs(s.outputs, output)
    ensures var t := OutputsFetched(s, d, output, safe);
            && LastOutputMoved(d, s.cursor.lastOutput, safe, t.cursor.lastOutput) && TrueOutputs(t.outputs, output)
            && (forall b :: b in s.outputs ==> b in t.outputs)
            && (s.cursor.lastOutput < t.cursor.lastOutput ==>
                  forall k: nat {:trigger Point(s.cursor.lastOutput, d.span, k)} ::
                    Point(s.cursor.lastOutput, d.span, k) <= t.cursor.lastOutput ==>
                      Point(s.cursor.lastOutput, d.span, k) in t.outputs)
  {
    var last, end := s.cursor.lastOutput, FetchEnd(d, s.cursor.lastOutput, safe);
    if last + d.span < end {
      LatestOfGrid(last, last, end, d.span);
      LearnedIs(s.outputs, output, Grid(last, end, d.span));
      forall k: nat | Point(last, d.span, k) <= end ensures Point(last, d.span, k) in OutputsFetched(s, d, output, safe).outputs {
        FetchCovers(s.outputs, output, last, end, d.span, k);
      }
    }
  }

  /** Outputs are ever fetched exactly if a proposal has more than one: a single one never lags by more than a span. */
  lemma FetchesIff(s: State, d: Deployment, output: nat -> B256)
    requires d.span > 0
    ensures (exists safe: nat :: OutputsFetched(s, d, output, safe).cursor.lastOutput > s.cursor.lastOutput)
       <==> d.outputCount > 1
  {
    var last := s.cursor.lastOutput;
    if d.outputCount > 1 {
      Scaled(2, d.outputCount, d.span);
      var safe := last + 2 * d.span;
      LatestOfGrid(last, last, FetchEnd(d, last, safe), d.span);
      assert OutputsFetched(s, d, output, safe).cursor.lastOutput > last;
    } else {
      Scaled(d.outputCount, 1, d.span);
    }
  }

  // ---------------------------------------------------------------------------------------------
  // What the agent knows
  // ---------------------------------------------------------------------------------------------

  /** The block before the first output that the agent needs: the treasury's own, or that of the anchor's parent. */
  ghost predicate BasedOn(f: Factory, base: nat) {
    f.games(f.anchor).Ours? &&
    var p := f.games(f.anchor).proposal;
    if p.parent == f.anchor then p.height == base else p.height == base + BlocksPerProposal(f.d)
  }

  /** The block is not so old that its output may have been freed. */
  predicate Recent(s: State, d: Deployment, chain: seq<nat>, b: nat) {
    chain == [] || (chain[0] in s.proposals && s.proposals[chain[0]].height < b + BlocksPerProposal(d))
  }

  ghost predicate KnowsAt(s: State, d: Deployment, chain: seq<nat>, base: nat, b: nat) {
    OnGrid(base, d.span, b) && base < b <= s.cursor.lastOutput && Recent(s, d, chain, b) ==> b in s.outputs
  }

  ghost predicate HeightOnGrid(s: State, d: Deployment, base: nat, i: nat) {
    i in s.proposals && OnGrid(base, d.span, s.proposals[i].height)
  }

  /** All outputs up to the last one are known, but for those that are not recent, and proposals end on outputs. */
  ghost predicate Knows(s: State, d: Deployment, chain: seq<nat>, base: nat) {
    && OnGrid(base, d.span, s.cursor.lastOutput)
    && (forall b: nat :: KnowsAt(s, d, chain, base, b))
    && (forall k :: 0 <= k < |chain| ==> HeightOnGrid(s, d, base, chain[k]))
  }

  lemma FetchKnows(s: State, d: Deployment, output: nat -> B256, safe: nat, chain: seq<nat>, base: nat)
    requires d.span > 0 && TrueOutputs(s.outputs, output) && Knows(s, d, chain, base)
    ensures Knows(OutputsFetched(s, d, output, safe), d, chain, base)
  {
    var t := OutputsFetched(s, d, output, safe);
    FetchLearns(s, d, output, safe);
    MovedOnGrid(base, d.span, s.cursor.lastOutput, t.cursor.lastOutput, d, safe);
    forall b: nat ensures KnowsAt(t, d, chain, base, b) {
      assert KnowsAt(s, d, chain, base, b);
      if OnGrid(base, d.span, b) && s.cursor.lastOutput < b <= t.cursor.lastOutput {
        var k := GridFrom(base, d.span, s.cursor.lastOutput, b);
        assert Point(s.cursor.lastOutput, d.span, k) == b;
      }
    }
    forall k | 0 <= k < |chain| ensures HeightOnGrid(t, d, base, chain[k]) {
      assert HeightOnGrid(s, d, base, chain[k]);
    }
  }

  lemma MovedOnGrid(base: nat, span: nat, last: nat, later: nat, d: Deployment, safe: nat)
    requires span == d.span && OnGrid(base, span, last) && LastOutputMoved(d, last, safe, later)
    ensures OnGrid(base, span, later)
  {
    if OnGrid(last, span, later) {
      var k: nat :| Point(last, span, k) == later;
      GridStep(base, span, last, k);
    }
  }

  /** What does not touch the outputs, and at most appends to the chain, leaves the agent knowing what it knew. */
  lemma AppendedKnows(s: State, t: State, d: Deployment, chain: seq<nat>, longer: seq<nat>, base: nat)
    requires Knows(s, d, chain, base)
    requires t.outputs == s.outputs && t.cursor.lastOutput == s.cursor.lastOutput
    requires chain <= longer && |longer| <= |chain| + 1
    requires forall i :: i in chain && i in s.proposals ==> i in t.proposals && t.proposals[i].height == s.proposals[i].height
    requires |longer| > |chain| ==> HeightOnGrid(t, d, base, longer[|chain|])
    ensures Knows(t, d, longer, base)
  {
    forall b: nat ensures KnowsAt(t, d, longer, base, b) {
      assert KnowsAt(s, d, chain, base, b);
      assert chain != [] ==> HeightOnGrid(s, d, base, chain[0]) && longer[0] == chain[0];
    }
    forall k | 0 <= k < |longer| ensures HeightOnGrid(t, d, base, longer[k]) {
      if k < |chain| {
        assert HeightOnGrid(s, d, base, chain[k]);
      }
    }
  }

  /** Resolving and pruning frees only outputs that are not recent any more. */
  lemma PrunedKnows(s: State, d: Deployment, games: nat -> Game, chain: seq<nat>, base: nat, index: nat, resolvedAt: nat)
    requires Inv(s, d, games, chain) && d.span > 0 && Knows(s, d, chain, base) && index in chain && index in s.proposals
    ensures Knows(Prune(Resolve(s, index, resolvedAt), d), d, chain[PositionOf(chain, index)..], base)
  {
    var k := PositionOf(chain, index);
    var t, rest := Prune(Resolve(s, index, resolvedAt), d), chain[k..];
    assert rest[0] == index;
    forall b: nat ensures KnowsAt(t, d, rest, base, b) {
      assert KnowsAt(s, d, chain, base, b);
      PrunedOutput(s, d, index, resolvedAt, b);
      if s.proposals[index].height < b + BlocksPerProposal(d) {
        RecentBefore(s, d, chain, k, b);
      }
    }
    forall j | 0 <= j < |rest| ensures HeightOnGrid(t, d, base, rest[j]) {
      assert HeightOnGrid(s, d, base, chain[k + j]);
      ChainCut(s.proposals, d, chain, k + j, k);
      PrunedProposal(s, d, index, resolvedAt, chain[k + j]);
    }
    PrunedProposal(s, d, index, resolvedAt, index);
  }

  lemma PrunedOutput(s: State, d: Deployment, index: nat, resolvedAt: nat, b: nat)
    requires index in s.proposals && d.span > 0
    ensures b in s.outputs && s.proposals[index].height < b + BlocksPerProposal(d) ==>
              b in Prune(Resolve(s, index, resolvedAt), d).outputs
  {
    var u := Resolve(s, index, resolvedAt);
    FreeKeeps(u.outputs, EarliestOutput(d, u.proposals[index]), d.span, 1);
  }

  lemma PrunedProposal(s: State, d: Deployment, index: nat, resolvedAt: nat, i: nat)
    requires index in s.proposals && i in s.proposals && i >= index
    ensures var t := Prune(Resolve(s, index, resolvedAt), d);
            && i in t.proposals && t.proposals[i].height == s.proposals[i].height
            && t.cursor.lastOutput == s.cursor.lastOutput
  {
  }

  lemma RecentBefore(s: State, d: Deployment, chain: seq<nat>, k: nat, b: nat)
    requires ChainOf(s.proposals, d, chain) && k < |chain|
    requires chain[k] in s.proposals && s.proposals[chain[k]].height < b + BlocksPerProposal(d)
    ensures Recent(s, d, chain, b)
  {
    ChainAt(s.proposals, d, chain, 0);
    if k > 0 {
      ChainRises(s.proposals, d, chain, 0, k);
    }
  }

  // ---------------------------------------------------------------------------------------------
  // One round
  // ---------------------------------------------------------------------------------------------

  /** The game loads, and the local outputs reach up to it. */
  predicate Reached(last: nat, games: nat -> Game, w: World, i: nat) {
    match games(i)
    case OtherType => true
    case Foreign => w.loads(i)
    case Ours(p) => w.loads(i) && p.height <= last
  }

  /** Its blobs hold all outputs of the game, the claimed one aside. */
  predicate Whole(games: nat -> Game, d: Deployment, i: nat) {
    games(i).Ours? ==> |games(i).proposal.io| == |games(i).proposal.correctIo| < d.outputCount
  }

  /** The outputs from a recent point on, up to a proposal's blocks further, are known. */
  lemma PointsKnown(s: State, d: Deployment, chain: seq<nat>, base: nat, a: nat, k: nat)
    requires Knows(s, d, chain, base) && d.span > 0 && 0 < k <= d.outputCount && OnGrid(base, d.span, a) && base <= a
    requires a + BlocksPerProposal(d) <= s.cursor.lastOutput && Recent(s, d, chain, a + 1)
    ensures a + k * d.span in s.outputs
  {
    Scaled(1, k, d.span);
    Scaled(k, d.outputCount, d.span);
    GridStep(base, d.span, a, k);
    assert KnowsAt(s, d, chain, base, a + k * d.span);
  }

  lemma GridAbove(base: nat, span: nat, b: nat)
    requires OnGrid(base, span, b)
    ensures base <= b
  {
    var k: nat :| Point(base, span, k) == b;
    Scaled(0, k, span);
  }

  lemma OutputsThere(s: State, d: Deployment, chain: seq<nat>, base: nat, p: Proposal, a: nat)
    requires Knows(s, d, chain, base) && d.span > 0 && OnGrid(base, d.span, a) && Recent(s, d, chain, a + 1)
    requires p.height == a + BlocksPerProposal(d) <= s.cursor.lastOutput && |p.io| < d.outputCount
    ensures Fetched(s.outputs, d, p)
  {
    GridAbove(base, d.span, a);
    PointsKnown(s, d, chain, base, a, d.outputCount);
    assert StartOf(d, p) == a;
    forall i | 0 <= i < |p.io| ensures IoBlock(d, p, i) in s.outputs {
      PointsKnown(s, d, chain, base, a, i + 1);
    }
  }

  /** A game next to be judged starts where its parent ends, on the grid and recently. */
  lemma StartsRecently(f: Factory, s: State, chain: seq<nat>, base: nat, p: Proposal) returns (a: nat)
    requires Inv(s, f.d, f.games, chain) && GoodGames(f.games, f.d) && Knows(s, f.d, chain, base) && BasedOn(f, base)
    requires NextGame(s, f.games, p) && HasParent(p)
    requires if s.proposals == map[] then s.cursor.next == f.anchor else p.parent in chain
    ensures OnGrid(base, f.d.span, a) && Recent(s, f.d, chain, a + 1) && p.height == a + BlocksPerProposal(f.d)
  {
    assert GoodGame(f.games, f.d, s.cursor.next);
    if s.proposals == map[] {
      a := base;
      assert Point(base, f.d.span, 0) == base;
    } else {
      var k := PositionOf(chain, p.parent);
      assert HeightOnGrid(s, f.d, base, chain[k]) && EntryAt(s, f.games, p.parent);
      a := s.proposals[p.parent].height;
      RecentBefore(s, f.d, chain, k, a + 1);
    }
  }

  lemma AssessmentJudges(outputs: map<nat, B256>, d: Deployment, parent: Option<Proposal>, p: Proposal)
    requires Loadable(p) && HasParent(p) && ParentVerdict(parent, p).Some? && Fetched(outputs, d, p)
    requires |p.io| == |p.correctIo| && forall i :: 0 <= i < |p.correctIo| ==> p.correctIo[i].None?
    ensures Assess(outputs, d, parent, p).Judged?
  {
    AssessmentBailsIff(outputs, d, parent, p);
  }

  /** A ready game that takes part is judged and stored. */
  lemma ReadyStored(f: Factory, s: State, chain: seq<nat>, base: nat, p: Proposal)
    requires Inv(s, f.d, f.games, chain) && GoodGames(f.games, f.d) && Knows(s, f.d, chain, base) && BasedOn(f, base)
    requires NextGame(s, f.games, p) && Loadable(p) && p.height <= s.cursor.lastOutput && |p.io| == |p.correctIo| < f.d.outputCount
    requires if s.proposals == map[] then s.cursor.next == f.anchor else p.parent in chain && p.parent in s.proposals
    ensures AssessAndStore(s, f.d, p).1 == Success
  {
    assert GoodGame(f.games, f.d, s.cursor.next) && EntryAt(s, f.games, p.parent);
    if HasParent(p) {
      var a := StartsRecently(f, s, chain, base, p);
      OutputsThere(s, f.d, chain, base, p, a);
      AssessmentJudges(s.outputs, f.d, ParentOf(s, p), p);
    }
    JudgedIsSameGame(s.outputs, f.d, ParentOf(s, p), p);
  }

  /** A new game that is reached does not stop the loop. */
  lemma NextPasses(f: Factory, s: State, chain: seq<nat>, base: nat, w: World)
    requires Inv(s, f.d, f.games, chain) && GoodGames(f.games, f.d) && Forward(s) && s.cursor.delayed == []
    requires GoodGame(f.games, f.d, s.cursor.next) && (s.proposals == map[] ==> s.cursor.next == f.anchor)
    requires Anchored(s, f.games, w) && NextExtends(s, f.games, w, chain) && Knows(s, f.d, chain, base) && BasedOn(f, base)
    requires Reached(s.cursor.lastOutput, f.games, w, s.cursor.next) && Whole(f.games, f.d, s.cursor.next)
    ensures !Stops(LoopStep(s, f.d, f.games, w).1, w)
  {
    LoopStepKeeps(s, f.d, f.games, w, chain);
    if f.games(s.cursor.next).Ours? {
      LoadedPasses(f, s, chain, base, Incoming(f.games, w, s.cursor.next), w.round(f.games(s.cursor.next).proposal.proposer));
    }
  }

  lemma LoadedPasses(f: Factory, s: State, chain: seq<nat>, base: nat, p: Proposal, round: nat)
    requires Inv(s, f.d, f.games, chain) && GoodGames(f.games, f.d) && (s.proposals == map[] ==> s.cursor.next == f.anchor)
    requires NextGame(s, f.games, p) && Loadable(p) && Extends(s, chain, p) && Knows(s, f.d, chain, base) && BasedOn(f, base)
    requires p.height <= s.cursor.lastOutput && |p.io| == |p.correctIo| < f.d.outputCount
    ensures SyncLoaded(s, f.d, p, round).1 == Ignored || SyncLoaded(s, f.d, p, round).1 == Success
  {
    if s.proposals == map[] || p.parent in s.proposals {
      EliminationRecorded(s, f.d, f.games, chain, p, round);
      var t := RecordElimination(s, p.proposer, round);
      ParticipationKeeps(t, f.d, f.games, chain, p);
      var (u, decision) := Participate(t, f.d, p);
      if decision == Take {
        assert u.proposals == map[] <==> s.proposals == map[];
        TookPartKnows(s, u, f.d, chain, base, p);
        ReadyStored(f, u, chain, base, p);
      }
    }
  }

  lemma TookPartKnows(s: State, u: State, d: Deployment, chain: seq<nat>, base: nat, p: Proposal)
    requires Knows(s, d, chain, base) && u.outputs == s.outputs && u.cursor == s.cursor
    requires u.proposals == s.proposals || (p.parent in s.proposals && u.proposals == AppendChild(s, p.parent, p.index).proposals)
    ensures Knows(u, d, chain, base)
  {
    AppendedKnows(s, u, d, chain, chain, base);
  }

  /** A delayed game on the sidelines that is reached does not stop the loop either. */
  lemma QueuedPasses(f: Factory, s: State, chain: seq<nat>, w: World)
    requires Inv(s, f.d, f.games, chain) && Fair(f, s, chain) && FairFrom(f, s, w) && Forward(s) && s.proposals != map[]
    requires s.cursor.delayed != [] && s.cursor.delayed[0] < s.cursor.next && GoodGame(f.games, f.d, s.cursor.delayed[0])
    requires OnSideline(f, s.cursor.delayed[0]) && Reached(s.cursor.lastOutput, f.games, w, s.cursor.delayed[0])
    ensures !Stops(LoopStep(s, f.d, f.games, w).1, w)
  {
    DelayedStepIs(s, f.d, f.games, w);
    CursorFair(f, s, Taken(s), chain);
    CursorChange(s, Taken(s).cursor, f.d, f.games, chain, true);
    if f.games(s.cursor.delayed[0]).Ours? {
      SidelinedFair(f, Taken(s), chain, w, Incoming(f.games, w, s.cursor.delayed[0]));
    }
  }

  lemma AnchorOnGrid(f: Factory, base: nat)
    requires BasedOn(f, base)
    ensures OnGrid(base, f.d.span, f.games(f.anchor).proposal.height)
  {
    assert Point(base, f.d.span, 0) == base;
    GridStep(base, f.d.span, base, f.d.outputCount);
  }

  /** A round leaves the agent knowing what it knew, of its longer chain too. */
  lemma RoundKnows(f: Factory, s: State, chain: seq<nat>, t: State, longer: seq<nat>, base: nat)
    requires Inv(s, f.d, f.games, chain) && Inv(t, f.d, f.games, longer) && Evolves(s, t, f.games, f.d)
    requires s.proposals == map[] ==> s.cursor.next == f.anchor
    requires longer == chain || (|longer| == |chain| + 1 && chain <= longer)
    requires s.proposals == map[] && longer != chain ==> longer == [f.anchor]
    requires t.outputs == s.outputs && t.cursor.lastOutput == s.cursor.lastOutput
    requires Knows(s, f.d, chain, base) && BasedOn(f, base)
    ensures Knows(t, f.d, longer, base)
  {
    forall i | i in chain && i in s.proposals ensures i in t.proposals && t.proposals[i].height == s.proposals[i].height {
      ChainAt(t.proposals, f.d, longer, PositionOf(longer, i));
      assert EvolvesAt(s, t, i);
    }
    if |longer| > |chain| {
      LongerOnGrid(f, s, chain, t, longer, base);
    }
    AppendedKnows(s, t, f.d, chain, longer, base);
  }

  lemma LongerOnGrid(f: Factory, s: State, chain: seq<nat>, t: State, longer: seq<nat>, base: nat)
    requires Inv(t, f.d, f.games, longer) && Evolves(s, t, f.games, f.d)
    requires chain <= longer && |longer| == |chain| + 1 && (chain == [] ==> longer == [f.anchor])
    requires Knows(s, f.d, chain, base) && BasedOn(f, base)
    ensures HeightOnGrid(t, f.d, base, longer[|chain|])
  {
    var n := |chain|;
    ChainAt(t.proposals, f.d, longer, n);
    if n == 0 {
      AnchorOnGrid(f, base);
      assert EntryAt(t, f.games, f.anchor);
    } else {
      ChainAt(t.proposals, f.d, longer, n - 1);
      assert HeightOnGrid(s, f.d, base, chain[n - 1]) && EvolvesAt(s, t, chain[n - 1]);
      GridStep(base, f.d.span, s.proposals[chain[n - 1]].height, f.d.outputCount);
    }
  }

  // ---------------------------------------------------------------------------------------------
  // All rounds
  // ---------------------------------------------------------------------------------------------

  /** What every synchronization in a fair world keeps. */
  ghost predicate Steady(f: Factory, s: State, chain: seq<nat>) {
    && Lawful(s, f.d, f.games, chain) && FairRun(f, s, chain) && Forward(s) && Passed(s.cursor.delayed, s.cursor.next)
    && TrueOutputs(s.outputs, f.output) && GoodGames(f.games, f.d)
  }

  /** The agent knows what it needs to judge games in order, besides. */
  ghost predicate Informed(f: Factory, s: State, chain: seq<nat>, base: nat) {
    Steady(f, s, chain) && Knows(s, f.d, chain, base) && BasedOn(f, base)
  }

  /** What holds before each round of a loop in a fair world. */
  ghost predicate Going(f: Factory, start: State, w: World, ahead: seq<nat>, s: State, chain: seq<nat>) {
    LoopKept(f, start, true, true, w, ahead, s, chain, true) && FairFrom(f, start, w) && Steady(f, s, chain)
  }

  /** All games that wait and all new ones before the n-th are reached, and the new ones are whole. */
  ghost predicate AllReached(c: Cursor, last: nat, d: Deployment, games: nat -> Game, w: World, n: nat) {
    && (forall k :: 0 <= k < |c.delayed| ==> Reached(last, games, w, c.delayed[k]))
    && (forall i: nat :: c.next <= i < n ==> Reached(last, games, w, i) && Whole(games, d, i))
  }

  lemma ChainStepIs(f: Factory, s: State, chain: seq<nat>, t: State, outcome: Outcome)
    requires Inv(s, f.d, f.games, chain) && Inv(t, f.d, f.games, ChainStep(s, chain, t, outcome))
    requires s.proposals == map[] ==> s.cursor.next == f.anchor
    requires GoodGame(f.games, f.d, s.cursor.next)
    ensures var longer := ChainStep(s, chain, t, outcome);
            && (longer == chain || (|longer| == |chain| + 1 && chain <= longer))
            && (s.proposals == map[] && longer != chain ==> longer == [f.anchor])
  {
    assert EntryAt(t, f.games, s.cursor.next);
  }

  lemma GoingNext(f: Factory, start: State, w: World, ahead: seq<nat>, s: State, chain: seq<nat>)
    requires Going(f, start, w, ahead, s, chain)
    requires HasNext(s.cursor, w.gameCount) && GoodGame(f.games, f.d, NextIndex(s.cursor).0)
    ensures var (t, outcome) := LoopStep(s, f.d, f.games, w);
            && outcome != Panicked && outcome != Aborted
            && Going(f, start, w, if Stops(outcome, w) then ahead else AheadAfter(s, outcome, ahead), t,
                     ChainStep(s, chain, t, outcome))
  {
    var (t, outcome) := LoopStep(s, f.d, f.games, w);
    var stays := RoundOutcome(f, start, true, true, w, ahead, s, chain, true, t, outcome);
  }

  lemma StepKnows(f: Factory, s: State, w: World, chain: seq<nat>, base: nat)
    requires Steady(f, s, chain) && FairFrom(f, s, w) && Anchored(s, f.games, w) && Knows(s, f.d, chain, base) && BasedOn(f, base)
    requires HasNext(s.cursor, w.gameCount) && GoodGame(f.games, f.d, NextIndex(s.cursor).0) && GoodGame(f.games, f.d, s.cursor.next)
    ensures var (t, outcome) := LoopStep(s, f.d, f.games, w);
            && t.outputs == s.outputs && t.cursor.lastOutput == s.cursor.lastOutput && Onward(s.cursor, w, t.cursor)
            && Knows(t, f.d, ChainStep(s, chain, t, outcome), base)
  {
    RoundFair(f, s, w, chain);
    var (t, outcome) := LoopStep(s, f.d, f.games, w);
    LoopStepSafe(s, f.d, f.games, w, chain, true);
    ChainStepIs(f, s, chain, t, outcome);
    RoundKnows(f, s, chain, t, ChainStep(s, chain, t, outcome), base);
  }

  lemma ReachedPasses(f: Factory, s: State, w: World, chain: seq<nat>, base: nat, n: nat)
    requires Steady(f, s, chain) && FairFrom(f, s, w) && Anchored(s, f.games, w) && Knows(s, f.d, chain, base) && BasedOn(f, base)
    requires AllReached(s.cursor, s.cursor.lastOutput, f.d, f.games, w, n) && s.cursor.next < n <= w.gameCount
    requires GoodGame(f.games, f.d, NextIndex(s.cursor).0)
    ensures !Stops(LoopStep(s, f.d, f.games, w).1, w)
  {
    if s.cursor.delayed == [] {
      RoundFair(f, s, w, chain);
      NextPasses(f, s, chain, base, w);
    } else {
      QueuedPasses(f, s, chain, w);
    }
  }

  lemma ReachedStay(s: State, t: State, d: Deployment, games: nat -> Game, w: World, n: nat, outcome: Outcome)
    requires AllReached(s.cursor, s.cursor.lastOutput, d, games, w, n)
    requires MovedFrom(Taken(s), t, outcome, w, NextIndex(s.cursor).0)
    ensures AllReached(t.cursor, t.cursor.lastOutput, d, games, w, n)
  {
    var last := t.cursor.lastOutput;
    forall k | 0 <= k < |t.cursor.delayed| ensures Reached(last, games, w, t.cursor.delayed[k]) {
      var j := if s.cursor.delayed == [] then k else k + 1;
      assert t.cursor.delayed[k] == s.cursor.delayed[j] && Reached(last, games, w, s.cursor.delayed[j]);
    }
    forall i: nat | t.cursor.next <= i < n ensures Reached(last, games, w, i) && Whole(games, d, i) {
    }
  }

  /** The next index rises, as far as there are games. */
  predicate Onward(c: Cursor, w: World, later: Cursor) {
    c.next <= later.next && (later.next <= c.next || later.next <= w.gameCount)
  }

  /** What the loop over games leaves behind: nothing is forgotten, and every new game that is reached is passed. */
  ghost predicate Passes(f: Factory, s: State, w: World, t: State, end: LoopEnd, chain: seq<nat>, base: nat, start: State) {
    && end.Left? && Going(f, start, w, end.ahead, t, chain) && Knows(t, f.d, chain, base)
    && t.outputs == s.outputs && t.cursor.lastOutput == s.cursor.lastOutput && Onward(s.cursor, w, t.cursor)
    && forall n: nat :: n <= w.gameCount && AllReached(s.cursor, s.cursor.lastOutput, f.d, f.games, w, n) ==> t.cursor.next >= n
  }

  lemma {:induction false} LoopPasses(f: Factory, start: State, w: World, ahead: seq<nat>, s: State, chain: seq<nat>, base: nat)
    returns (longer: seq<nat>)
    requires Going(f, start, w, ahead, s, chain) && Knows(s, f.d, chain, base) && BasedOn(f, base)
    ensures var r := ProcessAll(s, f.d, f.games, w, ahead);
            Passes(f, s, w, r.0, r.1, longer, base, start)
    decreases Remaining(s.cursor, w.gameCount)
  {
    longer := chain;
    if HasNext(s.cursor, w.gameCount) {
      assert GoodGame(f.games, f.d, NextIndex(s.cursor).0) && GoodGame(f.games, f.d, s.cursor.next);
      var (t, outcome) := LoopStep(s, f.d, f.games, w);
      ProcessAllStep(s, f.d, f.games, w, ahead);
      GoingNext(f, start, w, ahead, s, chain);
      StepKnows(f, s, w, chain, base);
      LoopStepForward(s, f.d, f.games, w);
      longer := ChainStep(s, chain, t, outcome);
      if !Stops(outcome, w) {
        RoundShrinks(s, f.d, f.games, w);
        longer := LoopPasses(f, start, w, AheadAfter(s, outcome, ahead), t, longer, base);
      }
      forall n: nat | n <= w.gameCount && AllReached(s.cursor, s.cursor.lastOutput, f.d, f.games, w, n)
        ensures ProcessAll(s, f.d, f.games, w, ahead).0.cursor.next >= n
      {
        if s.cursor.next < n {
          ReachedPasses(f, s, w, chain, base, n);
          ReachedStay(s, t, f.d, f.games, w, n, outcome);
        }
      }
    }
  }

  /** Resolving forgets nothing recent, and goes on until a successor is not resolved. */
  lemma {:induction false} ResolveAllKnows(f: Factory, s: State, w: World, chain: seq<nat>, base: nat) returns (rest: seq<nat>)
    requires Informed(f, s, chain, base)
    ensures var (t, ok) := ResolveAll(s, f.d, w);
            && Informed(f, t, rest, base) && t.cursor.next == s.cursor.next && t.cursor.lastOutput == s.cursor.lastOutput
            && ok == (t.proposals != map[]) && (ok ==> ResolvedThrough(t, w))
    decreases s.cursor.next - s.cursor.lastResolved
  {
    rest := chain;
    LastResolvedTracked(s, f.d, f.games, chain);
    if s.proposals != map[] && s.proposals[s.cursor.lastResolved].successor.Some? {
      var index := s.proposals[s.cursor.lastResolved].successor.value;
      SuccessorPresent(s, f.d, f.games, chain, s.cursor.lastResolved);
      if w.resolvedAt(index) != 0 {
        ResolveAllStep(s, f.d, w, index);
        ResolutionResults(f, s, chain, true, index, w.resolvedAt(index));
        PrunedKnows(s, f.d, f.games, chain, base, index, w.resolvedAt(index));
        rest := ResolveAllKnows(f, Prune(Resolve(s, index, w.resolvedAt(index)), f.d), w, chain[PositionOf(chain, index)..], base);
      }
    }
  }

  /** The last resolved proposal is tracked, and its successor, if there is one, is not resolved. */
  predicate ResolvedThrough(s: State, w: World) {
    s.cursor.lastResolved in s.proposals &&
    (s.proposals[s.cursor.lastResolved].successor.Some? ==> w.resolvedAt(s.proposals[s.cursor.lastResolved].successor.value) == 0)
  }

  /** The outputs are extended as far as they lag, and all games that are reached with them are passed. */
  ghost predicate Caught(f: Factory, c: Cursor, w: World, later: Cursor) {
    LastOutputMoved(f.d, c.lastOutput, w.safe, later.lastOutput) && Onward(c, w, later) && AllPassed(f, c, w, later)
  }

  /** All games that are reached are passed. */
  ghost predicate AllPassed(f: Factory, c: Cursor, w: World, later: Cursor) {
    forall n: nat :: n <= w.gameCount && AllReached(c, later.lastOutput, f.d, f.games, w, n) ==> later.next >= n
  }

  /** The block lies less than a proposal's blocks before the last resolved proposal, or behind it. */
  predicate Needed(t: State, d: Deployment, b: nat) {
    t.cursor.lastResolved in t.proposals ==> t.proposals[t.cursor.lastResolved].height < b + BlocksPerProposal(d)
  }

  /** Of the outputs that follow the last known one before, up to the last known one now, all that are needed are known. */
  ghost predicate RangeKnown(d: Deployment, last: nat, t: State) {
    forall k: nat {:trigger Point(last, d.span, k)} ::
      0 < k && Point(last, d.span, k) <= t.cursor.lastOutput && Needed(t, d, Point(last, d.span, k)) ==>
        Point(last, d.span, k) in t.outputs
  }

  lemma RangeIsKnown(f: Factory, last: nat, t: State, chain: seq<nat>, base: nat)
    requires Informed(f, t, chain, base) && OnGrid(base, f.d.span, last)
    ensures RangeKnown(f.d, last, t)
  {
    forall k: nat | 0 < k && Point(last, f.d.span, k) <= t.cursor.lastOutput && Needed(t, f.d, Point(last, f.d.span, k))
      ensures Point(last, f.d.span, k) in t.outputs
    {
      GridAbove(base, f.d.span, last);
      Scaled(1, k, f.d.span);
      GridStep(base, f.d.span, last, k);
      assert KnowsAt(t, f.d, chain, base, Point(last, f.d.span, k));
      if chain != [] {
        ChainAt(t.proposals, f.d, chain, PositionOf(chain, t.cursor.lastResolved));
        RecentBefore(t, f.d, chain, PositionOf(chain, t.cursor.lastResolved), Point(last, f.d.span, k));
      }
    }
  }

  /** What a synchronization in a fair world achieves: the outputs that it extends are known as far as they are needed,
      and what is resolved along the chain is found. */
  ghost predicate Achieves(f: Factory, s: State, w: World, t: State) {
    && Caught(f, s.cursor, w, t.cursor) && (t.proposals != map[] ==> ResolvedThrough(t, w))
    && RangeKnown(f.d, s.cursor.lastOutput, t)
  }

  lemma FetchInformed(f: Factory, s: State, w: World, chain: seq<nat>, base: nat)
    requires Informed(f, s, chain, base)
    ensures Informed(f, OutputsFetched(s, f.d, f.output, w.safe), chain, base)
  {
    var t := OutputsFetched(s, f.d, f.output, w.safe);
    FetchEvolves(s, f.d, f.games, chain, f.output, w.safe, true);
    CursorFair(f, s, t, chain);
    FetchKnows(s, f.d, f.output, w.safe, chain, base);
  }

  lemma LoadInformed(f: Factory, s: State, ahead: seq<nat>, chain: seq<nat>, base: nat)
    requires Informed(f, s, chain, base) && Sidelined(f, ahead) && Passed(ahead, s.cursor.next)
    requires s.proposals == map[] ==> ahead == []
    ensures Informed(f, s.(cursor := LoadDelayed(s.cursor, ahead)), chain, base)
  {
    var t := s.(cursor := LoadDelayed(s.cursor, ahead));
    CursorChange(s, t.cursor, f.d, f.games, chain, true);
    CursorFair(f, s, t, chain);
    AppendedKnows(s, t, f.d, chain, chain, base);
  }

  lemma StartGoing(f: Factory, s: State, w: World, chain: seq<nat>)
    requires Steady(f, s, chain) && FairFrom(f, s, w) && Anchored(s, f.games, w)
    ensures Going(f, s, w, [], s, chain)
  {
    Unchanged(s, f.games, f.d);
  }

  lemma FetchMoves(s: State, d: Deployment, output: nat -> B256, safe: nat)
    requires d.span > 0
    ensures var t := OutputsFetched(s, d, output, safe);
            && LastOutputMoved(d, s.cursor.lastOutput, safe, t.cursor.lastOutput)
            && t.cursor == s.cursor.(lastOutput := t.cursor.lastOutput)
  {
    var last, end := s.cursor.lastOutput, FetchEnd(d, s.cursor.lastOutput, safe);
    if last + d.span < end {
      LatestOfGrid(last, last, end, d.span);
    }
  }

  /** The state after all rounds over games, with what was delayed kept. */
  ghost function AfterGames(s: State, d: Deployment, games: nat -> Game, w: World): Option<State>
    requires GoodGames(games, d)
  {
    var (t, end) := ProcessAll(s, d, games, w, []);
    if end.Left? then Some(t.(cursor := LoadDelayed(t.cursor, end.ahead))) else None
  }

  lemma GamesAchieve(f: Factory, s: State, w: World, chain: seq<nat>, base: nat) returns (longer: seq<nat>)
    requires Informed(f, s, chain, base) && FairFrom(f, s, w) && Anchored(s, f.games, w)
    ensures var t := AfterGames(s, f.d, f.games, w);
            && t.Some? && Informed(f, t.value, longer, base)
            && t.value.cursor.lastOutput == s.cursor.lastOutput && Onward(s.cursor, w, t.value.cursor)
            && AllPassed(f, s.cursor, w, t.value.cursor)
  {
    StartGoing(f, s, w, chain);
    longer := LoopPasses(f, s, w, [], s, chain, base);
    var r := ProcessAll(s, f.d, f.games, w, []);
    LoadInformed(f, r.0, r.1.ahead, longer, base);
  }

  lemma FetchedStays(f: Factory, s: State, w: World)
    requires FairFrom(f, s, w) && Anchored(s, f.games, w) && f.d.span > 0
    ensures var t := OutputsFetched(s, f.d, f.output, w.safe);
            FairFrom(f, t, w) && Anchored(t, f.games, w)
  {
    FetchMoves(s, f.d, f.output, w.safe);
  }

  lemma StagesAre(s: State, d: Deployment, games: nat -> Game, output: nat -> B256, w: World, t: State)
    requires GoodGames(games, d) && AfterGames(OutputsFetched(s, d, output, w.safe), d, games, w) == Some(t)
    ensures Stages(s, d, games, output, w) == (ResolveAll(t, d, w).0, Some(ResolveAll(t, d, w).1))
  {
  }

  lemma PassedLikewise(f: Factory, c: Cursor, fetched: Cursor, w: World, later: Cursor)
    requires AllPassed(f, fetched, w, later) && fetched == c.(lastOutput := fetched.lastOutput)
    ensures AllPassed(f, c, w, later)
  {
    forall n: nat | n <= w.gameCount && AllReached(c, later.lastOutput, f.d, f.games, w, n) ensures later.next >= n {
      assert AllReached(fetched, later.lastOutput, f.d, f.games, w, n);
    }
  }

  lemma GamesStage(f: Factory, s: State, w: World, chain: seq<nat>, base: nat) returns (t: State, longer: seq<nat>)
    requires Informed(f, s, chain, base) && FairFrom(f, s, w) && Anchored(s, f.games, w)
    ensures AfterGames(OutputsFetched(s, f.d, f.output, w.safe), f.d, f.games, w) == Some(t)
    ensures Informed(f, t, longer, base) && Caught(f, s.cursor, w, t.cursor)
  {
    var fetched := OutputsFetched(s, f.d, f.output, w.safe);
    FetchInformed(f, s, w, chain, base);
    FetchedStays(f, s, w);
    longer := GamesAchieve(f, fetched, w, chain, base);
    t := AfterGames(fetched, f.d, f.games, w).value;
    assert Caught(f, s.cursor, w, t.cursor) by {
      FetchMoves(s, f.d, f.output, w.safe);
      PassedLikewise(f, s.cursor, fetched.cursor, w, t.cursor);
    }
  }

  /** A synchronization in a fair world. */
  lemma SyncAchieves(f: Factory, s: State, w: World, chain: seq<nat>, base: nat) returns (rest: seq<nat>)
    requires Informed(f, s, chain, base) && FairFrom(f, s, w) && Anchored(s, f.games, w)
    ensures var (t, ok) := Stages(s, f.d, f.games, f.output, w);
            ok == Some(t.proposals != map[]) && Informed(f, t, rest, base) && Achieves(f, s, w, t)
  {
    var t, longer := GamesStage(f, s, w, chain, base);
    StagesAre(s, f.d, f.games, f.output, w, t);
    rest := ResolveAllKnows(f, t, w, longer, base);
    RangeIsKnown(f, s.cursor.lastOutput, ResolveAll(t, f.d, w).0, rest, base);
  }

  // ---------------------------------------------------------------------------------------------
  // Any number of synchronizations
  // ---------------------------------------------------------------------------------------------

  /** The factory has so many games, all of them load and are whole, and the rollup has passed them by a span. */
  ghost predicate Settled(f: Factory, w: World, n: nat, top: nat) {
    w.gameCount == n && top + f.d.span <= w.safe && forall i: nat :: i < n ==> Reached(top, f.games, w, i) && Whole(f.games, f.d, i)
  }

  /** The last known output rises by a span in every synchronization until it is past all games, which are passed then. */
  lemma CatchesUp(f: Factory, c: Cursor, w: World, later: Cursor, n: nat, top: nat)
    requires Caught(f, c, w, later) && Settled(f, w, n, top) && Passed(c.delayed, c.next) && c.next <= n
    requires f.d.span > 0 && f.d.outputCount > 1
    ensures later.next <= n && (later.lastOutput >= top || later.lastOutput >= c.lastOutput + f.d.span)
    ensures later.lastOutput >= top ==> later.next == n
  {
    Scaled(2, f.d.outputCount, f.d.span);
    if c.lastOutput + f.d.span < FetchEnd(f.d, c.lastOutput, w.safe) {
      var k: nat :| Point(c.lastOutput, f.d.span, k) == later.lastOutput;
      assert k > 0;
      Scaled(1, k, f.d.span);
    }
    if later.lastOutput >= top {
      forall i: nat | i < n ensures Reached(later.lastOutput, f.games, w, i) && Whole(f.games, f.d, i) {
        assert Reached(top, f.games, w, i);
      }
      assert AllReached(c, later.lastOutput, f.d, f.games, w, n);
    }
  }

  lemma StartInformed(f: Factory, s: State, base: nat)
    requires GoodGames(f.games, f.d) && BasedOn(f, base)
    requires s == State(Cursor(f.anchor, f.anchor, [], base, f.anchor), map[], map[], map[])
    ensures Informed(f, s, [], base)
  {
    assert Point(base, f.d.span, 0) == base;
  }

  /** Nothing but fetching moves the last known output. */
  lemma {:induction false} ProcessAllLast(s: State, d: Deployment, games: nat -> Game, w: World, ahead: seq<nat>)
    requires GoodGames(games, d)
    ensures ProcessAll(s, d, games, w, ahead).0.cursor.lastOutput == s.cursor.lastOutput
    decreases Remaining(s.cursor, w.gameCount)
  {
    if HasNext(s.cursor, w.gameCount) {
      assert GoodGame(games, d, NextIndex(s.cursor).0);
      ProcessAllStep(s, d, games, w, ahead);
      RoundShrinks(s, d, games, w);
      StepLast(s, d, games, w);
      var (t, outcome) := LoopStep(s, d, games, w);
      if !Stops(outcome, w) {
        ProcessAllLast(t, d, games, w, AheadAfter(s, outcome, ahead));
      }
    }
  }

  lemma StepLast(s: State, d: Deployment, games: nat -> Game, w: World)
    requires GoodGame(games, d, NextIndex(s.cursor).0)
    ensures LoopStep(s, d, games, w).0.cursor.lastOutput == s.cursor.lastOutput
  {
    var index := NextIndex(s.cursor).0;
    SyncGameCursor(Taken(s), d, games, w, index);
    var r := SyncGame(Taken(s), d, games, w, index);
    MovedOnCursor(r.0, r.1, w, index);
  }

  lemma {:induction false} ResolveAllLast(s: State, d: Deployment, w: World)
    ensures ResolveAll(s, d, w).0.cursor.lastOutput == s.cursor.lastOutput
    decreases s.cursor.next - s.cursor.lastResolved
  {
    var last := s.cursor.lastResolved;
    if last in s.proposals && s.proposals[last].successor.Some? {
      var index := s.proposals[last].successor.value;
      if index in s.proposals && w.resolvedAt(index) != 0 && last < index < s.cursor.next {
        ResolveAllLast(Prune(Resolve(s, index, w.resolvedAt(index)), d), d, w);
      }
    }
  }

  /** In any world a synchronization extends the outputs as far as they lag. */
  lemma StagesMove(s: State, d: Deployment, games: nat -> Game, output: nat -> B256, w: World)
    requires GoodGames(games, d)
    ensures LastOutputMoved(d, s.cursor.lastOutput, w.safe, Stages(s, d, games, output, w).0.cursor.lastOutput)
  {
    FetchMoves(s, d, output, w.safe);
    var fetched := OutputsFetched(s, d, output, w.safe);
    ProcessAllLast(fetched, d, games, w, []);
    var (t, end) := ProcessAll(fetched, d, games, w, []);
    if end.Left? {
      ResolveAllLast(t.(cursor := LoadDelayed(t.cursor, end.ahead)), d, w);
    }
  }

  /** The same, for some chain and base. */
  ghost predicate WellInformed(f: Factory, s: State) {
    exists chain: seq<nat>, base: nat :: Informed(f, s, chain, base)
  }

  lemma SyncProgresses(f: Factory, s: State, w: World)
    requires WellInformed(f, s) && FairFrom(f, s, w) && Anchored(s, f.games, w)
    ensures var (t, ok) := Stages(s, f.d, f.games, f.output, w);
            ok == Some(t.proposals != map[]) && WellInformed(f, t) && Achieves(f, s, w, t)
  {
    var chain: seq<nat>, base: nat :| Informed(f, s, chain, base);
    var rest := SyncAchieves(f, s, w, chain, base);
  }

  /** What a synchronization achieves in any world, and in a fair one from an informed state on. */
  ghost predicate SyncAdvances(f: Factory, s: State, w: World, t: State, succeeded: bool) {
    && LastOutputMoved(f.d, s.cursor.lastOutput, w.safe, t.cursor.lastOutput)
    && (WellInformed(f, s) && FairFrom(f, s, w) ==>
          WellInformed(f, t) && Achieves(f, s, w, t) && (succeeded <==> t.proposals != map[]))
  }

  lemma StagesAdvance(f: Factory, s: State, w: World)
    requires GoodGames(f.games, f.d) && Anchored(s, f.games, w)
    ensures var r := Stages(s, f.d, f.games, f.output, w);
            SyncAdvances(f, s, w, r.0, r.1 == Some(true))
  {
    StagesMove(s, f.d, f.games, f.output, w);
    if WellInformed(f, s) && FairFrom(f, s, w) {
      SyncProgresses(f, s, w);
    }
  }

  /** What so many synchronizations of a course achieve whose factory and rollup are settled. */
  ghost predicate Progressed(f: Factory, start: Cursor, k: nat, n: nat, top: nat, c: Cursor) {
    && c.next <= n && (c.lastOutput >= top || c.lastOutput >= Point(start.lastOutput, f.d.span, k))
    && (k > 0 && c.lastOutput >= top ==> c.next == n)
  }

  /** The factory and the rollup are settled throughout, and a proposal has more than one output. */
  ghost predicate SettledCourse(f: Factory, worlds: nat -> World, n: nat, top: nat) {
    f.d.outputCount > 1 && forall k: nat :: Settled(f, worlds(k), n, top)
  }

  /** What so many synchronizations of a course leave behind. */
  ghost predicate Advances(f: Factory, start: State, k: nat, worlds: nat -> World, n: nat, top: nat, s: State) {
    && Evolves(start, s, f.games, f.d) && (WellInformed(f, start) ==> WellInformed(f, s))
    && (WellInformed(f, start) && SettledCourse(f, worlds, n, top) && start.cursor.next <= n ==>
          Progressed(f, start.cursor, k, n, top, s.cursor))
  }

  lemma AdvancesOn(f: Factory, start: State, s: State, k: nat, worlds: nat -> World, n: nat, top: nat, t: State)
    requires Advances(f, start, k, worlds, n, top, s)
    requires Evolves(s, t, f.games, f.d) && (WellInformed(f, s) ==> WellInformed(f, t) && Achieves(f, s, worlds(k), t))
    ensures Advances(f, start, k + 1, worlds, n, top, t)
  {
    EvolvesTransitive(start, s, t, f.games, f.d);
    if WellInformed(f, start) && SettledCourse(f, worlds, n, top) && start.cursor.next <= n {
      CatchesUp(f, s.cursor, worlds(k), t.cursor, n, top);
    }
  }

  /** All games of a range that are still tracked, in order. */
  ghost predicate Lists(indices: seq<nat>, from: nat, to: nat, proposals: map<nat, Proposal>) {
    && (forall j, k :: 0 <= j < k < |indices| ==> indices[j] < indices[k])
    && (forall i :: i in indices <==> from <= i < to && i in proposals)
  }

  /** A synchronization that succeeds reports that the final block is resolved, or else the games that it processed. */
  ghost predicate Reports(r: SyncResult, s: State, first: nat, finalBlock: Option<nat>) {
    && (r.Synced? ==> Lists(r.processed, first, s.cursor.next, s.proposals))
    && (r.Synced? || r.Finished? ==>
          && s.cursor.lastResolved in s.proposals
          && (r.Finished? <==> finalBlock.Some? && s.proposals[s.cursor.lastResolved].height >= finalBlock.value))
  }

  lemma {:induction false} TrackedLists(proposals: map<nat, Proposal>, from: nat, to: nat)
    ensures Lists(Tracked(proposals, from, to), from, to, proposals)
    decreases if from < to then to - from else 0
  {
    if from < to {
      TrackedLists(proposals, from + 1, to);
      var rest := Tracked(proposals, from + 1, to);
      assert forall k :: 0 <= k < |rest| ==> rest[k] in rest;
    }
  }

  /** A treasury, and one true proposal of two outputs that is never resolved, far below the safe block. */
  ghost predicate TreasuryAndPair(f: Factory) {
    f.anchor == 0 && f.d == Deployment(2, 1, 10) && (forall n: nat :: f.output(n) == 5) &&
    forall i: nat :: f.games(i) == if i < 2 then Ours(PairProposal(i)) else OtherType
  }

  function PairProposal(i: nat): Proposal {
    var p := PlainProposal(i, 0, 7, 5);
    if i == 0 then p else p.(height := 2, io := [HashToFe(5)], correctIo := [None])
  }

  function PairWorld(k: nat): World {
    World(2, 10, i => true, a => 0, i => if i == 0 then 1 else 0)
  }

  /** Here the course is fair, the factory and the rollup are settled, and the agent starts informed. */
  lemma PairSettled(f: Factory)
    requires TreasuryAndPair(f)
    ensures GoodGames(f.games, f.d) && FairCourse(f, PairWorld) && SettledCourse(f, PairWorld, 2, 2) && BasedOn(f, 0)
  {
    assert f.games(0).Ours? && f.games(1).Ours?;
    forall i: nat, j: nat ensures GoodGame(f.games, f.d, i) && InTimeOrder(f.games, i, j) {
    }
    assert Stands(f, 0) && Winner(f, 0);
    forall k: nat ensures FairWorld(f, PairWorld(k), 0) && AnchorKnown(f, PairWorld(k)) && Settled(f, PairWorld(k), 2, 2) {
      forall j: nat ensures !Blemish(f, j) {
        assert TruthfulGame(f, 1);
      }
    }
  }

  // ---------------------------------------------------------------------------------------------
  // A single output per proposal
  // ---------------------------------------------------------------------------------------------

  /** No output is known, and nothing but treasuries is tracked. */
  ghost predicate Childless(s: State) {
    s.outputs == map[] && forall i: nat :: i in s.proposals ==> !HasParent(s.proposals[i])
  }

  lemma LoadedChildless(s: State, d: Deployment, p: Proposal, round: nat)
    requires Childless(s) && Loadable(p)
    ensures Childless(SyncLoaded(s, d, p, round).0)
  {
    var t := Participate(RecordElimination(s, p.proposer, round), d, p).0;
    assert Childless(t);
    assert !HasParent(p) || Assess(t.outputs, d, ParentOf(t, p), p).Bail? || Assess(t.outputs, d, ParentOf(t, p), p).Panic?;
  }

  lemma GameChildless(s: State, d: Deployment, games: nat -> Game, w: World, index: nat)
    requires Childless(s) && GoodGame(games, d, index)
    ensures Childless(SyncGame(s, d, games, w, index).0)
  {
    if games(index).Ours? {
      LoadedChildless(s, d, Incoming(games, w, index), w.round(games(index).proposal.proposer));
    }
  }

  lemma MovedOnStores(t: State, outcome: Outcome, w: World, index: nat)
    ensures var r := MovedOn(t, outcome, w, index).0;
            r.proposals == t.proposals && r.outputs == t.outputs
  {
  }

  lemma StepChildless(s: State, d: Deployment, games: nat -> Game, w: World)
    requires Childless(s) && GoodGame(games, d, NextIndex(s.cursor).0)
    ensures Childless(LoopStep(s, d, games, w).0)
  {
    var index := NextIndex(s.cursor).0;
    GameChildless(Taken(s), d, games, w, index);
    var r := SyncGame(Taken(s), d, games, w, index);
    MovedOnStores(r.0, r.1, w, index);
  }

  lemma {:induction false} LoopChildless(s: State, d: Deployment, games: nat -> Game, w: World, ahead: seq<nat>)
    requires Childless(s) && GoodGames(games, d)
    ensures Childless(ProcessAll(s, d, games, w, ahead).0)
    decreases Remaining(s.cursor, w.gameCount)
  {
    if HasNext(s.cursor, w.gameCount) {
      assert GoodGame(games, d, NextIndex(s.cursor).0);
      ProcessAllStep(s, d, games, w, ahead);
      RoundShrinks(s, d, games, w);
      StepChildless(s, d, games, w);
      var (t, outcome) := LoopStep(s, d, games, w);
      if !Stops(outcome, w) {
        LoopChildless(t, d, games, w, AheadAfter(s, outcome, ahead));
      }
    }
  }

  lemma {:induction false} ResolvedChildless(s: State, d: Deployment, w: World)
    requires Childless(s)
    ensures Childless(ResolveAll(s, d, w).0)
    decreases s.cursor.next - s.cursor.lastResolved
  {
    var last := s.cursor.lastResolved;
    if last in s.proposals && s.proposals[last].successor.Some? {
      var index := s.proposals[last].successor.value;
      if index in s.proposals && w.resolvedAt(index) != 0 && last < index < s.cursor.next {
        ResolvedChildless(Prune(Resolve(s, index, w.resolvedAt(index)), d), d, w);
      }
    }
  }

  /** With a single output per proposal no proposal but a treasury is ever stored: its output is never fetched. */
  lemma SingleOutputStalls(s: State, d: Deployment, games: nat -> Game, output: nat -> B256, w: World)
    requires Childless(s) && GoodGames(games, d) && d.outputCount == 1
    ensures Childless(Stages(s, d, games, output, w).0)
  {
    Scaled(d.outputCount, 1, d.span);
    assert OutputsFetched(s, d, output, w.safe) == s;
    LoopChildless(s, d, games, w, []);
    var (t, end) := ProcessAll(s, d, games, w, []);
    if end.Left? {
      ResolvedChildless(t.(cursor := LoadDelayed(t.cursor, end.ahead)), d, w);
    }
  }
}
