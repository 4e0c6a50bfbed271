/** The order of the games that wait (crates/sync/src/cursor.rs, crates/sync/src/agent.rs). */
module SyncQueue {
  import opened Common
  import opened Proposals
  import opened SyncState
  import opened SyncRounds
  import opened SyncProgress

  predicate Ascending(indices: seq<nat>) {
    forall j, k :: 0 <= j < k < |indices| ==> indices[j] < indices[k]
  }

  /** What waits is in order, and all of it was passed over. */
  predicate Queued(indices: seq<nat>, next: nat) {
    Ascending(indices) && Passed(indices, next)
  }

  lemma {:induction false} RetainedAscends(indices: seq<nat>, from: nat, next: nat)
    requires Queued(indices, next)
    ensures Queued(Retain(indices, from), next)
    ensures indices != [] ==> forall k :: 0 <= k < |Retain(indices, from)| ==> Retain(indices, from)[k] >= indices[0]
  {
    if indices != [] {
      RetainedAscends(indices[1..], from, next);
      var rest := Retain(indices[1..], from);
      assert forall k :: 0 <= k < |rest| ==> rest[k] > indices[0];
    }
  }

  lemma HeadMoves(ahead: seq<nat>, delayed: seq<nat>, next: nat)
    requires Queued(ahead + delayed, next) && delayed != []
    ensures Queued(ahead + delayed[1..], next) && Queued(ahead + [delayed[0]] + delayed[1..], next)
  {
    var all := ahead + delayed;
    assert ahead + [delayed[0]] + delayed[1..] == all;
    var less := ahead + delayed[1..];
    assert forall k :: 0 <= k < |less| ==> less[k] == all[if k < |ahead| then k else k + 1];
  }

  lemma NextMoves(ahead: seq<nat>, next: nat)
    requires Queued(ahead + [], next)
    ensures Queued(ahead + [] + [], next) && Queued(ahead + [], next + 1) && Queued(ahead + [next] + [], next + 1)
  {
    assert ahead + [] == ahead && ahead + [next] + [] == ahead + [next];
  }

  /** Whichever game comes next, the games too far ahead and those that still wait stay in order. */
  lemma StepQueued(s: State, d: Deployment, games: nat -> Game, w: World, ahead: seq<nat>)
    requires Queued(ahead + s.cursor.delayed, s.cursor.next) && Forward(s) && GoodGame(games, d, NextIndex(s.cursor).0)
    ensures var (t, outcome) := LoopStep(s, d, games, w);
            && Forward(t)
            && Queued((if Stops(outcome, w) then ahead else AheadAfter(s, outcome, ahead)) + t.cursor.delayed, t.cursor.next)
  {
    var delayed := s.cursor.delayed;
    if delayed == [] {
      NextMoves(ahead, s.cursor.next);
    } else {
      assert delayed[0] == (ahead + delayed)[|ahead|];
      HeadMoves(ahead, delayed, s.cursor.next);
    }
    LoopStepForward(s, d, games, w);
  }

  lemma {:induction false} LoopQueued(s: State, d: Deployment, games: nat -> Game, w: World, ahead: seq<nat>)
    requires Queued(ahead + s.cursor.delayed, s.cursor.next) && Forward(s) && GoodGames(games, d)
    ensures var (t, end) := ProcessAll(s, d, games, w, ahead);
            end.Left? ==> Queued(end.ahead + t.cursor.delayed, t.cursor.next)
    decreases Remaining(s.cursor, w.gameCount)
  {
    if HasNext(s.cursor, w.gameCount) {
      assert GoodGame(games, d, NextIndex(s.cursor).0);
      ProcessAllStep(s, d, games, w, ahead);
      RoundShrinks(s, d, games, w);
      StepQueued(s, d, games, w, ahead);
      var (t, outcome) := LoopStep(s, d, games, w);
      if !Stops(outcome, w) {
        LoopQueued(t, d, games, w, AheadAfter(s, outcome, ahead));
      }
    }
  }

  lemma {:induction false} ResolvedQueued(s: State, d: Deployment, w: World)
    requires Queued(s.cursor.delayed, s.cursor.next)
    ensures Queued(ResolveAll(s, d, w).0.cursor.delayed, ResolveAll(s, d, w).0.cursor.next)
    decreases s.cursor.next - s.cursor.lastResolved
  {
    var last := s.cursor.lastResolved;
    if last in s.proposals && s.proposals[last].successor.Some? {
      var index := s.proposals[last].successor.value;
      if index in s.proposals && w.resolvedAt(index) != 0 && last < index < s.cursor.next {
        RetainedAscends(s.cursor.delayed, index, s.cursor.next);
        ResolvedQueued(Prune(Resolve(s, index, w.resolvedAt(index)), d), d, w);
      }
    }
  }

  /** A synchronization that gets to its end leaves the games that wait in the order of the factory, each of them once. */
  lemma StagesQueued(s: State, d: Deployment, games: nat -> Game, output: nat -> B256, w: World)
    requires Queued(s.cursor.delayed, s.cursor.next) && Forward(s) && GoodGames(games, d)
    ensures var (t, ok) := Stages(s, d, games, output, w);
            ok == Some(true) ==> Queued(t.cursor.delayed, t.cursor.next)
  {
    var fetched := OutputsFetched(s, d, output, w.safe);
    FetchMoves(s, d, output, w.safe);
    FetchForward(s, d, output, w.safe);
    assert [] + fetched.cursor.delayed == fetched.cursor.delayed;
    LoopQueued(fetched, d, games, w, []);
    var (t, end) := ProcessAll(fetched, d, games, w, []);
    if end.Left? {
      ResolvedQueued(t.(cursor := LoadDelayed(t.cursor, end.ahead)), d, w);
    }
  }

  lemma FetchForward(s: State, d: Deployment, output: nat -> B256, safe: nat)
    requires d.span > 0 && Forward(s)
    ensures Forward(OutputsFetched(s, d, output, safe))
  {
    FetchMoves(s, d, output, safe);
    forall i: nat ensures ForwardAt(OutputsFetched(s, d, output, safe), i) {
      assert ForwardAt(s, i);
    }
  }

  // ---------------------------------------------------------------------------------------------
  // Games that are never looked at again
  // ---------------------------------------------------------------------------------------------

  /** The game was passed over, is not tracked, and does not wait. */
  predicate Gone(s: State, ahead: seq<nat>, i: nat) {
    i < s.cursor.next && i !in s.proposals && i !in s.cursor.delayed && i !in ahead
  }

  lemma StoredKeys(s: State, d: Deployment, p: Proposal)
    requires Loadable(p)
    ensures var (t, outcome) := AssessAndStore(s, d, p);
            && (forall i :: i in s.proposals ==> i in t.proposals)
            && (forall i :: i in t.proposals ==> i in s.proposals || (i == p.index && outcome == Success))
  {
  }

  lemma LoadedKeys(s: State, d: Deployment, p: Proposal, round: nat)
    requires Loadable(p)
    ensures var (t, outcome) := SyncLoaded(s, d, p, round);
            && (forall i :: i in s.proposals ==> i in t.proposals)
            && (forall i :: i in t.proposals ==> i in s.proposals || (i == p.index && outcome == Success))
  {
    var t := Participate(RecordElimination(s, p.proposer, round), d, p).0;
    assert forall i :: i in s.proposals <==> i in t.proposals;
    StoredKeys(t, d, p);
  }

  lemma StepKeys(s: State, d: Deployment, games: nat -> Game, w: World)
    requires GoodGame(games, d, NextIndex(s.cursor).0)
    ensures var (t, outcome) := LoopStep(s, d, games, w);
            forall i :: i in t.proposals ==>
              i in s.proposals || (i == NextIndex(s.cursor).0 && (outcome == Success || outcome == Aborted))
  {
    var index := NextIndex(s.cursor).0;
    if games(index).Ours? {
      LoadedKeys(Taken(s), d, Incoming(games, w, index), w.round(games(index).proposal.proposer));
    }
    var r := SyncGame(Taken(s), d, games, w, index);
    MovedOnStores(r.0, r.1, w, index);
  }

  lemma {:induction false} LoopGone(s: State, d: Deployment, games: nat -> Game, w: World, ahead: seq<nat>, i: nat)
    requires Gone(s, ahead, i) && Forward(s) && Passed(s.cursor.delayed, s.cursor.next) && GoodGames(games, d)
    ensures var (t, end) := ProcessAll(s, d, games, w, ahead);
            Gone(t, if end.Left? then end.ahead else [], i)
    decreases Remaining(s.cursor, w.gameCount)
  {
    if HasNext(s.cursor, w.gameCount) {
      assert GoodGame(games, d, NextIndex(s.cursor).0);
      ProcessAllStep(s, d, games, w, ahead);
      RoundShrinks(s, d, games, w);
      StepKeys(s, d, games, w);
      LoopStepForward(s, d, games, w);
      var (t, outcome) := LoopStep(s, d, games, w);
      assert NextIndex(s.cursor).0 != i && Gone(t, AheadAfter(s, outcome, ahead), i);
      if !Stops(outcome, w) {
        LoopGone(t, d, games, w, AheadAfter(s, outcome, ahead), i);
      }
    }
  }

  lemma {:induction false} RetainsNoOther(indices: seq<nat>, from: nat, i: nat)
    requires i !in indices
    ensures i !in Retain(indices, from)
  {
    if indices != [] {
      RetainsNoOther(indices[1..], from, i);
    }
  }

  lemma {:induction false} ResolvedGone(s: State, d: Deployment, w: World, i: nat)
    requires Gone(s, [], i)
    ensures Gone(ResolveAll(s, d, w).0, [], i)
    decreases s.cursor.next - s.cursor.lastResolved
  {
    var last := s.cursor.lastResolved;
    if last in s.proposals && s.proposals[last].successor.Some? {
      var index := s.proposals[last].successor.value;
      if index in s.proposals && w.resolvedAt(index) != 0 && last < index < s.cursor.next {
        RetainsNoOther(s.cursor.delayed, index, i);
        ResolvedGone(Prune(Resolve(s, index, w.resolvedAt(index)), d), d, w, i);
      }
    }
  }

  /** A game that is gone is never looked at again, in any world. */
  lemma GoneStays(s: State, d: Deployment, games: nat -> Game, output: nat -> B256, w: World, i: nat)
    requires Gone(s, [], i) && Forward(s) && Passed(s.cursor.delayed, s.cursor.next) && GoodGames(games, d)
    ensures Gone(Stages(s, d, games, output, w).0, [], i)
  {
    var fetched := OutputsFetched(s, d, output, w.safe);
    FetchMoves(s, d, output, w.safe);
    FetchForward(s, d, output, w.safe);
    LoopGone(fetched, d, games, w, [], i);
    var (t, end) := ProcessAll(fetched, d, games, w, []);
    if end.Left? {
      ResolvedGone(t.(cursor := LoadDelayed(t.cursor, end.ahead)), d, w, i);
    }
  }

  /** A delayed game at which the loop stops, as it fails to load or is to be tried again once more outputs are known, is
      gone with that. */
  lemma StoppedIsGone(s: State, d: Deployment, games: nat -> Game, output: nat -> B256, w: World)
    requires Queued(s.cursor.delayed, s.cursor.next) && Forward(s) && GoodGames(games, d)
    requires s.cursor.delayed != [] && s.cursor.delayed[0] !in s.proposals && GoodGame(games, d, s.cursor.delayed[0])
    requires var outcome := LoopStep(OutputsFetched(s, d, output, w.safe), d, games, w).1;
             outcome == Failed || (outcome.Delayed? && outcome.block < w.safe)
    ensures Gone(Stages(s, d, games, output, w).0, [], s.cursor.delayed[0])
  {
    var i, fetched := s.cursor.delayed[0], OutputsFetched(s, d, output, w.safe);
    FetchMoves(s, d, output, w.safe);
    FetchForward(s, d, output, w.safe);
    ProcessAllStep(fetched, d, games, w, []);
    StepKeys(fetched, d, games, w);
    LoopStepForward(fetched, d, games, w);
    var t := LoopStep(fetched, d, games, w).0;
    assert Gone(t, [], i);
    assert LoadDelayed(t.cursor, []) == t.cursor;
    ResolvedGone(t, d, w, i);
  }
}
