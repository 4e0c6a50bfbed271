/** What synchronization never undoes (crates/sync/src/agent.rs). */
module SyncHistory {
  import opened Common
  import opened Proposals
  import opened SyncState

  /** How far back outputs are kept while a game is the last resolved one. */
  function OutputFloor(games: nat -> Game, d: Deployment, lastResolved: nat): nat {
    if games(lastResolved).Ours? then EarliestOutput(d, games(lastResolved).proposal) else 0
  }

  /** A tracked proposal keeps its verdict and its successor once it has one; only those before the last resolved one
      are forgotten, and what was passed over or forgotten never comes back. */
  predicate EvolvesAt(s: State, t: State, i: nat) {
    && (i in s.proposals && i in t.proposals ==>
          && SameGame(s.proposals[i], t.proposals[i]) && t.proposals[i].canonical == s.proposals[i].canonical
          && (s.proposals[i].successor.Some? ==> t.proposals[i].successor == s.proposals[i].successor))
    && (i in s.proposals && i !in t.proposals ==> i < t.cursor.lastResolved && i < t.cursor.next)
    && (i < s.cursor.next && i !in s.proposals ==> i !in t.proposals)
  }

  predicate EliminationKept(s: State, t: State, a: Address) {
    a in s.eliminations ==> a in t.eliminations && t.eliminations[a] == s.eliminations[a]
  }

  predicate OutputKept(s: State, t: State, games: nat -> Game, d: Deployment, n: nat) {
    n in s.outputs ==> n in t.outputs || n < OutputFloor(games, d, t.cursor.lastResolved)
  }

  ghost predicate Evolves(s: State, t: State, games: nat -> Game, d: Deployment) {
    && s.cursor.next <= t.cursor.next && s.cursor.lastResolved <= t.cursor.lastResolved
    && OutputFloor(games, d, s.cursor.lastResolved) <= OutputFloor(games, d, t.cursor.lastResolved)
    && (forall i: nat :: EvolvesAt(s, t, i))
    && (forall a: Address :: EliminationKept(s, t, a))
    && (forall n: nat :: OutputKept(s, t, games, d, n))
  }

  lemma EvolvesTransitive(s: State, t: State, u: State, games: nat -> Game, d: Deployment)
    requires Evolves(s, t, games, d) && Evolves(t, u, games, d)
    ensures Evolves(s, u, games, d)
  {
    forall i: nat ensures EvolvesAt(s, u, i) {
      assert EvolvesAt(s, t, i) && EvolvesAt(t, u, i);
    }
    forall a: Address ensures EliminationKept(s, u, a) {
      assert EliminationKept(s, t, a) && EliminationKept(t, u, a);
    }
    forall n: nat ensures OutputKept(s, u, games, d, n) {
      assert OutputKept(s, t, games, d, n) && OutputKept(t, u, games, d, n);
    }
  }

  lemma EvolvesThrough(s: State, t: State, u: State, v: State, w: State, games: nat -> Game, d: Deployment)
    requires Evolves(s, t, games, d) && Evolves(t, u, games, d) && Evolves(u, v, games, d) && Evolves(v, w, games, d)
    ensures Evolves(s, w, games, d)
  {
    EvolvesTransitive(s, t, u, games, d);
    EvolvesTransitive(s, u, v, games, d);
    EvolvesTransitive(s, v, w, games, d);
  }

  /** A change of cursor and children alone. */
  lemma SameCursorEvolves(s: State, t: State, games: nat -> Game, d: Deployment)
    requires t.cursor.lastResolved == s.cursor.lastResolved && s.cursor.next <= t.cursor.next
    requires s.outputs.Keys <= t.outputs.Keys
    requires forall i: nat :: EvolvesAt(s, t, i)
    requires forall a: Address :: EliminationKept(s, t, a)
    ensures Evolves(s, t, games, d)
  {
  }

  /** The last resolved proposal moves along the chain, so the floor only rises. */
  lemma FloorRises(s: State, d: Deployment, games: nat -> Game, chain: seq<nat>, j: nat, k: nat)
    requires Inv(s, d, games, chain) && j <= k < |chain|
    ensures chain[j] <= chain[k] && OutputFloor(games, d, chain[j]) <= OutputFloor(games, d, chain[k])
  {
    ChainAt(s.proposals, d, chain, j);
    ChainAt(s.proposals, d, chain, k);
    assert EntryAt(s, games, chain[j]) && EntryAt(s, games, chain[k]);
    if j < k {
      ChainRises(s.proposals, d, chain, j, k);
    }
  }

  lemma LastResolvedPosition(s: State, d: Deployment, games: nat -> Game, chain: seq<nat>, index: nat)
    requires Inv(s, d, games, chain) && s.cursor.lastResolved in chain && index in chain
    requires index >= s.cursor.lastResolved
    ensures OutputFloor(games, d, s.cursor.lastResolved) <= OutputFloor(games, d, index)
  {
    var j, k := PositionOf(chain, s.cursor.lastResolved), PositionOf(chain, index);
    if k < j {
      ChainRises(s.proposals, d, chain, k, j);
    } else {
      FloorRises(s, d, games, chain, j, k);
    }
  }

  /** Storing writes a successor only where there was none: that of the tip. */
  lemma StoredEvolves(s: State, d: Deployment, games: nat -> Game, chain: seq<nat>, p: Proposal)
    requires Inv(s, d, games, chain) && GoodGames(games, d) && Storable(s, games, chain, p)
    ensures Evolves(s, Stored(s, p), games, d)
  {
    var t := Stored(s, p);
    if s.proposals != map[] && p.canonical == Some(true) {
      NewCanonicalExtendsTip(s, d, games, chain, p);
    }
    forall i: nat ensures EvolvesAt(s, t, i) {
      assert EntryAt(s, games, i);
    }
    StoredKeeps(s, d, games, chain, p);
    if t.cursor.lastResolved != s.cursor.lastResolved {
      ResolvedOnStore(s, d, games, chain, p);
    }
    forall n: nat ensures OutputKept(s, t, games, d, n) {
    }
    forall a: Address ensures EliminationKept(s, t, a) {
    }
  }

  lemma ResolvedOnStore(s: State, d: Deployment, games: nat -> Game, chain: seq<nat>, p: Proposal)
    requires Inv(s, d, games, chain) && GoodGames(games, d) && Storable(s, games, chain, p)
    requires p.canonical == Some(true)
    ensures s.cursor.lastResolved <= p.index
    ensures OutputFloor(games, d, s.cursor.lastResolved) <= OutputFloor(games, d, p.index)
  {
    if s.proposals != map[] {
      NewCanonicalExtendsTip(s, d, games, chain, p);
      var k := PositionOf(chain, s.cursor.lastResolved);
      FloorRises(s, d, games, chain, k, |chain| - 1);
      assert EntryAt(s, games, s.cursor.tip) && EntryAt(s, games, s.cursor.lastResolved);
    }
  }

  lemma ParticipationEvolves(s: State, d: Deployment, games: nat -> Game, p: Proposal, round: nat)
    ensures Evolves(s, RecordElimination(s, p.proposer, round), games, d)
    ensures Evolves(s, Participate(RecordElimination(s, p.proposer, round), d, p).0, games, d)
  {
    var t := RecordElimination(s, p.proposer, round);
    var u := Participate(t, d, p).0;
    forall i: nat ensures EvolvesAt(s, t, i) && EvolvesAt(s, u, i) {
    }
    forall a: Address ensures EliminationKept(s, t, a) && EliminationKept(s, u, a) {
    }
    SameCursorEvolves(s, t, games, d);
    SameCursorEvolves(s, u, games, d);
  }

  /** A game that was passed over, and is neither stored nor crashes the agent now, changes nothing of the chain. */
  lemma PassedEvolves(s: State, d: Deployment, games: nat -> Game, chain: seq<nat>, p: Proposal, round: nat)
    requires Inv(s, d, games, chain) && Loadable(p) && s.proposals != map[]
    requires SyncLoaded(s, d, p, round).1 != Success && SyncLoaded(s, d, p, round).1 != Panicked
    ensures var t := SyncLoaded(s, d, p, round).0;
            Inv(t, d, games, chain) && Evolves(s, t, games, d) && t.cursor == s.cursor && t.proposals != map[]
  {
    PassedKeeps(s, d, games, chain, p, round);
    ParticipationEvolves(s, d, games, p, round);
    var i: nat :| i in s.proposals;
    SameEvolves(s, games, d);
  }

  lemma SameEvolves(s: State, games: nat -> Game, d: Deployment)
    ensures Evolves(s, s, games, d)
  {
    SameCursorEvolves(s, s, games, d);
  }

  lemma JudgedEvolves(s: State, d: Deployment, games: nat -> Game, chain: seq<nat>, p: Proposal)
    requires Inv(s, d, games, chain) && GoodGames(games, d) && NextGame(s, games, p) && Loadable(p)
    requires s.proposals != map[] ==> p.parent in s.proposals && p.parent in chain
    requires AssessAndStore(s, d, p).1 == Success
    ensures var t := AssessAndStore(s, d, p).0;
            p.index in t.proposals && Evolves(s, Advance(FollowUp(t, t.proposals[p.index])), games, d)
  {
    AssessAndStoreKeeps(s, d, games, chain, p);
    StoredEvolves(s, d, games, chain, ToStore(s, d, p).value);
  }

  /** Processing the next game undoes nothing. */
  lemma SyncLoadedEvolves(s: State, d: Deployment, games: nat -> Game, chain: seq<nat>, p: Proposal, round: nat)
    requires Inv(s, d, games, chain) && GoodGames(games, d)
    requires NextGame(s, games, p) && Loadable(p) && Extends(s, chain, p)
    ensures var (t, outcome) := SyncLoaded(s, d, p, round);
            if outcome == Success then p.index in t.proposals && Evolves(s, Advance(FollowUp(t, t.proposals[p.index])), games, d)
            else Evolves(s, t, games, d)
  {
    ParticipationEvolves(s, d, games, p, round);
    var t := RecordElimination(s, p.proposer, round);
    var u := Participate(t, d, p).0;
    SameCursorEvolves(s, s, games, d);
    if SyncLoaded(s, d, p, round).1 == Success {
      assert GoodGame(games, d, s.cursor.next) && EntryAt(s, games, s.cursor.next);
      EliminationRecorded(s, d, games, chain, p, round);
      ParticipationKeeps(t, d, games, chain, p);
      assert u.proposals == map[] <==> s.proposals == map[];
      JudgedEvolves(u, d, games, chain, p);
      var v := AssessAndStore(u, d, p).0;
      EvolvesTransitive(s, u, Advance(FollowUp(v, v.proposals[p.index])), games, d);
    }
  }

  lemma ResolveEvolves(s: State, d: Deployment, games: nat -> Game, chain: seq<nat>, index: nat, resolvedAt: nat)
    requires Inv(s, d, games, chain) && s.cursor.lastResolved in s.proposals
    requires s.proposals[s.cursor.lastResolved].successor == Some(index)
    ensures index in s.proposals && index in chain && index > s.cursor.lastResolved
    ensures Evolves(s, Resolve(s, index, resolvedAt), games, d)
  {
    SuccessorPresent(s, d, games, chain, s.cursor.lastResolved);
    LastResolvedPosition(s, d, games, chain, index);
    var t := Resolve(s, index, resolvedAt);
    forall i: nat ensures EvolvesAt(s, t, i) {
    }
    forall n: nat ensures OutputKept(s, t, games, d, n) {
    }
  }

  lemma PruneEvolves(s: State, d: Deployment, games: nat -> Game, chain: seq<nat>)
    requires Inv(s, d, games, chain) && s.proposals != map[] && d.span > 0
    ensures Evolves(s, Prune(s, d), games, d)
  {
    var t, last := Prune(s, d), s.cursor.lastResolved;
    PruneKeeps(s, d, games, chain);
    assert EntryAt(s, games, last);
    FreeKeeps(s.outputs, EarliestOutput(d, s.proposals[last]), d.span, 1);
    forall i: nat ensures EvolvesAt(s, t, i) {
      assert EntryAt(s, games, i);
    }
    forall n: nat ensures OutputKept(s, t, games, d, n) {
    }
  }

  /** Once a proposer is known to be eliminated, nothing they proposed after that ever becomes canonical. */
  lemma EliminatedStaysOut(
      known: State, s: State, d: Deployment, games: nat -> Game, chain: seq<nat>, p: Proposal, round: nat)
    requires Evolves(known, s, games, d) && EliminatedBefore(known, p)
    requires Inv(s, d, games, chain) && GoodGames(games, d)
    requires NextGame(s, games, p) && Loadable(p) && Extends(s, chain, p)
    ensures var r := SyncLoaded(s, d, p, round);
            r.1 == Success ==> p.index in r.0.proposals && r.0.proposals[p.index].canonical == Some(false)
  {
    var r := SyncLoaded(s, d, p, round);
    SyncLoadedKeeps(s, d, games, chain, p, round);
    SyncLoadedEvolves(s, d, games, chain, p, round);
    if r.1 == Success {
      var q := r.0.proposals[p.index];
      assert EliminationKept(known, s, p.proposer);
      assert EliminationKept(s, Advance(FollowUp(r.0, q)), p.proposer);
      assert GoodGame(games, d, s.cursor.next);
      assert q.canonical.Some? && !q.canonical.value;
    }
  }
}
