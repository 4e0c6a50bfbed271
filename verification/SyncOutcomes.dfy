/** When a game is passed over, put off or judged, and what a round writes down (crates/sync/src/agent.rs). */
module SyncOutcomes {
  import opened Common
  import opened Proposals
  import opened SyncState
  import opened SyncRounds

  /** The game has no place among the tracked ones. */
  predicate Dangling(s: State, p: Proposal) {
    s.proposals != map[] && p.parent !in s.proposals
  }

  /** The game is more than a span ahead of the local outputs. */
  predicate TooFarAhead(s: State, d: Deployment, p: Proposal) {
    p.height > s.cursor.lastOutput + d.span
  }

  /** The tournament took in a canonical proposal, and the game came so much later than it that it is void. */
  predicate TooLate(s: State, d: Deployment, p: Proposal) {
    p.parent in s.proposals && s.proposals[p.parent].successor.Some? &&
    var winner := s.proposals[p.parent].successor.value;
    winner in s.proposals && p.createdAt >= s.proposals[winner].createdAt + d.timeout
  }

  /** The tournament does not take in the game, which is not resolved. */
  predicate Barred(s: State, d: Deployment, p: Proposal) {
    && HasParent(p) && p.resolvedAt == 0
    && (p.parent in s.proposals ==>
          EliminatedBefore(s, p) || s.proposals[p.parent].canonical != Some(true) || TooLate(s, d, p))
  }

  /** A game is put off exactly if it has its place and is too far ahead. */
  lemma DelayedIff(s: State, d: Deployment, p: Proposal, round: nat)
    requires Loadable(p)
    ensures SyncLoaded(s, d, p, round).1.Delayed? <==> !Dangling(s, p) && TooFarAhead(s, d, p)
    ensures SyncLoaded(s, d, p, round).1.Delayed? ==> SyncLoaded(s, d, p, round).1.block == p.height
  {
  }

  /** A game is passed over exactly if it has no place, or is not too far ahead and barred from its tournament. */
  lemma IgnoredIff(s: State, d: Deployment, p: Proposal, round: nat)
    requires Loadable(p)
    ensures SyncLoaded(s, d, p, round).1 == Ignored <==>
            Dangling(s, p) || (!TooFarAhead(s, d, p) && Barred(RecordElimination(s, p.proposer, round), d, p))
  {
    var t := RecordElimination(s, p.proposer, round);
    if HasParent(p) && p.resolvedAt == 0 && p.parent in t.proposals {
      var u := AppendChild(t, p.parent, p.index);
      assert Decide(u, d, p) == Skip <==> Barred(t, d, p);
    }
  }

  /** A game is an error exactly if it has its place and neither of these, and cannot be judged or decided. */
  lemma FailedIff(s: State, d: Deployment, games: nat -> Game, chain: seq<nat>, p: Proposal, round: nat)
    requires Inv(s, d, games, chain) && GoodGames(games, d)
    requires NextGame(s, games, p) && Loadable(p) && Extends(s, chain, p)
    ensures var before := RecordElimination(s, p.proposer, round);
            SyncLoaded(s, d, p, round).1 == Failed <==>
              && !Dangling(s, p) && !TooFarAhead(s, d, p) && !Barred(before, d, p)
              && Assess(s.outputs, d, ParentOf(before, p), p).Bail?
  {
    assert GoodGame(games, d, s.cursor.next) && EntryAt(s, games, s.cursor.next);
    DelayedIff(s, d, p, round);
    IgnoredIff(s, d, p, round);
    var t := RecordElimination(s, p.proposer, round);
    EliminationRecorded(s, d, games, chain, p, round);
    if !Dangling(s, p) && !TooFarAhead(s, d, p) && !Barred(t, d, p) {
      TakenPart(s, d, games, chain, p, round);
    }
  }

  lemma TakenPart(s: State, d: Deployment, games: nat -> Game, chain: seq<nat>, p: Proposal, round: nat)
    requires Inv(s, d, games, chain) && GoodGames(games, d)
    requires NextGame(s, games, p) && Loadable(p) && Extends(s, chain, p)
    requires !Dangling(s, p) && !TooFarAhead(s, d, p) && !Barred(RecordElimination(s, p.proposer, round), d, p)
    ensures var before := RecordElimination(s, p.proposer, round);
            SyncLoaded(s, d, p, round).1 == Failed <==> Assess(s.outputs, d, ParentOf(before, p), p).Bail?
  {
    assert GoodGame(games, d, s.cursor.next) && EntryAt(s, games, s.cursor.next);
    var t := RecordElimination(s, p.proposer, round);
    EliminationRecorded(s, d, games, chain, p, round);
    ParticipationKeeps(t, d, games, chain, p);
    var (u, decision) := Participate(t, d, p);
    assert decision == Take;
    AssessAndStoreKeeps(u, d, games, chain, p);
    assert ParentVerdict(ParentOf(u, p), p) == ParentVerdict(ParentOf(t, p), p);
  }

  lemma StoringKeepsChildren(s: State, d: Deployment, p: Proposal, i: nat)
    requires Loadable(p) && i in s.proposals && i != p.index
    ensures var t := AssessAndStore(s, d, p).0;
            i in t.proposals && t.proposals[i].children == s.proposals[i].children
  {
  }

  /** Of the tracked proposals only the parent of a game that is not resolved, and reaches its tournament, gets a child. */
  lemma ChildrenIff(s: State, d: Deployment, p: Proposal, round: nat, i: nat)
    requires Loadable(p) && i in s.proposals && i != p.index
    ensures var t := SyncLoaded(s, d, p, round).0;
            && i in t.proposals
            && t.proposals[i].children == s.proposals[i].children +
                 (if i == p.parent && p.resolvedAt == 0 && !TooFarAhead(s, d, p) then {p.index} else {})
  {
    var t := Participate(RecordElimination(s, p.proposer, round), d, p).0;
    assert i in t.proposals;
    StoringKeepsChildren(t, d, p, i);
  }

  /** What a round writes down of a game that it stored: a canonical one is the tip, and the last resolved one if it is
      resolved; the proposer of a wrong one is eliminated, unless that was known. */
  lemma RoundWrites(t: State, w: World, index: nat)
    requires index == t.cursor.next && index in t.proposals && t.proposals[index].index == index
    ensures var q, r := t.proposals[index], MovedOn(t, Success, w, index);
            && r.1 == Success && r.0.proposals == t.proposals && r.0.outputs == t.outputs
            && r.0.cursor == t.cursor.(
                 next := index + 1, tip := if q.canonical == Some(true) then index else t.cursor.tip,
                 lastResolved := if q.canonical == Some(true) && q.resolvedAt != 0 then index else t.cursor.lastResolved)
            && (forall a: Address ::
                  (a in r.0.eliminations <==> a in t.eliminations || Convicts(q, a))
                  && (a in r.0.eliminations ==> r.0.eliminations[a] == if a in t.eliminations then t.eliminations[a] else index))
  {
  }

  predicate Convicts(q: Proposal, a: Address) {
    a == q.proposer && q.canonical != Some(true) && IsCorrect(q) == Some(false)
  }
}
