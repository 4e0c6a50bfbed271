/** The tournaments that the contracts play over the games, and that the agent finds their winners canonical
    (crates/sync/src/agent.rs, crates/contracts/foundry/src/KailuaTournament.sol). */
module SyncWinners {
  import opened Common
  import opened Blobs
  import opened Proposals
  import opened SyncOutputs
  import opened SyncState

  /** All games of the factory, the outputs of the rollup, the game from which the agent starts, and the games whose
      proposers were eliminated in the tournaments before that. */
  datatype Factory = Factory(games: nat -> Game, d: Deployment, output: nat -> B256, anchor: nat, struck: nat -> bool)

  /** The published data is that of the rollup. */
  ghost predicate TruthfulGame(f: Factory, i: nat) {
    f.games(i).Ours? &&
    (var p := f.games(i).proposal;
     && p.outputRoot == f.output(p.height)
     && (forall k :: 0 <= k < |p.io| ==> HashToFe(f.output(IoBlock(f.d, p, k))) == p.io[k])
     && (forall k :: 0 <= k < |p.trail| ==> p.trail[k] == 0))
  }

  predicate ChildOf(f: Factory, i: nat, parent: nat) {
    f.games(i).Ours? && f.games(i).proposal.parent == parent < i
  }

  predicate Siblings(f: Factory, i: nat, j: nat) {
    f.games(i).Ours? && ChildOf(f, i, f.games(i).proposal.parent) && ChildOf(f, j, f.games(i).proposal.parent)
  }

  // ---------------------------------------------------------------------------------------------
  // Tournaments
  // ---------------------------------------------------------------------------------------------

  /** The winner of a tournament: the first truthful child of a winner whose proposer stands. The anchor has won. */
  ghost predicate Winner(f: Factory, i: nat)
    decreases i, 4
  {
    i == f.anchor ||
    (i > f.anchor && f.games(i).Ours? &&
     (var parent := f.games(i).proposal.parent;
      && parent < i && Winner(f, parent) && TruthfulGame(f, i) && Stands(f, i)
      && forall j: nat :: j < i && Siblings(f, i, j) ==> !Winner(f, j)))
  }

  /** Nothing that the proposer published before has eliminated them. */
  ghost predicate Stands(f: Factory, i: nat)
    decreases i, 3
  {
    f.games(i).Ours? ==> forall j: nat :: j < i ==> !BlemishBy(f, f.games(i).proposal.proposer, j)
  }

  ghost predicate BlemishBy(f: Factory, a: Address, j: nat)
    decreases j, 2
  {
    Blemish(f, j) && f.games(j).proposal.proposer == a
  }

  /** A wrong child of a winner, published in time to oppose the winner among its siblings. */
  ghost predicate Blemish(f: Factory, j: nat)
    decreases j, 1
  {
    f.games(j).Ours? && f.games(j).proposal.parent < j &&
    (if f.games(j).proposal.parent < f.anchor then f.struck(j)
     else Winner(f, f.games(j).proposal.parent) && !TruthfulGame(f, j) && !Late(f, j))
  }

  /** The winner among the siblings went unopposed for too long already. */
  ghost predicate Late(f: Factory, j: nat)
    decreases j, 0
  {
    exists w: nat :: w < j && Siblings(f, j, w) && Winner(f, w)
                     && f.games(j).proposal.createdAt >= f.games(w).proposal.createdAt + f.d.timeout
  }

  ghost predicate FirstBlemish(f: Factory, a: Address, k: nat) {
    BlemishBy(f, a, k) && forall j: nat :: j < k ==> !BlemishBy(f, a, j)
  }

  lemma SoleWinner(f: Factory, i: nat, j: nat)
    requires Winner(f, i) && Winner(f, j) && Siblings(f, i, j) && i > f.anchor && j > f.anchor
    ensures i == j
  {
    assert Siblings(f, j, i);
  }

  /** The winners are one path: the child through which a later winner descends from an earlier one has won. */
  lemma {:induction false} WinnerBetween(f: Factory, a: nat, b: nat) returns (c: nat)
    requires Winner(f, a) && Winner(f, b) && a < b
    ensures a < c <= b && Winner(f, c) && ChildOf(f, c, a)
    decreases b
  {
    var parent := f.games(b).proposal.parent;
    c := b;
    if parent > a {
      c := WinnerBetween(f, a, parent);
    } else if parent < a {
      var e := WinnerBetween(f, parent, a);
      SoleWinner(f, b, e);
    }
  }

  /** A treasury with three children, of which the first is wrong and by the proposer of the second. */
  ghost predicate ThreeChildren(f: Factory) {
    forall i: nat :: f.games(i) ==
      if i < 4 then Ours(PlainProposal(i, 0, if i == 3 then 8 else 7, if i == 1 then 6 else 5)) else OtherType
  }

  /** After a wrong and a truthful child by one proposer and a truthful one by another, the last of the three wins. */
  lemma ThirdChildWins(f: Factory)
    requires f.anchor == 0 && f.d == Deployment(1, 1, 10) && f.output(1) == 5
    requires ThreeChildren(f)
    ensures Winner(f, 3) && !Winner(f, 2) && !Winner(f, 1) && FirstBlemish(f, 7, 1)
  {
    assert f.games(0).Ours? && f.games(1).Ours? && f.games(2).Ours? && f.games(3).Ours?;
    assert !TruthfulGame(f, 1) && TruthfulGame(f, 2) && TruthfulGame(f, 3);
    assert !Siblings(f, 1, 0);
    assert BlemishBy(f, 7, 1);
    assert !Winner(f, 2) && !Winner(f, 1);
    assert !BlemishBy(f, 8, 1) && !BlemishBy(f, 8, 2) && !BlemishBy(f, 8, 0) && Stands(f, 3);
    assert !Siblings(f, 3, 0);
  }

  // ---------------------------------------------------------------------------------------------
  // Fair states and fair worlds
  // ---------------------------------------------------------------------------------------------

  /** The tracked winners are the canonical proposals and those of the chain. */
  ghost predicate WinnerTracked(f: Factory, s: State, chain: seq<nat>, i: nat) {
    i in s.proposals ==>
      var p := s.proposals[i];
      && i >= f.anchor
      && (p.canonical == Some(true) ==> IsCorrect(p) == Some(true))
      && (p.canonical == Some(true) <==> Winner(f, i))
      && (i in chain <==> Winner(f, i))
  }

  /** A winner is forgotten only with everything before it. */
  ghost predicate WinnerKept(f: Factory, s: State, i: nat) {
    i < s.cursor.next && i !in s.proposals && Winner(f, i) ==> forall t: nat :: t in s.proposals ==> i < t
  }

  ghost predicate BlemishKnown(f: Factory, s: State, i: nat) {
    i < s.cursor.next && Blemish(f, i) && f.games(i).proposal.parent in s.proposals ==>
      f.games(i).proposal.proposer in s.eliminations
  }

  ghost predicate FairAt(f: Factory, s: State, chain: seq<nat>, i: nat) {
    WinnerTracked(f, s, chain, i) && WinnerKept(f, s, i) && BlemishKnown(f, s, i)
  }

  ghost predicate JustlyOut(f: Factory, s: State, a: Address) {
    a in s.eliminations ==> FirstBlemish(f, a, s.eliminations[a])
  }

  /** All of these games came after the anchor, and none is a treasury or the child of a winner. */
  ghost predicate Sidelined(f: Factory, indices: seq<nat>) {
    forall k :: 0 <= k < |indices| ==> OnSideline(f, indices[k])
  }

  ghost predicate OnSideline(f: Factory, i: nat) {
    i > f.anchor && (f.games(i).Ours? ==> f.games(i).proposal.parent < i && !Winner(f, f.games(i).proposal.parent))
  }

  ghost predicate Fair(f: Factory, s: State, chain: seq<nat>) {
    && (s.proposals == map[] ==> s.cursor.next == f.anchor)
    && (forall i: nat :: FairAt(f, s, chain, i))
    && (forall a: Address :: JustlyOut(f, s, a))
  }

  /** The anchor is resolved, so it is the treasury or truthful, and its proposer stands. */
  ghost predicate SoundAnchor(f: Factory) {
    f.games(f.anchor).Ours? && Stands(f, f.anchor) && (f.games(f.anchor).proposal.parent == f.anchor || TruthfulGame(f, f.anchor))
  }

  /** Only winners are resolved. */
  ghost predicate ResolvedWin(f: Factory, w: World) {
    forall i: nat :: i >= f.anchor && f.games(i).Ours? && w.resolvedAt(i) != 0 ==> Winner(f, i)
  }

  /** Proposers are eliminated for their first blemish. */
  ghost predicate RoundsJust(f: Factory, w: World) {
    forall a: Address :: w.round(a) != 0 ==> FirstBlemish(f, a, w.round(a))
  }

  /** When a tournament is resolved, it and those before it have eliminated whom they had to. */
  ghost predicate RoundsComplete(f: Factory, w: World) {
    forall j: nat, v: nat :: Blemish(f, j) && Winner(f, v) && f.games(j).proposal.parent < v && w.resolvedAt(v) != 0 ==>
      w.round(f.games(j).proposal.proposer) != 0
  }

  ghost predicate WinnersChild(f: Factory, i: nat) {
    f.games(i).Ours? && f.games(i).proposal.parent < i && Winner(f, f.games(i).proposal.parent)
  }

  /** The new children of winners that have been proposed so far are below the safe block. */
  ghost predicate ChildrenSafe(f: Factory, w: World, next: nat) {
    forall i: nat :: next <= i < w.gameCount && WinnersChild(f, i) ==> f.games(i).proposal.height < w.safe
  }

  /** The contracts have played the tournaments as far as they are resolved, and the rollup is as far as the proposals. */
  ghost predicate FairWorld(f: Factory, w: World, next: nat) {
    ResolvedWin(f, w) && RoundsJust(f, w) && RoundsComplete(f, w) && ChildrenSafe(f, w, next)
  }

  /** What the chains answer in one synchronization after the other: fair each time, with the anchor resolved and below
      the safe block, and no resolution ever withdrawn. */
  ghost predicate FairCourse(f: Factory, worlds: nat -> World) {
    && SoundAnchor(f)
    && (forall k: nat :: FairWorld(f, worlds(k), f.anchor) && AnchorKnown(f, worlds(k)))
    && (forall j: nat, k: nat :: j <= k ==> StaysResolved(worlds(j), worlds(k)))
  }

  ghost predicate StaysResolved(w: World, later: World) {
    forall i: nat :: w.resolvedAt(i) != 0 ==> later.resolvedAt(i) != 0
  }

  predicate AnchorKnown(f: Factory, w: World) {
    w.resolvedAt(f.anchor) != 0 && f.games(f.anchor).Ours? && f.games(f.anchor).proposal.height < w.safe
  }

  /** The tournament of three children is fair before it is played, and after its winner has been resolved. */
  lemma ThirdChildFair(f: Factory, w: World, played: bool)
    requires f.anchor == 0 && f.d == Deployment(1, 1, 10) && f.output(1) == 5 && ThreeChildren(f)
    requires w.gameCount > 1 ==> w.safe > 1
    requires forall i: nat :: w.resolvedAt(i) == if i == 0 || (played && i == 3) then 1 else 0
    requires forall a: Address :: w.round(a) == if played && a == 7 then 1 else 0
    ensures SoundAnchor(f) && FairWorld(f, w, 0)
  {
    ThirdChildWins(f);
    assert !BlemishBy(f, 8, 3) && f.games(0).Ours? && Stands(f, 0);
    forall i: nat ensures Blemish(f, i) ==> i == 1 {
      assert i >= 4 ==> f.games(i).OtherType?;
      assert TruthfulGame(f, 2) && TruthfulGame(f, 3);
    }
    forall i: nat | i < w.gameCount && WinnersChild(f, i) ensures f.games(i).proposal.height < w.safe {
      assert 0 < i < 4;
    }
  }

  /** The treasury alone, below a safe block at which its children could not be; later these, and then their winner. */
  function GrowingWorld(k: nat): World {
    if k == 0 then World(1, 1, i => true, a => 0, i => if i == 0 then 1 else 0)
    else if k == 1 then World(4, 2, i => true, a => 0, i => if i == 0 then 1 else 0)
    else World(4, 2, i => true, a => if a == 7 then 1 else 0, i => if i == 0 || i == 3 then 1 else 0)
  }

  lemma ThreeChildrenGames(f: Factory)
    requires f.d == Deployment(1, 1, 10) && ThreeChildren(f)
    ensures GoodGames(f.games, f.d)
  {
    forall i: nat, j: nat ensures GoodGame(f.games, f.d, i) && InTimeOrder(f.games, i, j) {
    }
  }

  lemma GrowingCourseFair(f: Factory)
    requires f.anchor == 0 && f.d == Deployment(1, 1, 10) && f.output(1) == 5 && ThreeChildren(f)
    ensures GoodGames(f.games, f.d) && FairCourse(f, GrowingWorld)
  {
    ThreeChildrenGames(f);
    forall k: nat ensures FairWorld(f, GrowingWorld(k), 0) && AnchorKnown(f, GrowingWorld(k)) && SoundAnchor(f) {
      ThirdChildFair(f, GrowingWorld(k), k > 1);
    }
    assert FairWorld(f, GrowingWorld(0), 0);
  }

  /** A rollup without end: every game is the correct child of the one before. */
  ghost predicate Endless(f: Factory) {
    f.anchor == 0 && f.d == Deployment(1, 1, 10) && (forall n: nat :: f.output(n) == 5) &&
    forall i: nat :: f.games(i) == Ours(PlainProposal(i, if i == 0 then 0 else i - 1, 7, 5).(height := i))
  }

  /** In the k-th synchronization there are games 0 to k, the last of them just below the safe block and unresolved. */
  function EndlessWorld(k: nat): World {
    World(k + 1, k + 1, i => true, a => 0, i => if i < k || i == 0 then 1 else 0)
  }

  lemma {:induction false} EndlessWins(f: Factory, i: nat)
    requires Endless(f)
    ensures Winner(f, i) && TruthfulGame(f, i)
  {
    assert f.games(i).Ours?;
    if i > 0 {
      EndlessWins(f, i - 1);
      forall j: nat ensures !Blemish(f, j) {
        assert TruthfulGame(f, j);
      }
      assert Stands(f, i);
      forall j: nat | j < i ensures !Siblings(f, i, j) {
        assert f.games(j).Ours?;
      }
    }
  }

  lemma EndlessGames(f: Factory)
    requires Endless(f)
    ensures GoodGames(f.games, f.d)
  {
    forall i: nat, j: nat ensures GoodGame(f.games, f.d, i) && InTimeOrder(f.games, i, j) {
    }
  }

  lemma EndlessCourseFair(f: Factory)
    requires Endless(f)
    ensures GoodGames(f.games, f.d) && FairCourse(f, EndlessWorld)
  {
    EndlessGames(f);
    assert f.games(0).Ours?;
    forall j: nat ensures !Blemish(f, j) && Winner(f, j) {
      EndlessWins(f, j);
    }
    forall k: nat ensures FairWorld(f, EndlessWorld(k), 0) && AnchorKnown(f, EndlessWorld(k)) {
    }
  }

  // ---------------------------------------------------------------------------------------------
  // Steps that store nothing
  // ---------------------------------------------------------------------------------------------

  lemma EliminationFair(f: Factory, s: State, chain: seq<nat>, proposer: Address, w: World)
    requires Fair(f, s, chain) && RoundsJust(f, w)
    ensures Fair(f, RecordElimination(s, proposer, w.round(proposer)), chain)
  {
    var t := RecordElimination(s, proposer, w.round(proposer));
    forall i: nat ensures FairAt(f, t, chain, i) {
      assert FairAt(f, s, chain, i);
    }
    forall a: Address ensures JustlyOut(f, t, a) {
      assert JustlyOut(f, s, a);
    }
  }

  lemma ParticipationFair(f: Factory, s: State, chain: seq<nat>, p: Proposal)
    requires Fair(f, s, chain)
    ensures Fair(f, Participate(s, f.d, p).0, chain)
  {
    var t := Participate(s, f.d, p).0;
    forall i: nat ensures FairAt(f, t, chain, i) {
      assert FairAt(f, s, chain, i);
    }
    forall a: Address ensures JustlyOut(f, t, a) {
      assert JustlyOut(f, s, a);
    }
  }

  /** The next game is no winner, and if it is a blemish of a tracked tournament, its proposer is known to be out. */
  ghost predicate Passable(f: Factory, s: State) {
    var i := s.cursor.next;
    !Winner(f, i) &&
    (Blemish(f, i) && f.games(i).proposal.parent in s.proposals ==> f.games(i).proposal.proposer in s.eliminations)
  }

  lemma AdvanceFair(f: Factory, s: State, chain: seq<nat>)
    requires Fair(f, s, chain) && s.proposals != map[] && Passable(f, s)
    ensures Fair(f, Advance(s), chain)
  {
    forall i: nat ensures FairAt(f, Advance(s), chain, i) {
      assert FairAt(f, s, chain, i);
    }
    forall a: Address ensures JustlyOut(f, Advance(s), a) {
      assert JustlyOut(f, s, a);
    }
  }

  /** Outputs, and cursors other than that of the next game, do not matter. */
  lemma CursorFair(f: Factory, s: State, t: State, chain: seq<nat>)
    requires Fair(f, s, chain) && t.proposals == s.proposals && t.eliminations == s.eliminations
    requires t.cursor.next == s.cursor.next
    ensures Fair(f, t, chain)
  {
    forall i: nat ensures FairAt(f, t, chain, i) {
      assert FairAt(f, s, chain, i);
    }
    forall a: Address ensures JustlyOut(f, t, a) {
      assert JustlyOut(f, s, a);
    }
  }

  /** The last resolved proposal is a tracked winner. */
  lemma LastResolvedWon(f: Factory, s: State, chain: seq<nat>)
    requires Inv(s, f.d, f.games, chain) && Fair(f, s, chain) && s.proposals != map[]
    ensures s.cursor.lastResolved in s.proposals && Winner(f, s.cursor.lastResolved)
    ensures f.anchor <= s.cursor.lastResolved < s.cursor.next
  {
    ChainAt(s.proposals, f.d, chain, PositionOf(chain, s.cursor.lastResolved));
    assert FairAt(f, s, chain, s.cursor.lastResolved) && EntryAt(s, f.games, s.cursor.lastResolved);
  }

  /** A winner's parent is tracked when the winner is next: forgotten parents have won children already. */
  lemma WinnerParentTracked(f: Factory, s: State, chain: seq<nat>)
    requires Inv(s, f.d, f.games, chain) && Fair(f, s, chain) && s.proposals != map[] && Winner(f, s.cursor.next)
    ensures f.games(s.cursor.next).Ours? && f.games(s.cursor.next).proposal.parent in s.proposals
  {
    LastResolvedWon(f, s, chain);
    var i, last := s.cursor.next, s.cursor.lastResolved;
    var parent := f.games(i).proposal.parent;
    if parent !in s.proposals {
      assert FairAt(f, s, chain, parent);
      var c := WinnerBetween(f, parent, last);
      SoleWinner(f, i, c);
    }
  }

  /** What the successor of a tracked proposal is: a winner among its children. */
  lemma SuccessorWon(f: Factory, s: State, chain: seq<nat>, parent: nat)
    requires Inv(s, f.d, f.games, chain) && Fair(f, s, chain) && GoodGames(f.games, f.d)
    requires parent in s.proposals && s.proposals[parent].successor.Some?
    ensures var j := s.proposals[parent].successor.value;
            && j in s.proposals && j < s.cursor.next && Winner(f, j) && ChildOf(f, j, parent)
            && s.proposals[j].createdAt == f.games(j).proposal.createdAt
  {
    var j := s.proposals[parent].successor.value;
    SuccessorPresent(s, f.d, f.games, chain, parent);
    var k := PositionOf(chain, parent);
    ChainAt(s.proposals, f.d, chain, k);
    assert FairAt(f, s, chain, j) && EntryAt(s, f.games, j) && Aside(s, chain, parent);
  }

  /** A tracked proposal's winning child is its successor. */
  lemma WonIsSuccessor(f: Factory, s: State, chain: seq<nat>, parent: nat, j: nat)
    requires Inv(s, f.d, f.games, chain) && Fair(f, s, chain)
    requires parent in s.proposals && j < s.cursor.next && Winner(f, j) && ChildOf(f, j, parent)
    ensures s.proposals[parent].successor == Some(j) && j in s.proposals
    ensures s.proposals[j].createdAt == f.games(j).proposal.createdAt
  {
    assert FairAt(f, s, chain, j) && FairAt(f, s, chain, parent) && EntryAt(s, f.games, j);
    EarlierOnChain(s, f.d, chain, parent, j);
    ChainAt(s.proposals, f.d, chain, PositionOf(chain, j) - 1);
  }

  lemma EarlierOnChain(s: State, d: Deployment, chain: seq<nat>, i: nat, j: nat)
    requires ChainOf(s.proposals, d, chain) && i in chain && j in chain && i < j
    ensures PositionOf(chain, i) < PositionOf(chain, j)
  {
    if PositionOf(chain, j) < PositionOf(chain, i) {
      ChainRises(s.proposals, d, chain, PositionOf(chain, j), PositionOf(chain, i));
    }
  }

  // ---------------------------------------------------------------------------------------------
  // Games that are passed over
  // ---------------------------------------------------------------------------------------------

  lemma NextIsLater(f: Factory, s: State, chain: seq<nat>)
    requires Inv(s, f.d, f.games, chain) && Fair(f, s, chain) && s.proposals != map[]
    ensures s.cursor.next > f.anchor
  {
    LastResolvedWon(f, s, chain);
  }

  /** A game that is no child of a winner cannot win, and its tournament is not tracked if it is a blemish. */
  lemma SidelinedPassable(f: Factory, s: State, chain: seq<nat>)
    requires Inv(s, f.d, f.games, chain) && Fair(f, s, chain) && s.proposals != map[] && !WinnersChild(f, s.cursor.next)
    ensures Passable(f, s)
  {
    NextIsLater(f, s, chain);
    var i := s.cursor.next;
    if f.games(i).Ours? {
      assert FairAt(f, s, chain, f.games(i).proposal.parent);
    }
  }

  lemma DanglingPassable(f: Factory, s: State, chain: seq<nat>)
    requires Inv(s, f.d, f.games, chain) && Fair(f, s, chain) && s.proposals != map[]
    requires f.games(s.cursor.next).Ours? ==> f.games(s.cursor.next).proposal.parent !in s.proposals
    ensures Passable(f, s)
  {
    NextIsLater(f, s, chain);
    if Winner(f, s.cursor.next) {
      WinnerParentTracked(f, s, chain);
    }
  }

  /** An unresolved game that does not take part has lost already, or comes too late. */
  lemma SkippedPassable(f: Factory, s: State, chain: seq<nat>, p: Proposal)
    requires Inv(s, f.d, f.games, chain) && Fair(f, s, chain) && GoodGames(f.games, f.d)
    requires NextGame(s, f.games, p) && p.parent in s.proposals && Decide(s, f.d, p) == Skip
    ensures Passable(f, s)
  {
    NextIsLater(f, s, chain);
    var i := s.cursor.next;
    assert GoodGame(f.games, f.d, i) && EntryAt(s, f.games, p.parent) && FairAt(f, s, chain, p.parent);
    if EliminatedBefore(s, p) {
      assert JustlyOut(f, s, p.proposer);
    } else if s.proposals[p.parent].canonical == Some(true) {
      var j := s.proposals[p.parent].successor.value;
      SuccessorWon(f, s, chain, p.parent);
      assert Siblings(f, i, j) && Late(f, i);
    }
  }

  // ---------------------------------------------------------------------------------------------
  // Storing
  // ---------------------------------------------------------------------------------------------

  /** What assessment against true outputs finds of a game. */
  lemma JudgedTruthful(f: Factory, outputs: map<nat, B256>, parent: Option<Proposal>, p: Proposal, i: nat)
    requires TrueOutputs(outputs, f.output) && f.games(i).Ours? && GoodGame(f.games, f.d, i)
    requires p == f.games(i).proposal.(resolvedAt := p.resolvedAt) && p.parent < i
    requires Assess(outputs, f.d, parent, p).Judged?
    ensures var q := Assess(outputs, f.d, parent, p).proposal;
            IsCorrect(q) == Some(TruthfulGame(f, i) && ParentVerdict(parent, p) == Some(true))
  {
    var q := Assess(outputs, f.d, parent, p).proposal;
    assert Fetched(outputs, f.d, p);
    if |p.io| < |p.correctIo| {
      assert q.correctIo[|p.io|].None?;
    }
    if IsCorrect(q) == Some(true) {
      forall k | 0 <= k < |p.io| ensures HashToFe(f.output(IoBlock(f.d, p, k))) == p.io[k] {
        assert q.correctIo[k] != Some(false);
      }
      forall k | 0 <= k < |p.trail| ensures p.trail[k] == 0 {
        assert q.correctTrail[k] != Some(false);
      }
    }
    if TruthfulGame(f, i) {
      forall k | 0 <= k < |p.io| ensures q.correctIo[k] == Some(true) {
        assert IoBlock(f.d, p, k) in outputs;
      }
    }
  }

  /** A game that takes part: it is resolved, or its parent is canonical and its siblings' winner was not left alone. */
  ghost predicate TakesPart(f: Factory, s: State, p: Proposal) {
    s.proposals != map[] ==>
      && p.parent in s.proposals && HasParent(p)
      && (p.resolvedAt == 0 ==> Decide(s, f.d, p) == Take)
      && (p.resolvedAt != 0 ==> Winner(f, s.cursor.next))
  }

  /** A game that takes part is found correct exactly if it is truthful. */
  lemma StoredTruthful(f: Factory, s: State, chain: seq<nat>, p: Proposal)
    requires Inv(s, f.d, f.games, chain) && Fair(f, s, chain) && TrueOutputs(s.outputs, f.output)
    requires GoodGames(f.games, f.d) && NextGame(s, f.games, p) && Loadable(p) && ToStore(s, f.d, p).Some?
    requires HasParent(p) && TakesPart(f, s, p)
    ensures IsCorrect(ToStore(s, f.d, p).value) == Some(TruthfulGame(f, s.cursor.next))
  {
    assert GoodGame(f.games, f.d, s.cursor.next);
    JudgedTruthful(f, s.outputs, ParentOf(s, p), p, s.cursor.next);
    if p.resolvedAt == 0 {
      assert FairAt(f, s, chain, p.parent);
    }
  }

  /** No blemish of the proposer goes unnoticed. */
  lemma UnblemishedIfIn(f: Factory, s: State, chain: seq<nat>, w: World, a: Address)
    requires Inv(s, f.d, f.games, chain) && Fair(f, s, chain) && s.proposals != map[] && RoundsComplete(f, w)
    requires w.resolvedAt(s.cursor.lastResolved) != 0 && a !in s.eliminations && w.round(a) == 0
    ensures forall j: nat :: j < s.cursor.next ==> !BlemishBy(f, a, j)
  {
    LastResolvedWon(f, s, chain);
    forall j: nat | j < s.cursor.next ensures !BlemishBy(f, a, j) {
      if f.games(j).Ours? {
        assert FairAt(f, s, chain, j) && FairAt(f, s, chain, f.games(j).proposal.parent);
      }
    }
  }

  /** Whoever is not known to be out before the next game stands. */
  lemma StandsIfNotOut(f: Factory, s: State, chain: seq<nat>, w: World, p: Proposal)
    requires Inv(s, f.d, f.games, chain) && Fair(f, s, chain) && s.proposals != map[] && RoundsComplete(f, w)
    requires w.resolvedAt(s.cursor.lastResolved) != 0 && NextGame(s, f.games, p) && p.index == s.cursor.next
    requires p.proposer in s.eliminations || w.round(p.proposer) == 0
    ensures Stands(f, s.cursor.next) <==> !EliminatedBefore(s, p)
  {
    if p.proposer in s.eliminations {
      assert JustlyOut(f, s, p.proposer);
    } else {
      UnblemishedIfIn(f, s, chain, w, p.proposer);
    }
  }

  /** When a winner is next, its parent is the tip. */
  lemma WinnerParentIsTip(f: Factory, s: State, chain: seq<nat>)
    requires Inv(s, f.d, f.games, chain) && Fair(f, s, chain) && s.proposals != map[] && GoodGames(f.games, f.d)
    requires Winner(f, s.cursor.next)
    ensures f.games(s.cursor.next).Ours? && f.games(s.cursor.next).proposal.parent == s.cursor.tip
  {
    NextIsLater(f, s, chain);
    WinnerParentTracked(f, s, chain);
    var i := s.cursor.next;
    var parent := f.games(i).proposal.parent;
    assert FairAt(f, s, chain, parent);
    var k := PositionOf(chain, parent);
    if k + 1 < |chain| {
      ChainAt(s.proposals, f.d, chain, k);
      SuccessorWon(f, s, chain, parent);
      SoleWinner(f, i, chain[k + 1]);
    }
  }

  /** What is about to be stored is canonical exactly if it is a winner. */
  lemma CanonicalIffWinner(f: Factory, s: State, chain: seq<nat>, w: World, p: Proposal)
    requires Inv(s, f.d, f.games, chain) && Fair(f, s, chain) && TrueOutputs(s.outputs, f.output)
    requires GoodGames(f.games, f.d) && NextGame(s, f.games, p) && Loadable(p) && ToStore(s, f.d, p).Some?
    requires s.proposals != map[] && TakesPart(f, s, p)
    requires RoundsComplete(f, w) && w.resolvedAt(s.cursor.lastResolved) != 0
    requires p.proposer in s.eliminations || w.round(p.proposer) == 0
    ensures ToStore(s, f.d, p).value.canonical == Some(Winner(f, s.cursor.next))
  {
    var i, q := s.cursor.next, ToStore(s, f.d, p).value;
    assert GoodGame(f.games, f.d, i) && EntryAt(s, f.games, p.parent) && FairAt(f, s, chain, p.parent);
    NextIsLater(f, s, chain);
    JudgedIsSameGame(s.outputs, f.d, ParentOf(s, p), p);
    StoredTruthful(f, s, chain, p);
    StandsIfNotOut(f, s, chain, w, p);
    if Winner(f, i) {
      WinnerParentIsTip(f, s, chain);
      BlocksPositive(f.d);
    } else if q.canonical == Some(true) {
      CanonicalWins(f, s, chain, p, q);
    }
  }

  lemma CanonicalWins(f: Factory, s: State, chain: seq<nat>, p: Proposal, q: Proposal)
    requires Inv(s, f.d, f.games, chain) && Fair(f, s, chain) && GoodGames(f.games, f.d) && s.proposals != map[]
    requires NextGame(s, f.games, p) && SameGame(q, p) && q.index == s.cursor.next && p.parent in s.proposals
    requires TruthfulGame(f, s.cursor.next) && Stands(f, s.cursor.next) && Winner(f, p.parent) && HasParent(p)
    requires CanonicalTip(s).None? || CanonicalTip(s).value.height < q.height
    ensures Winner(f, s.cursor.next)
  {
    var i := s.cursor.next;
    assert GoodGame(f.games, f.d, i) && EntryAt(s, f.games, p.parent) && FairAt(f, s, chain, p.parent);
    NextIsLater(f, s, chain);
    forall j: nat | j < i && Siblings(f, i, j) ensures !Winner(f, j) {
      assert GoodGame(f.games, f.d, j);
      if Winner(f, j) {
        WonIsSuccessor(f, s, chain, p.parent, j);
        TipAbove(f, s, chain, p.parent, j);
      }
    }
  }

  /** The tip is at least as high as the child of a tracked proposal on the chain. */
  lemma TipAbove(f: Factory, s: State, chain: seq<nat>, parent: nat, j: nat)
    requires Inv(s, f.d, f.games, chain) && GoodGames(f.games, f.d) && ChildOf(f, j, parent)
    requires parent in s.proposals && s.proposals[parent].successor == Some(j)
    ensures CanonicalTip(s).Some? && f.games(j).proposal.height <= CanonicalTip(s).value.height
  {
    SuccessorPresent(s, f.d, f.games, chain, parent);
    assert EntryAt(s, f.games, j);
    ChainAt(s.proposals, f.d, chain, |chain| - 1);
    if j != s.cursor.tip {
      TipPosition(s, f.d, f.games, chain, j);
    }
  }

  lemma BlocksPositive(d: Deployment)
    requires d.outputCount > 0 && d.span > 0
    ensures BlocksPerProposal(d) > 0
  {
  }

  /** A wrong game that takes part is in time, so it is a blemish. */
  lemma WrongIsBlemish(f: Factory, s: State, chain: seq<nat>, p: Proposal)
    requires Inv(s, f.d, f.games, chain) && Fair(f, s, chain) && GoodGames(f.games, f.d) && s.proposals != map[]
    requires NextGame(s, f.games, p) && TakesPart(f, s, p) && !TruthfulGame(f, s.cursor.next)
    ensures Blemish(f, s.cursor.next)
  {
    var i := s.cursor.next;
    assert GoodGame(f.games, f.d, i) && EntryAt(s, f.games, p.parent) && FairAt(f, s, chain, p.parent);
    NextIsLater(f, s, chain);
    if Late(f, i) {
      var j: nat :| j < i && Siblings(f, i, j) && Winner(f, j)
                    && f.games(i).proposal.createdAt >= f.games(j).proposal.createdAt + f.d.timeout;
      WonIsSuccessor(f, s, chain, p.parent, j);
    }
  }

  /** What is known of a proposal that is about to be stored. */
  ghost predicate StoredFairly(f: Factory, s: State, q: Proposal) {
    if s.proposals == map[] then q.canonical == Some(true) && IsCorrect(q) == Some(true)
    else
      && q.canonical == Some(Winner(f, q.index)) && (Winner(f, q.index) ==> IsCorrect(q) == Some(true))
      && (Blemish(f, q.index) <==> IsCorrect(q) == Some(false))
      && (q.proposer !in s.eliminations ==> forall j: nat :: j < q.index ==> !BlemishBy(f, q.proposer, j))
  }

  lemma ToStoreFair(f: Factory, s: State, chain: seq<nat>, w: World, p: Proposal)
    requires Inv(s, f.d, f.games, chain) && Fair(f, s, chain) && TrueOutputs(s.outputs, f.output)
    requires GoodGames(f.games, f.d) && NextGame(s, f.games, p) && Loadable(p) && ToStore(s, f.d, p).Some?
    requires s.proposals != map[] && TakesPart(f, s, p)
    requires RoundsComplete(f, w) && w.resolvedAt(s.cursor.lastResolved) != 0
    requires p.proposer in s.eliminations || w.round(p.proposer) == 0
    ensures StoredFairly(f, s, ToStore(s, f.d, p).value)
  {
    assert GoodGame(f.games, f.d, s.cursor.next) && EntryAt(s, f.games, p.parent) && FairAt(f, s, chain, p.parent);
    JudgedIsSameGame(s.outputs, f.d, ParentOf(s, p), p);
    StoredTruthful(f, s, chain, p);
    CanonicalIffWinner(f, s, chain, w, p);
    NextIsLater(f, s, chain);
    if !TruthfulGame(f, s.cursor.next) {
      WrongIsBlemish(f, s, chain, p);
    }
    if p.proposer !in s.eliminations {
      UnblemishedIfIn(f, s, chain, w, p.proposer);
    }
  }

  /** The anchor is found canonical. */
  lemma AnchorFair(f: Factory, s: State, chain: seq<nat>, p: Proposal)
    requires Inv(s, f.d, f.games, chain) && Fair(f, s, chain) && TrueOutputs(s.outputs, f.output) && SoundAnchor(f)
    requires GoodGames(f.games, f.d) && NextGame(s, f.games, p) && Loadable(p) && ToStore(s, f.d, p).Some?
    requires s.proposals == map[]
    ensures StoredFairly(f, s, ToStore(s, f.d, p).value)
  {
    assert GoodGame(f.games, f.d, f.anchor) && JustlyOut(f, s, p.proposer);
    JudgedIsSameGame(s.outputs, f.d, ParentOf(s, p), p);
    if HasParent(p) {
      JudgedTruthful(f, s.outputs, ParentOf(s, p), p, f.anchor);
    }
  }

  lemma NextNotOnChain(s: State, d: Deployment, games: nat -> Game, chain: seq<nat>)
    requires Inv(s, d, games, chain)
    ensures s.cursor.next !in chain && s.cursor.next !in s.proposals
  {
    assert EntryAt(s, games, s.cursor.next);
    if s.cursor.next in chain {
      ChainAt(s.proposals, d, chain, PositionOf(chain, s.cursor.next));
    }
  }

  lemma StoredFair(f: Factory, s: State, chain: seq<nat>, q: Proposal)
    requires Inv(s, f.d, f.games, chain) && Fair(f, s, chain) && Storable(s, f.games, chain, q) && StoredFairly(f, s, q)
    ensures Fair(f, Stored(s, q), ChainAfter(s, chain, q))
  {
    var t, longer := Stored(s, q), ChainAfter(s, chain, q);
    NextNotOnChain(s, f.d, f.games, chain);
    if s.proposals != map[] {
      NextIsLater(f, s, chain);
    }
    forall i: nat ensures FairAt(f, t, longer, i) {
      assert FairAt(f, s, chain, i);
      StoredFairAt(f, s, chain, q, i);
    }
    forall a: Address ensures JustlyOut(f, t, a) {
      assert JustlyOut(f, s, a);
    }
  }

  lemma StoredFairAt(f: Factory, s: State, chain: seq<nat>, q: Proposal, i: nat)
    requires FairAt(f, s, chain, i) && StoredFairly(f, s, q) && Entry(q, f.games, q.index)
    requires q.index == s.cursor.next >= f.anchor && (s.proposals == map[] ==> q.index == f.anchor && chain == [])
    requires q.index !in chain && q.index !in s.proposals
    ensures FairAt(f, Stored(s, q), ChainAfter(s, chain, q), i)
  {
    var t, longer := Stored(s, q), ChainAfter(s, chain, q);
    assert q.index in t.proposals && (i in longer <==> i in chain || (i == q.index && q.canonical == Some(true)));
    assert i != q.index ==> (i in t.proposals <==> i in s.proposals);
  }

  // ---------------------------------------------------------------------------------------------
  // A whole round
  // ---------------------------------------------------------------------------------------------

  /** What processing the next game leaves behind is fair. */
  ghost predicate ProcessedFairly(f: Factory, s: State, chain: seq<nat>, p: Proposal, t: State, outcome: Outcome) {
    if outcome == Success then
      p.index in t.proposals &&
      Fair(f, Advance(FollowUp(t, t.proposals[p.index])), ChainAfter(s, chain, t.proposals[p.index]))
    else Fair(f, t, chain) && (outcome == Ignored ==> Passable(f, t))
  }

  lemma AssessAndStoreFair(f: Factory, s: State, chain: seq<nat>, w: World, p: Proposal)
    requires Inv(s, f.d, f.games, chain) && Fair(f, s, chain) && TrueOutputs(s.outputs, f.output) && SoundAnchor(f)
    requires GoodGames(f.games, f.d) && NextGame(s, f.games, p) && Loadable(p) && TakesPart(f, s, p)
    requires s.proposals != map[] ==> RoundsComplete(f, w) && w.resolvedAt(s.cursor.lastResolved) != 0
    requires p.proposer in s.eliminations || w.round(p.proposer) == 0
    ensures var r := AssessAndStore(s, f.d, p);
            ProcessedFairly(f, s, chain, p, r.0, r.1)
  {
    assert GoodGame(f.games, f.d, s.cursor.next) && FairAt(f, s, chain, p.parent);
    if s.proposals != map[] {
      NextIsLater(f, s, chain);
    }
    AssessAndStoreKeeps(s, f.d, f.games, chain, p);
    if ToStore(s, f.d, p).Some? {
      if s.proposals == map[] {
        AnchorFair(f, s, chain, p);
      } else {
        ToStoreFair(f, s, chain, w, p);
      }
      StoredFair(f, s, chain, ToStore(s, f.d, p).value);
    }
  }

  /** Only winners are resolved, so a resolved game extends the chain. */
  lemma ResolvedExtends(f: Factory, s: State, chain: seq<nat>, w: World, p: Proposal)
    requires Inv(s, f.d, f.games, chain) && Fair(f, s, chain) && NextGame(s, f.games, p)
    requires ResolvedWin(f, w) && p.resolvedAt == w.resolvedAt(s.cursor.next)
    ensures Extends(s, chain, p)
    ensures p.resolvedAt != 0 && s.proposals != map[] ==> Winner(f, s.cursor.next)
  {
    if s.proposals != map[] {
      NextIsLater(f, s, chain);
      assert FairAt(f, s, chain, p.parent);
    }
  }

  /** Processing the next game is fair. */
  lemma SyncLoadedFair(f: Factory, s: State, chain: seq<nat>, w: World, p: Proposal)
    requires Inv(s, f.d, f.games, chain) && Fair(f, s, chain) && TrueOutputs(s.outputs, f.output) && SoundAnchor(f)
    requires GoodGames(f.games, f.d) && NextGame(s, f.games, p) && Loadable(p) && FairWorld(f, w, s.cursor.next)
    requires p.resolvedAt == w.resolvedAt(s.cursor.next) && (s.proposals != map[] ==> w.resolvedAt(s.cursor.lastResolved) != 0)
    ensures Extends(s, chain, p)
    ensures var r := SyncLoaded(s, f.d, p, w.round(p.proposer));
            ProcessedFairly(f, s, chain, p, r.0, r.1)
  {
    ResolvedExtends(f, s, chain, w, p);
    if s.proposals != map[] && p.parent !in s.proposals {
      DanglingPassable(f, s, chain);
    } else {
      var t := RecordElimination(s, p.proposer, w.round(p.proposer));
      EliminationFair(f, s, chain, p.proposer, w);
      EliminationRecorded(s, f.d, f.games, chain, p, w.round(p.proposer));
      if t.cursor.lastOutput + f.d.span >= p.height {
        TookPartFair(f, t, chain, w, p);
      }
    }
  }

  lemma TookPartFair(f: Factory, s: State, chain: seq<nat>, w: World, p: Proposal)
    requires Inv(s, f.d, f.games, chain) && Fair(f, s, chain) && TrueOutputs(s.outputs, f.output) && SoundAnchor(f)
    requires GoodGames(f.games, f.d) && NextGame(s, f.games, p) && Loadable(p) && Extends(s, chain, p)
    requires s.proposals != map[] ==> p.parent in s.proposals
    requires s.proposals != map[] ==> RoundsComplete(f, w) && w.resolvedAt(s.cursor.lastResolved) != 0
    requires p.resolvedAt != 0 && s.proposals != map[] ==> Winner(f, s.cursor.next)
    requires p.proposer in s.eliminations || w.round(p.proposer) == 0
    ensures var r := EnterTournament(s, f.d, p);
            ProcessedFairly(f, s, chain, p, r.0, r.1)
  {
    assert GoodGame(f.games, f.d, s.cursor.next) && EntryAt(s, f.games, s.cursor.next);
    ParticipationKeeps(s, f.d, f.games, chain, p);
    ParticipationFair(f, s, chain, p);
    var (t, decision) := Participate(s, f.d, p);
    assert t.proposals == map[] <==> s.proposals == map[];
    if decision == Skip {
      SkippedPassable(f, t, chain, p);
    } else if decision == Take {
      AssessAndStoreFair(f, t, chain, w, p);
    }
  }

  /** A delayed game on the sidelines is not stored. */
  lemma SidelinedFair(f: Factory, s: State, chain: seq<nat>, w: World, p: Proposal)
    requires Inv(s, f.d, f.games, chain) && Fair(f, s, chain) && s.proposals != map[] && Loadable(p)
    requires ResolvedWin(f, w) && RoundsJust(f, w) && GoodGame(f.games, f.d, p.index)
    requires OnSideline(f, p.index) && f.games(p.index).Ours?
    requires p == f.games(p.index).proposal.(resolvedAt := w.resolvedAt(p.index))
    ensures var r := SyncLoaded(s, f.d, p, w.round(p.proposer));
            && Fair(f, r.0, chain) && r.0.cursor == s.cursor && (r.1 == Ignored || r.1.Delayed?)
  {
    EliminationFair(f, s, chain, p.proposer, w);
    var t := RecordElimination(s, p.proposer, w.round(p.proposer));
    ParticipationFair(f, t, chain, p);
    assert FairAt(f, s, chain, p.parent);
  }

  /** Resolving and pruning is fair: of the winners those from the last resolved one on are left. */
  lemma ResolvePruneFair(f: Factory, s: State, chain: seq<nat>, index: nat, resolvedAt: nat)
    requires Inv(s, f.d, f.games, chain) && Fair(f, s, chain) && index in s.proposals && index in chain
    ensures Fair(f, Prune(Resolve(s, index, resolvedAt), f.d), chain[PositionOf(chain, index)..])
  {
    var t, k := Prune(Resolve(s, index, resolvedAt), f.d), PositionOf(chain, index);
    assert index in t.proposals;
    forall i: nat ensures FairAt(f, t, chain[k..], i) {
      assert FairAt(f, s, chain, i);
      if i in chain {
        var j := PositionOf(chain, i);
        ChainCut(s.proposals, f.d, chain, j, k);
        if j >= k {
          assert chain[k..][j - k] == i;
        }
      }
    }
    forall a: Address ensures JustlyOut(f, t, a) {
      assert JustlyOut(f, s, a);
    }
  }
}
