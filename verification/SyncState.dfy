/** What processing one game does to the tracked state (crates/sync/src/agent.rs, crates/sync/src/cursor.rs). */
module SyncState {
  import opened Common
  import opened Proposals

  /** Pointers to the latest synchronized items. */
  datatype Cursor = Cursor(tip: nat, next: nat, delayed: seq<nat>, lastOutput: nat, lastResolved: nat)

  predicate HasNext(c: Cursor, gameCount: nat) {
    c.delayed != [] || c.next < gameCount
  }

  function NextIndex(c: Cursor): (nat, Cursor) {
    if c.delayed == [] then (c.next, c) else (c.delayed[0], c.(delayed := c.delayed[1..]))
  }

  function LoadDelayed(c: Cursor, indices: seq<nat>): Cursor {
    c.(delayed := indices + c.delayed)
  }

  datatype State = State(
    cursor: Cursor, outputs: map<nat, B256>, proposals: map<nat, Proposal>, eliminations: map<Address, nat>)

  /** A factory entry: of another type, of another deployment, or a game of this one as it is before assessment. */
  datatype Game = OtherType | Foreign | Ours(proposal: Proposal)

  /** What processing a game comes to; an aborted synchronization ends at once. */
  datatype Outcome = Ignored | Delayed(block: nat) | Success | Failed | Aborted | Panicked

  /** What the chains answer during one synchronization: the number of games, the safe block, which games load, the
      elimination round of a proposer, and when a game was resolved (zero while it is not). */
  datatype World = World(gameCount: nat, safe: nat, loads: nat -> bool, round: Address -> nat, resolvedAt: nat -> nat)

  datatype Decision = Take | Skip | Crash

  function CanonicalTip(s: State): Option<Proposal> {
    if s.cursor.tip in s.proposals then Some(s.proposals[s.cursor.tip]) else None
  }

  predicate EliminatedBefore(s: State, p: Proposal) {
    p.proposer in s.eliminations && s.eliminations[p.proposer] < p.index
  }

  function ParentOf(s: State, p: Proposal): Option<Proposal> {
    if p.parent in s.proposals then Some(s.proposals[p.parent]) else None
  }

  /** The first elimination index of a proposer stays. */
  function RecordElimination(s: State, proposer: Address, round: nat): State {
    if proposer in s.eliminations || round == 0 then s
    else s.(eliminations := s.eliminations[proposer := round])
  }

  function AppendChild(s: State, parent: nat, child: nat): State
    requires parent in s.proposals
  {
    var p := s.proposals[parent];
    s.(proposals := s.proposals[parent := p.(children := p.children + {child})])
  }

  /** The checks on a parent that is tracked; a missing successor or an earlier timestamp crashes. */
  function Decide(s: State, d: Deployment, p: Proposal): Decision
    requires p.parent in s.proposals
  {
    var parent := s.proposals[p.parent];
    if EliminatedBefore(s, p) then Skip
    else if parent.canonical != Some(true) then Skip
    else if parent.successor.None? then Take
    else if parent.successor.value !in s.proposals then Crash
    else
      var successor := s.proposals[parent.successor.value];
      if p.createdAt < successor.createdAt then Crash
      else if p.createdAt - successor.createdAt >= d.timeout then Skip
      else Take
  }

  function Participate(s: State, d: Deployment, p: Proposal): (State, Decision) {
    if !HasParent(p) || p.resolvedAt != 0 then (s, Take)
    else if p.parent !in s.proposals then (s, Skip)
    else var t := AppendChild(s, p.parent, p.index); (t, Decide(t, d, p))
  }

  /** A correct proposal of a proposer in good standing is canonical if it is higher than the tip. */
  function IfCanonical(s: State, p: Proposal): Option<bool> {
    if IsCorrect(p).None? then None
    else Some(IsCorrect(p).value && !EliminatedBefore(s, p)
              && (CanonicalTip(s).None? || CanonicalTip(s).value.height < p.height))
  }

  function Store(s: State, p: Proposal): State {
    var proposals :=
      if p.canonical == Some(true) && p.parent in s.proposals then
        s.proposals[p.parent := s.proposals[p.parent].(successor := Some(p.index))]
      else s.proposals;
    s.(proposals := proposals[p.index := p])
  }

  function AssessAndStore(s: State, d: Deployment, p: Proposal): (State, Outcome)
    requires Loadable(p)
  {
    match Assess(s.outputs, d, ParentOf(s, p), p)
    case Bail => (s, Failed)
    case Panic => (s, Panicked)
    case Judged(q) =>
      var canonical := IfCanonical(s, q);
      if canonical.None? then (s, Failed) else (Store(s, q.(canonical := canonical)), Success)
  }

  function SyncLoaded(s: State, d: Deployment, p: Proposal, round: nat): (State, Outcome)
    requires Loadable(p)
  {
    if s.proposals != map[] && p.parent !in s.proposals then (s, Ignored)
    else
      var t := RecordElimination(s, p.proposer, round);
      if t.cursor.lastOutput + d.span < p.height then (t, Delayed(p.height)) else EnterTournament(t, d, p)
  }

  function EnterTournament(s: State, d: Deployment, p: Proposal): (State, Outcome)
    requires Loadable(p)
  {
    var (t, decision) := Participate(s, d, p);
    match decision
    case Skip => (t, Ignored)
    case Crash => (t, Panicked)
    case Take => AssessAndStore(t, d, p)
  }

  /** After a proposal was stored: move the tip and the resolution cursor, or record an elimination. */
  function FollowUp(s: State, p: Proposal): State {
    if p.canonical == Some(true) then
      s.(cursor := s.cursor.(tip := p.index, lastResolved := if p.resolvedAt != 0 then p.index else s.cursor.lastResolved))
    else if IsCorrect(p) == Some(false) then
      if p.proposer in s.eliminations then s else s.(eliminations := s.eliminations[p.proposer := p.index])
    else s
  }

  function Advance(s: State): State {
    s.(cursor := s.cursor.(next := s.cursor.next + 1))
  }

  /** Only a game that was not delayed moves the agent on to the next index. */
  function MovedPast(s: State, index: nat): State {
    if index == s.cursor.next then Advance(s) else s
  }

  // ---------------------------------------------------------------------------------------------
  // What the chain guarantees
  // ---------------------------------------------------------------------------------------------

  predicate Fresh(p: Proposal) {
    p.children == {} && p.successor.None? && p.canonical.None?
  }

  /** A game is as loaded, without verdicts on its outputs; it knows its index, and is one proposal higher than its
      parent; the treasury has no parent. */
  predicate GoodGame(games: nat -> Game, d: Deployment, i: nat) {
    games(i).Ours? ==>
      var p := games(i).proposal;
      && p.index == i && Fresh(p) && Loadable(p) && p.parent <= i
      && (p.parent == i ==> IsCorrect(p) == Some(true))
      && (p.parent < i ==> forall k :: 0 <= k < |p.correctIo| ==> p.correctIo[k].None?)
      && (p.parent < i && games(p.parent).Ours? ==> p.height == games(p.parent).proposal.height + BlocksPerProposal(d))
  }

  predicate InTimeOrder(games: nat -> Game, i: nat, j: nat) {
    i <= j && games(i).Ours? && games(j).Ours? ==> games(i).proposal.createdAt <= games(j).proposal.createdAt
  }

  ghost predicate GoodGames(games: nat -> Game, d: Deployment) {
    && d.outputCount > 0 && d.span > 0
    && (forall i: nat :: GoodGame(games, d, i))
    && (forall i: nat, j: nat :: InTimeOrder(games, i, j))
  }

  // ---------------------------------------------------------------------------------------------
  // The invariant
  // ---------------------------------------------------------------------------------------------

  predicate SameGame(p: Proposal, g: Proposal) {
    && p.index == g.index && p.parent == g.parent && p.proposer == g.proposer
    && p.createdAt == g.createdAt && p.height == g.height
  }

  /** A stored proposal is decided, and is the game of its index. */
  predicate Entry(p: Proposal, games: nat -> Game, i: nat) {
    games(i).Ours? && SameGame(p, games(i).proposal) && IsCorrect(p).Some? && p.canonical.Some?
  }

  predicate EntryAt(s: State, games: nat -> Game, i: nat) {
    i in s.proposals ==> Entry(s.proposals[i], games, i) && i < s.cursor.next
  }

  ghost predicate Tracks(s: State, games: nat -> Game) {
    forall i: nat :: EntryAt(s, games, i)
  }

  predicate Link(proposals: map<nat, Proposal>, d: Deployment, a: nat, b: nat) {
    && a in proposals && b in proposals && a < b
    && proposals[a].successor == Some(b) && proposals[b].parent == a
    && proposals[b].height == proposals[a].height + BlocksPerProposal(d)
    && proposals[b].canonical == Some(true)
  }

  /** Each proposal of the chain is the successor and child of the one before it. */
  predicate ChainOf(proposals: map<nat, Proposal>, d: Deployment, chain: seq<nat>)
    decreases |chain|
  {
    chain == [] ||
    (var n := |chain| - 1;
     && chain[n] in proposals
     && (n > 0 ==> Link(proposals, d, chain[n - 1], chain[n]))
     && ChainOf(proposals, d, chain[..n]))
  }

  predicate Aside(s: State, chain: seq<nat>, i: nat) {
    i in s.proposals && i !in chain ==> s.proposals[i].successor.None? && s.proposals[i].canonical == Some(false)
  }

  /** Whatever is not on the chain is not canonical and has no successor. */
  ghost predicate OthersAside(s: State, chain: seq<nat>) {
    forall i: nat :: Aside(s, chain, i)
  }

  /** Before the anchor is stored all cursors point at it; then the chain ends at the tip and holds the last resolved. */
  ghost predicate Inv(s: State, d: Deployment, games: nat -> Game, chain: seq<nat>) {
    && Tracks(s, games) && OthersAside(s, chain) && ChainOf(s.proposals, d, chain)
    && (if s.proposals == map[] then chain == [] && s.cursor.tip == s.cursor.lastResolved == s.cursor.next
        else
          && chain != [] && chain[|chain| - 1] == s.cursor.tip && s.cursor.lastResolved in chain
          && s.proposals[s.cursor.tip].successor.None?)
  }

  // ---------------------------------------------------------------------------------------------
  // Facts about chains
  // ---------------------------------------------------------------------------------------------

  function PositionOf(chain: seq<nat>, index: nat): (k: nat)
    requires index in chain
    ensures k < |chain| && chain[k] == index
  {
    if chain[0] == index then 0 else 1 + PositionOf(chain[1..], index)
  }

  lemma {:induction false} ChainAt(proposals: map<nat, Proposal>, d: Deployment, chain: seq<nat>, k: nat)
    requires ChainOf(proposals, d, chain) && k < |chain|
    ensures chain[k] in proposals
    ensures k + 1 < |chain| ==> Link(proposals, d, chain[k], chain[k + 1])
    decreases |chain|
  {
    var n := |chain| - 1;
    if k < n {
      ChainAt(proposals, d, chain[..n], k);
    }
  }

  /** Along the chain index and height rise strictly, the height by a proposal's blocks at least. */
  lemma {:induction false} ChainRises(proposals: map<nat, Proposal>, d: Deployment, chain: seq<nat>, j: nat, k: nat)
    requires ChainOf(proposals, d, chain) && j < k < |chain|
    ensures chain[j] in proposals && chain[k] in proposals && chain[j] < chain[k]
    ensures proposals[chain[j]].height + BlocksPerProposal(d) <= proposals[chain[k]].height
    decreases k
  {
    ChainAt(proposals, d, chain, k - 1);
    if j < k - 1 {
      ChainRises(proposals, d, chain, j, k - 1);
    }
  }

  /** What of a proposal matters to the chain is the same in both. */
  predicate Kept(s: map<nat, Proposal>, t: map<nat, Proposal>, i: nat, withSuccessor: bool) {
    && i in s && i in t && t[i].parent == s[i].parent && t[i].height == s[i].height && t[i].canonical == s[i].canonical
    && (withSuccessor ==> t[i].successor == s[i].successor)
  }

  /** A chain depends only on the links of its members; the successor of the last does not matter. */
  lemma {:induction false} ChainFrame(
      s: map<nat, Proposal>, t: map<nat, Proposal>, d: Deployment, chain: seq<nat>)
    requires ChainOf(s, d, chain)
    requires forall k :: 0 <= k < |chain| ==> Kept(s, t, chain[k], k < |chain| - 1)
    ensures ChainOf(t, d, chain)
    decreases |chain|
  {
    if chain != [] {
      var n := |chain| - 1;
      forall k | 0 <= k < n ensures Kept(s, t, chain[..n][k], k < n - 1) {
        assert Kept(s, t, chain[k], k < |chain| - 1);
      }
      ChainFrame(s, t, d, chain[..n]);
      assert Kept(s, t, chain[n], false);
      if n > 0 {
        assert Kept(s, t, chain[n - 1], true);
      }
    }
  }

  lemma {:induction false} ChainSuffix(proposals: map<nat, Proposal>, d: Deployment, chain: seq<nat>, k: nat)
    requires ChainOf(proposals, d, chain) && k <= |chain|
    ensures ChainOf(proposals, d, chain[k..])
    decreases |chain|
  {
    var n := |chain| - 1;
    if k <= n {
      ChainSuffix(proposals, d, chain[..n], k);
      assert chain[k..][..n - k] == chain[..n][k..];
    }
  }

  lemma TipPosition(s: State, d: Deployment, games: nat -> Game, chain: seq<nat>, i: nat)
    requires Inv(s, d, games, chain) && i in chain && i != s.cursor.tip
    ensures i in s.proposals && s.cursor.tip in s.proposals && i < s.cursor.tip
    ensures s.proposals[i].height + BlocksPerProposal(d) <= s.proposals[s.cursor.tip].height
    ensures exists k :: 0 <= k < |chain| - 1 && chain[k] == i
  {
    var k :| 0 <= k < |chain| && chain[k] == i;
    ChainRises(s.proposals, d, chain, k, |chain| - 1);
  }

  /** Every tracked proposal's successor is tracked too, and was made later. */
  lemma SuccessorPresent(s: State, d: Deployment, games: nat -> Game, chain: seq<nat>, i: nat)
    requires Inv(s, d, games, chain) && i in s.proposals && s.proposals[i].successor.Some?
    ensures s.proposals[i].successor.value in s.proposals && s.proposals[i].successor.value > i
    ensures s.proposals[i].successor.value in chain && i in chain
  {
    assert Aside(s, chain, i);
    TipPosition(s, d, games, chain, i);
    var k :| 0 <= k < |chain| - 1 && chain[k] == i;
    ChainAt(s.proposals, d, chain, k);
  }

  lemma OnChain(s: State, d: Deployment, games: nat -> Game, chain: seq<nat>, i: nat)
    requires Inv(s, d, games, chain) && i in s.proposals && s.proposals[i].canonical == Some(true)
    ensures i in chain
  {
    assert Aside(s, chain, i);
  }

  /** Of two tracked canonical proposals the later one is higher, by a proposal's blocks at least. */
  lemma CanonicalHeightsRise(s: State, d: Deployment, games: nat -> Game, chain: seq<nat>, i: nat, j: nat)
    requires Inv(s, d, games, chain) && i < j && i in s.proposals && j in s.proposals
    requires s.proposals[i].canonical == Some(true) && s.proposals[j].canonical == Some(true)
    ensures s.proposals[i].height + BlocksPerProposal(d) <= s.proposals[j].height
  {
    OnChain(s, d, games, chain, i);
    OnChain(s, d, games, chain, j);
    var a, b := PositionOf(chain, i), PositionOf(chain, j);
    if a < b {
      ChainRises(s.proposals, d, chain, a, b);
    } else if b < a {
      ChainRises(s.proposals, d, chain, b, a);
    }
  }

  /** Follow so many successors. */
  function SuccessorAfter(proposals: map<nat, Proposal>, i: nat, steps: nat): Option<nat>
    decreases steps
  {
    if steps == 0 then Some(i)
    else if i !in proposals || proposals[i].successor.None? then None
    else SuccessorAfter(proposals, proposals[i].successor.value, steps - 1)
  }

  lemma {:induction false} ChainFollowed(proposals: map<nat, Proposal>, d: Deployment, chain: seq<nat>, j: nat, k: nat)
    requires ChainOf(proposals, d, chain) && j <= k < |chain|
    ensures SuccessorAfter(proposals, chain[j], k - j) == Some(chain[k])
    decreases k - j
  {
    ChainAt(proposals, d, chain, j);
    if j < k {
      ChainFollowed(proposals, d, chain, j + 1, k);
    }
  }

  /** Following successors from the last resolved proposal leads to the tip, through tracked proposals only. */
  lemma TipReachable(s: State, d: Deployment, games: nat -> Game, chain: seq<nat>)
    requires Inv(s, d, games, chain) && s.proposals != map[]
    ensures s.cursor.lastResolved in s.proposals && s.cursor.tip in s.proposals
    ensures exists n :: SuccessorAfter(s.proposals, s.cursor.lastResolved, n) == Some(s.cursor.tip)
  {
    var k := PositionOf(chain, s.cursor.lastResolved);
    ChainAt(s.proposals, d, chain, k);
    ChainAt(s.proposals, d, chain, |chain| - 1);
    ChainFollowed(s.proposals, d, chain, k, |chain| - 1);
  }

  // ---------------------------------------------------------------------------------------------
  // Every step keeps the invariant
  // ---------------------------------------------------------------------------------------------

  lemma EliminationKeeps(s: State, d: Deployment, games: nat -> Game, chain: seq<nat>, eliminations: map<Address, nat>)
    requires Inv(s, d, games, chain)
    ensures Inv(s.(eliminations := eliminations), d, games, chain)
  {
    var t := s.(eliminations := eliminations);
    forall i: nat ensures EntryAt(t, games, i) && Aside(t, chain, i) {
      assert EntryAt(s, games, i) && Aside(s, chain, i);
    }
  }

  /** A change of stored proposals that keeps their links and verdicts keeps the invariant. */
  lemma SameLinksKeep(s: State, t: State, d: Deployment, games: nat -> Game, chain: seq<nat>)
    requires Inv(s, d, games, chain) && t == s.(proposals := t.proposals)
    requires forall i: nat :: i in s.proposals <==> i in t.proposals
    requires forall i: nat :: i in s.proposals ==>
               Kept(s.proposals, t.proposals, i, true) && (Entry(s.proposals[i], games, i) ==> Entry(t.proposals[i], games, i))
    ensures Inv(t, d, games, chain)
  {
    forall i: nat ensures EntryAt(t, games, i) && Aside(t, chain, i) {
      assert EntryAt(s, games, i) && Aside(s, chain, i);
    }
    forall k | 0 <= k < |chain| ensures Kept(s.proposals, t.proposals, chain[k], k < |chain| - 1) {
      ChainAt(s.proposals, d, chain, k);
      assert Kept(s.proposals, t.proposals, chain[k], true);
    }
    ChainFrame(s.proposals, t.proposals, d, chain);
    assert s.proposals == map[] <==> t.proposals == map[];
  }

  lemma AppendChildKeeps(s: State, d: Deployment, games: nat -> Game, chain: seq<nat>, parent: nat, child: nat)
    requires Inv(s, d, games, chain) && parent in s.proposals
    ensures Inv(AppendChild(s, parent, child), d, games, chain)
  {
    SameLinksKeep(s, AppendChild(s, parent, child), d, games, chain);
  }

  /** The last resolved proposal may move along the chain. */
  lemma CursorKeeps(s: State, d: Deployment, games: nat -> Game, chain: seq<nat>, cursor: Cursor)
    requires Inv(s, d, games, chain) && cursor.tip == s.cursor.tip
    requires cursor.next == s.cursor.next || (s.proposals != map[] && cursor.next > s.cursor.next)
    requires cursor.lastResolved == s.cursor.lastResolved || cursor.lastResolved in chain
    ensures Inv(s.(cursor := cursor), d, games, chain)
  {
    var t := s.(cursor := cursor);
    forall i: nat ensures EntryAt(t, games, i) && Aside(t, chain, i) {
      assert EntryAt(s, games, i) && Aside(s, chain, i);
    }
  }

  // ---------------------------------------------------------------------------------------------
  // Storing a proposal
  // ---------------------------------------------------------------------------------------------

  /** The chain after storing: the root starts it, a canonical proposal is appended. */
  function ChainAfter(s: State, chain: seq<nat>, p: Proposal): seq<nat> {
    if s.proposals == map[] then [p.index]
    else if p.canonical == Some(true) then chain + [p.index]
    else chain
  }

  /** What is known of a proposal that is about to be stored. */
  ghost predicate Storable(s: State, games: nat -> Game, chain: seq<nat>, p: Proposal) {
    && p.index == s.cursor.next && Entry(p, games, p.index) && p.successor.None?
    && (s.proposals != map[] ==> p.parent in s.proposals && HasParent(p))
    && (p.canonical == Some(true) && s.proposals != map[] ==>
          p.parent in chain && (CanonicalTip(s).None? || CanonicalTip(s).value.height < p.height))
  }

  function Stored(s: State, p: Proposal): State {
    Advance(FollowUp(Store(s, p), p))
  }

  lemma RootKeeps(s: State, d: Deployment, games: nat -> Game, chain: seq<nat>, p: Proposal)
    requires Inv(s, d, games, chain) && Storable(s, games, chain, p) && s.proposals == map[]
    ensures Inv(Stored(s, p), d, games, [p.index])
  {
    var t := Stored(s, p);
    assert t.proposals == map[p.index := p];
    forall i: nat ensures EntryAt(t, games, i) && Aside(t, [p.index], i) {
    }
  }

  lemma AsideKeeps(s: State, d: Deployment, games: nat -> Game, chain: seq<nat>, p: Proposal)
    requires Inv(s, d, games, chain) && Storable(s, games, chain, p) && s.proposals != map[]
    requires p.canonical != Some(true)
    ensures Inv(Stored(s, p), d, games, chain)
  {
    assert p.canonical.Some? && !p.canonical.value;
    var t := Stored(s, p);
    forall i: nat ensures EntryAt(t, games, i) && Aside(t, chain, i) {
      assert EntryAt(s, games, i) && Aside(s, chain, i);
    }
    forall k | 0 <= k < |chain| ensures Kept(s.proposals, t.proposals, chain[k], k < |chain| - 1) {
      ChainAt(s.proposals, d, chain, k);
      assert EntryAt(s, games, chain[k]);
    }
    ChainFrame(s.proposals, t.proposals, d, chain);
    assert EntryAt(s, games, s.cursor.tip);
  }

  /** The parent of a newly canonical proposal is the canonical tip: only the tip is low enough and on the chain. */
  lemma NewCanonicalExtendsTip(s: State, d: Deployment, games: nat -> Game, chain: seq<nat>, p: Proposal)
    requires Inv(s, d, games, chain) && GoodGames(games, d) && Storable(s, games, chain, p) && s.proposals != map[]
    requires p.canonical == Some(true)
    ensures p.parent == s.cursor.tip && s.cursor.tip in s.proposals
    ensures p.height == s.proposals[s.cursor.tip].height + BlocksPerProposal(d)
  {
    assert GoodGame(games, d, p.index) && EntryAt(s, games, p.parent);
    ChainAt(s.proposals, d, chain, |chain| - 1);
    if p.parent != s.cursor.tip {
      TipPosition(s, d, games, chain, p.parent);
    }
  }

  lemma TipKeeps(s: State, d: Deployment, games: nat -> Game, chain: seq<nat>, p: Proposal)
    requires Inv(s, d, games, chain) && GoodGames(games, d) && Storable(s, games, chain, p) && s.proposals != map[]
    requires p.canonical == Some(true)
    ensures Inv(Stored(s, p), d, games, chain + [p.index])
  {
    NewCanonicalExtendsTip(s, d, games, chain, p);
    var t, tip, longer := Stored(s, p), s.cursor.tip, chain + [p.index];
    assert t.proposals == s.proposals[tip := s.proposals[tip].(successor := Some(p.index))][p.index := p];
    forall i: nat ensures EntryAt(t, games, i) && Aside(t, longer, i) {
      assert EntryAt(s, games, i) && Aside(s, chain, i) && EntryAt(s, games, tip);
    }
    forall k | 0 <= k < |chain| ensures Kept(s.proposals, t.proposals, chain[k], k < |chain| - 1) {
      ChainAt(s.proposals, d, chain, k);
      assert EntryAt(s, games, chain[k]);
      if k < |chain| - 1 {
        ChainRises(s.proposals, d, chain, k, |chain| - 1);
      }
    }
    ChainFrame(s.proposals, t.proposals, d, chain);
    assert EntryAt(s, games, tip);
    assert longer[..|chain|] == chain;
  }

  lemma StoredKeeps(s: State, d: Deployment, games: nat -> Game, chain: seq<nat>, p: Proposal)
    requires Inv(s, d, games, chain) && GoodGames(games, d) && Storable(s, games, chain, p)
    ensures Inv(Stored(s, p), d, games, ChainAfter(s, chain, p))
  {
    if s.proposals == map[] {
      RootKeeps(s, d, games, chain, p);
    } else if p.canonical == Some(true) {
      TipKeeps(s, d, games, chain, p);
    } else {
      AsideKeeps(s, d, games, chain, p);
    }
  }

  // ---------------------------------------------------------------------------------------------
  // Processing a game
  // ---------------------------------------------------------------------------------------------

  /** A resolved proposal with a tracked parent extends the chain. */
  predicate Extends(s: State, chain: seq<nat>, p: Proposal) {
    p.resolvedAt != 0 && p.parent in s.proposals ==> p.parent in chain
  }

  /** A game of this deployment as it is loaded when it is next in order. */
  ghost predicate NextGame(s: State, games: nat -> Game, p: Proposal) {
    && games(s.cursor.next).Ours? && p == games(s.cursor.next).proposal.(resolvedAt := p.resolvedAt)
    && (s.proposals == map[] ==> p.resolvedAt != 0)
  }

  lemma EliminationRecorded(s: State, d: Deployment, games: nat -> Game, chain: seq<nat>, p: Proposal, round: nat)
    requires Inv(s, d, games, chain)
    ensures var t := RecordElimination(s, p.proposer, round);
            Inv(t, d, games, chain) && t.proposals == s.proposals && t.cursor == s.cursor && t.outputs == s.outputs
  {
    EliminationKeeps(s, d, games, chain, RecordElimination(s, p.proposer, round).eliminations);
  }

  /** Taking part never crashes, and an unresolved proposal that takes part extends the chain. */
  lemma ParticipationKeeps(s: State, d: Deployment, games: nat -> Game, chain: seq<nat>, p: Proposal)
    requires Inv(s, d, games, chain) && GoodGames(games, d) && NextGame(s, games, p)
    requires s.proposals != map[] ==> p.parent in s.proposals
    ensures var (t, decision) := Participate(s, d, p);
            && Inv(t, d, games, chain) && t == s.(proposals := t.proposals)
            && (forall i: nat :: i in t.proposals <==> i in s.proposals)
            && decision != Crash
            && (decision == Take && s.proposals != map[] && p.resolvedAt == 0 ==>
                  p.parent in chain && !EliminatedBefore(t, p))
  {
    assert GoodGame(games, d, s.cursor.next) && EntryAt(s, games, s.cursor.next);
    if HasParent(p) && p.resolvedAt == 0 {
      AppendChildKeeps(s, d, games, chain, p.parent, p.index);
      DecisionSafe(AppendChild(s, p.parent, p.index), d, games, chain, p);
    }
  }

  lemma DecisionSafe(s: State, d: Deployment, games: nat -> Game, chain: seq<nat>, p: Proposal)
    requires Inv(s, d, games, chain) && GoodGames(games, d) && NextGame(s, games, p) && p.parent in s.proposals
    ensures Decide(s, d, p) != Crash
    ensures Decide(s, d, p) == Take ==> p.parent in chain && !EliminatedBefore(s, p)
  {
    var parent := s.proposals[p.parent];
    assert Aside(s, chain, p.parent);
    if parent.successor.Some? {
      SuccessorPresent(s, d, games, chain, p.parent);
      assert EntryAt(s, games, parent.successor.value);
      assert InTimeOrder(games, parent.successor.value, s.cursor.next);
    }
  }

  /** Judging changes verdicts only. */
  lemma JudgedIsSameGame(outputs: map<nat, B256>, d: Deployment, parent: Option<Proposal>, p: Proposal)
    requires Loadable(p) && Assess(outputs, d, parent, p).Judged?
    ensures var q := Assess(outputs, d, parent, p).proposal;
            && SameGame(q, p) && q.successor == p.successor && q.resolvedAt == p.resolvedAt
            && (HasParent(p) ==> IsCorrect(q).Some?) && (!HasParent(p) ==> q == p)
  {
  }

  /** The proposal that assessment is about to store, if it gets that far. */
  function ToStore(s: State, d: Deployment, p: Proposal): Option<Proposal>
    requires Loadable(p)
  {
    var r := Assess(s.outputs, d, ParentOf(s, p), p);
    if r.Judged? && IfCanonical(s, r.proposal).Some? then
      Some(r.proposal.(canonical := IfCanonical(s, r.proposal)))
    else None
  }

  lemma AssessAndStoreKeeps(s: State, d: Deployment, games: nat -> Game, chain: seq<nat>, p: Proposal)
    requires Inv(s, d, games, chain) && GoodGames(games, d) && NextGame(s, games, p) && Loadable(p)
    requires s.proposals != map[] ==> p.parent in s.proposals && p.parent in chain
    ensures var (t, outcome) := AssessAndStore(s, d, p);
            if ToStore(s, d, p).None? then t == s && outcome == Failed
            else
              var q := ToStore(s, d, p).value;
              && outcome == Success && t == Store(s, q) && Storable(s, games, chain, q)
              && q.resolvedAt == p.resolvedAt && SameGame(q, p)
              && (q.canonical == Some(true) ==> IsCorrect(q) == Some(true) && !EliminatedBefore(s, q))
  {
    assert GoodGame(games, d, s.cursor.next) && EntryAt(s, games, s.cursor.next) && EntryAt(s, games, p.parent);
    var r := Assess(s.outputs, d, ParentOf(s, p), p);
    if r.Judged? {
      JudgedIsSameGame(s.outputs, d, ParentOf(s, p), p);
    }
  }

  /** What processing the next game leaves behind: the state, its chain, and what was stored. */
  ghost predicate Processed(
      s: State, d: Deployment, games: nat -> Game, chain: seq<nat>, p: Proposal, t: State, outcome: Outcome)
  {
    match outcome
    case Panicked => false
    case Success =>
      && p.index in t.proposals
      && (var q := t.proposals[p.index];
          && SameGame(q, p) && q.canonical.Some?
          && Inv(Advance(FollowUp(t, q)), d, games, ChainAfter(s, chain, q))
          && (q.canonical == Some(true) ==>
                && IsCorrect(q) == Some(true) && !EliminatedBefore(t, q)
                && (s.proposals != map[] ==> q.parent == s.cursor.tip)))
    case _ =>
      && Inv(t, d, games, chain) && t.cursor == s.cursor && (t.proposals == map[] <==> s.proposals == map[])
      && (outcome == Ignored ==> s.proposals != map[])
  }

  lemma StoreProcessed(s: State, d: Deployment, games: nat -> Game, chain: seq<nat>, p: Proposal, q: Proposal)
    requires Inv(s, d, games, chain) && GoodGames(games, d) && Storable(s, games, chain, q)
    requires q.canonical == Some(true) ==> IsCorrect(q) == Some(true) && !EliminatedBefore(s, q)
    requires SameGame(q, p)
    ensures Processed(s, d, games, chain, p, Store(s, q), Success)
  {
    StoredKeeps(s, d, games, chain, q);
    if s.proposals != map[] && q.canonical == Some(true) {
      NewCanonicalExtendsTip(s, d, games, chain, q);
    }
  }

  /** Processing a game in order keeps the invariant, and never crashes. */
  lemma SyncLoadedKeeps(s: State, d: Deployment, games: nat -> Game, chain: seq<nat>, p: Proposal, round: nat)
    requires Inv(s, d, games, chain) && GoodGames(games, d)
    requires NextGame(s, games, p) && Loadable(p) && Extends(s, chain, p)
    ensures var (t, outcome) := SyncLoaded(s, d, p, round);
            Processed(s, d, games, chain, p, t, outcome)
  {
    if s.proposals == map[] || p.parent in s.proposals {
      assert GoodGame(games, d, s.cursor.next) && EntryAt(s, games, s.cursor.next);
      EliminationRecorded(s, d, games, chain, p, round);
      var t := RecordElimination(s, p.proposer, round);
      if t.cursor.lastOutput + d.span >= p.height {
        ParticipationKeeps(t, d, games, chain, p);
        var (u, decision) := Participate(t, d, p);
        assert u.proposals == map[] <==> s.proposals == map[];
        if decision == Take {
          AssessAndStoreKeeps(u, d, games, chain, p);
          if ToStore(u, d, p).Some? {
            StoreProcessed(u, d, games, chain, p, ToStore(u, d, p).value);
          }
        }
      }
    }
  }

  /** What is stored knows when the game was resolved. */
  lemma StoredAsLoaded(s: State, d: Deployment, p: Proposal, round: nat)
    requires Loadable(p)
    ensures var r := SyncLoaded(s, d, p, round);
            r.1 == Success ==> 
              p.index in r.0.proposals && r.0.proposals[p.index].resolvedAt == p.resolvedAt && r.0.proposals[p.index].index == p.index
  {
    var t := Participate(RecordElimination(s, p.proposer, round), d, p).0;
    if SyncLoaded(s, d, p, round).1 == Success {
      JudgedIsSameGame(t.outputs, d, ParentOf(t, p), p);
    }
  }

  // ---------------------------------------------------------------------------------------------
  // Processing a delayed game again
  // ---------------------------------------------------------------------------------------------

  /** A game of this deployment that was passed over. */
  ghost predicate PassedGame(s: State, games: nat -> Game, p: Proposal) {
    && p.index < s.cursor.next && p.index !in s.proposals && s.proposals != map[]
    && games(p.index).Ours? && p == games(p.index).proposal.(resolvedAt := p.resolvedAt)
  }

  /** What happens to a delayed game before it is judged changes nothing of the chain. */
  lemma PassedKeeps(s: State, d: Deployment, games: nat -> Game, chain: seq<nat>, p: Proposal, round: nat)
    requires Inv(s, d, games, chain)
    ensures var t := RecordElimination(s, p.proposer, round);
            && Inv(t, d, games, chain) && t == s.(eliminations := t.eliminations)
            && var u := Participate(t, d, p).0;
               && Inv(u, d, games, chain) && u == t.(proposals := u.proposals)
               && forall i: nat :: i in u.proposals <==> i in s.proposals
  {
    EliminationRecorded(s, d, games, chain, p, round);
    var t := RecordElimination(s, p.proposer, round);
    if p.parent in t.proposals {
      AppendChildKeeps(t, d, games, chain, p.parent, p.index);
    }
  }

  lemma PassedStoredAside(s: State, d: Deployment, games: nat -> Game, chain: seq<nat>, q: Proposal)
    requires Inv(s, d, games, chain) && q.index < s.cursor.next && q.index !in s.proposals && s.proposals != map[]
    requires Entry(q, games, q.index) && q.successor.None? && q.canonical == Some(false)
    ensures Inv(Store(s, q), d, games, chain)
  {
    var t := Store(s, q);
    forall i: nat ensures EntryAt(t, games, i) && Aside(t, chain, i) {
      assert EntryAt(s, games, i) && Aside(s, chain, i);
    }
    forall k | 0 <= k < |chain| ensures Kept(s.proposals, t.proposals, chain[k], k < |chain| - 1) {
      ChainAt(s.proposals, d, chain, k);
    }
    ChainFrame(s.proposals, t.proposals, d, chain);
  }

  /** Canonical above the tip, but not the tip: no chain holds both. */
  lemma PassedCanonicalBreaks(s: State, d: Deployment, games: nat -> Game, chain: seq<nat>, q: Proposal, longer: seq<nat>)
    requires Inv(s, d, games, chain) && q.index !in s.proposals && s.proposals != map[]
    requires q.canonical == Some(true) && (CanonicalTip(s).Some? ==> CanonicalTip(s).value.height < q.height)
    ensures !Inv(Store(s, q), d, games, longer)
  {
    var t := Store(s, q);
    ChainAt(s.proposals, d, chain, |chain| - 1);
    if Inv(t, d, games, longer) {
      OnChain(t, d, games, longer, q.index);
      TipPosition(t, d, games, longer, q.index);
    }
  }

  /** The guard under which a game becomes canonical: found correct, by a proposer in standing, and above the tip. */
  predicate GuardHolds(s: State, d: Deployment, p: Proposal)
    requires Loadable(p) && Assess(s.outputs, d, ParentOf(s, p), p).Judged?
  {
    && IsCorrect(Assess(s.outputs, d, ParentOf(s, p), p).proposal) == Some(true)
    && !EliminatedBefore(s, p)
    && (CanonicalTip(s).None? || CanonicalTip(s).value.height < p.height)
  }

  /** What is stored is canonical exactly if the guard holds before the game takes part. */
  lemma StoredByGuard(s: State, d: Deployment, p: Proposal, round: nat)
    requires Loadable(p) && SyncLoaded(s, d, p, round).1 == Success
    ensures var before, t := RecordElimination(s, p.proposer, round), SyncLoaded(s, d, p, round).0;
            && Assess(before.outputs, d, ParentOf(before, p), p).Judged? && p.index in t.proposals
            && t.proposals[p.index].canonical == Some(GuardHolds(before, d, p))
  {
    var before := RecordElimination(s, p.proposer, round);
    var u := Participate(before, d, p).0;
    assert ParentVerdict(ParentOf(u, p), p) == ParentVerdict(ParentOf(before, p), p);
    JudgedIsSameGame(u.outputs, d, ParentOf(u, p), p);
  }

  /** A delayed game that is stored after all leaves a state with a canonical chain exactly if the guard fails for it. */
  lemma PassedKeepsChainIff(s: State, d: Deployment, games: nat -> Game, chain: seq<nat>, p: Proposal, round: nat)
    requires Inv(s, d, games, chain) && GoodGames(games, d) && PassedGame(s, games, p) && Loadable(p)
    requires SyncLoaded(s, d, p, round).1 == Success
    ensures var t := SyncLoaded(s, d, p, round).0;
            var before := RecordElimination(s, p.proposer, round);
            && Assess(before.outputs, d, ParentOf(before, p), p).Judged?
            && ((exists longer :: Inv(t, d, games, longer)) <==> !GuardHolds(before, d, p))
  {
    StoredByGuard(s, d, p, round);
    PassedKeeps(s, d, games, chain, p, round);
    var u := Participate(RecordElimination(s, p.proposer, round), d, p).0;
    assert GoodGame(games, d, p.index);
    var q := ToStore(u, d, p).value;
    JudgedIsSameGame(u.outputs, d, ParentOf(u, p), p);
    if q.canonical == Some(false) {
      PassedStoredAside(u, d, games, chain, q);
    } else {
      forall longer ensures !Inv(Store(u, q), d, games, longer) {
        PassedCanonicalBreaks(u, d, games, chain, q, longer);
      }
    }
  }

  /** A proposal of a single output, one block after its parent. */
  function PlainProposal(index: nat, parent: nat, proposer: Address, outputRoot: B256): Proposal {
    Proposal(index, parent, proposer, 0, [], [], outputRoot, if index == parent then 0 else 1,
             {}, None, [], [], if index == parent then Some(true) else None, if index == parent then Some(true) else None, None, 0)
  }

  /** The treasury is tracked, and its only child, a correct proposal, was delayed until its output was fetched. */
  function DelayedChild(): State {
    var root := PlainProposal(0, 0, 7, 5).(canonical := Some(true));
    State(Cursor(0, 2, [1], 1, 0), map[1 := 5], map[0 := root], map[])
  }

  ghost predicate TreasuryAndChild(games: nat -> Game) {
    forall i: nat :: games(i) == if i < 2 then Ours(PlainProposal(i, 0, 7, 5)) else OtherType
  }

  lemma DelayedChildTracked(games: nat -> Game)
    requires TreasuryAndChild(games)
    ensures Inv(DelayedChild(), Deployment(1, 1, 10), games, [0]) && GoodGames(games, Deployment(1, 1, 10))
  {
    var s := DelayedChild();
    assert forall i: nat :: EntryAt(s, games, i) && Aside(s, [0], i);
    assert ChainOf(s.proposals, Deployment(1, 1, 10), [0][..0]);
  }

  lemma DelayedChildStored()
    ensures var r := SyncLoaded(DelayedChild(), Deployment(1, 1, 10), PlainProposal(1, 0, 7, 5), 0);
            r.1 == Success && 1 in r.0.proposals && r.0.proposals[1].canonical == Some(true)
  {
  }

  /** Here the delayed proposal becomes canonical without becoming the tip, and no chain is left. */
  lemma DelayedChildBreaks(games: nat -> Game)
    requires TreasuryAndChild(games)
    ensures var d, s := Deployment(1, 1, 10), DelayedChild();
            && Inv(s, d, games, [0]) && GoodGames(games, d) && s.cursor.delayed == [1]
            && games(1) == Ours(PlainProposal(1, 0, 7, 5))
            && var (t, outcome) := SyncLoaded(s, d, PlainProposal(1, 0, 7, 5), 0);
               outcome == Success && forall chain :: !Inv(t, d, games, chain)
  {
    DelayedChildTracked(games);
    DelayedChildStored();
    PassedKeepsChainIff(DelayedChild(), Deployment(1, 1, 10), games, [0], PlainProposal(1, 0, 7, 5), 0);
  }

  // ---------------------------------------------------------------------------------------------
  // Resolution and pruning
  // ---------------------------------------------------------------------------------------------

  function Retain(indices: seq<nat>, from: nat): seq<nat> {
    if indices == [] then []
    else (if indices[0] >= from then [indices[0]] else []) + Retain(indices[1..], from)
  }

  function SaturatingSub(a: nat, b: nat): nat {
    if a < b then 0 else a - b
  }

  /** Removes the outputs one span below another, from the i-th on, until one is not stored. */
  function FreeOutputs(outputs: map<nat, B256>, earliest: nat, span: nat, i: nat): map<nat, B256>
    decreases earliest + 1 - i
  {
    if i > earliest || SaturatingSub(earliest, i * span) !in outputs then outputs
    else FreeOutputs(outputs - {SaturatingSub(earliest, i * span)}, earliest, span, i + 1)
  }

  /** No output at or above the earliest one is freed, and none is changed. */
  lemma {:induction false} FreeKeeps(outputs: map<nat, B256>, earliest: nat, span: nat, i: nat)
    requires span > 0 && i > 0
    ensures var kept := FreeOutputs(outputs, earliest, span, i);
            && (forall n: nat :: n in kept ==> n in outputs && kept[n] == outputs[n])
            && (forall n: nat :: n in outputs && n >= earliest ==> n in kept)
    decreases earliest + 1 - i
  {
    if i <= earliest && SaturatingSub(earliest, i * span) in outputs {
      assert i * span > 0;
      FreeKeeps(outputs - {SaturatingSub(earliest, i * span)}, earliest, span, i + 1);
    }
  }

  function From(proposals: map<nat, Proposal>, index: nat): map<nat, Proposal> {
    map i | i in proposals && i >= index :: proposals[i]
  }

  /** The output below which nothing is needed any more. */
  function EarliestOutput(d: Deployment, lastResolved: Proposal): nat {
    SaturatingSub(lastResolved.height, BlocksPerProposal(d))
  }

  /** Forget what is older than the last resolved proposal; without that proposal the outputs stay. */
  function Prune(s: State, d: Deployment): State {
    if s.proposals == map[] then s
    else
      var last := s.cursor.lastResolved;
      var t := s.(proposals := From(s.proposals, last), cursor := s.cursor.(delayed := Retain(s.cursor.delayed, last)));
      if last !in t.proposals then t
      else t.(outputs := FreeOutputs(s.outputs, EarliestOutput(d, t.proposals[last]), d.span, 1))
  }

  /** Note the resolution of a proposal, and move the cursor there. */
  function Resolve(s: State, index: nat, resolvedAt: nat): State
    requires index in s.proposals
  {
    s.(proposals := s.proposals[index := s.proposals[index].(resolvedAt := resolvedAt)],
       cursor := s.cursor.(lastResolved := index))
  }

  lemma ResolveKeeps(s: State, d: Deployment, games: nat -> Game, chain: seq<nat>, index: nat, resolvedAt: nat)
    requires Inv(s, d, games, chain) && index in s.proposals && index in chain
    ensures Inv(Resolve(s, index, resolvedAt), d, games, chain)
  {
    var t := s.(proposals := s.proposals[index := s.proposals[index].(resolvedAt := resolvedAt)]);
    SameLinksKeep(s, t, d, games, chain);
    CursorKeeps(t, d, games, chain, t.cursor.(lastResolved := index));
  }

  /** The chain members from a position on are those whose index is not below. */
  lemma ChainCut(proposals: map<nat, Proposal>, d: Deployment, chain: seq<nat>, j: nat, k: nat)
    requires ChainOf(proposals, d, chain) && j < |chain| && k < |chain|
    ensures chain[j] in proposals && (j >= k <==> chain[j] >= chain[k])
  {
    ChainAt(proposals, d, chain, j);
    if j < k {
      ChainRises(proposals, d, chain, j, k);
    } else if k < j {
      ChainRises(proposals, d, chain, k, j);
    }
  }

  lemma CutChain(proposals: map<nat, Proposal>, d: Deployment, chain: seq<nat>, k: nat)
    requires ChainOf(proposals, d, chain) && k < |chain|
    ensures ChainOf(From(proposals, chain[k]), d, chain[k..])
  {
    var rest, kept := chain[k..], From(proposals, chain[k]);
    ChainSuffix(proposals, d, chain, k);
    forall j | 0 <= j < |rest| ensures Kept(proposals, kept, rest[j], j < |rest| - 1) {
      ChainCut(proposals, d, chain, k + j, k);
    }
    ChainFrame(proposals, kept, d, rest);
  }

  /** Pruning leaves the chain from the last resolved proposal on, whole: the tip stays reachable. */
  lemma PruneKeeps(s: State, d: Deployment, games: nat -> Game, chain: seq<nat>)
    requires Inv(s, d, games, chain) && s.proposals != map[]
    ensures Inv(Prune(s, d), d, games, chain[PositionOf(chain, s.cursor.lastResolved)..])
    ensures s.cursor.lastResolved in Prune(s, d).proposals
  {
    var t, k := Prune(s, d), PositionOf(chain, s.cursor.lastResolved);
    var rest := chain[k..];
    CutChain(s.proposals, d, chain, k);
    ChainCut(s.proposals, d, chain, k, k);
    ChainCut(s.proposals, d, chain, |chain| - 1, k);
    assert rest[0] == chain[k] && rest[|rest| - 1] == s.cursor.tip;
    forall i: nat ensures EntryAt(t, games, i) && Aside(t, rest, i) {
      assert EntryAt(s, games, i) && Aside(s, chain, i);
      if i in t.proposals && i in chain {
        ChainCut(s.proposals, d, chain, PositionOf(chain, i), k);
        assert i == rest[PositionOf(chain, i) - k];
      }
    }
  }

  // ---------------------------------------------------------------------------------------------
  // Without any assumption on resolved proposals
  // ---------------------------------------------------------------------------------------------

  predicate ForwardAt(s: State, i: nat) {
    i in s.proposals ==>
      i < s.cursor.next &&
      (s.proposals[i].successor.Some? ==> i < s.proposals[i].successor.value < s.cursor.next)
  }

  /** Every tracked proposal was made before its successor, so that following successors ends. */
  ghost predicate Forward(s: State) {
    forall i: nat :: ForwardAt(s, i)
  }

  lemma ParticipateForward(s: State, d: Deployment, p: Proposal)
    requires Forward(s)
    ensures var t := Participate(s, d, p).0;
            t == s.(proposals := t.proposals) && Forward(t)
  {
    var t := Participate(s, d, p).0;
    forall i: nat ensures ForwardAt(t, i) {
      assert ForwardAt(s, i);
    }
  }

  lemma AssessAndStoreForward(s: State, d: Deployment, p: Proposal)
    requires Forward(s) && Loadable(p) && p.parent <= p.index <= s.cursor.next && p.successor.None?
    ensures var (t, outcome) := AssessAndStore(s, d, p);
            && t.cursor == s.cursor && t.outputs == s.outputs
            && (if outcome == Success then p.index in t.proposals && Forward(MovedPast(t, p.index)) else t == s)
  {
    var r := Assess(s.outputs, d, ParentOf(s, p), p);
    if r.Judged? {
      JudgedIsSameGame(s.outputs, d, ParentOf(s, p), p);
      var q := r.proposal.(canonical := IfCanonical(s, r.proposal));
      forall i: nat ensures ForwardAt(MovedPast(Store(s, q), p.index), i) {
        assert ForwardAt(s, i);
      }
    }
  }

  lemma SyncLoadedForward(s: State, d: Deployment, p: Proposal, round: nat)
    requires Forward(s) && Loadable(p) && p.parent <= p.index <= s.cursor.next && p.successor.None?
    ensures var (t, outcome) := SyncLoaded(s, d, p, round);
            && t.cursor == s.cursor && t.outputs == s.outputs
            && (if outcome == Success then p.index in t.proposals && Forward(MovedPast(t, p.index)) else Forward(t))
  {
    var t := RecordElimination(s, p.proposer, round);
    forall i: nat ensures ForwardAt(t, i) {
      assert ForwardAt(s, i);
    }
    ParticipateForward(t, d, p);
    AssessAndStoreForward(Participate(t, d, p).0, d, p);
  }
}
