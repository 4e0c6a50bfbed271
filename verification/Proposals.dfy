/** Judging a proposal and locating its fault (crates/sync/src/proposal.rs, crates/sync/src/fault.rs, crates/sync/src/agent.rs). */
module Proposals {
  import opened Common
  import opened Blobs

  /** A proposal as tracked off chain; everything that only identifies contracts on chain is left out. */
  datatype Proposal = Proposal(
    index: nat, parent: nat, proposer: Address, createdAt: nat,
    io: seq<B256>, trail: seq<B256>, outputRoot: B256, height: nat,
    children: set<nat>, successor: Option<nat>,
    correctIo: seq<Option<bool>>, correctTrail: seq<Option<bool>>,
    correctClaim: Option<bool>, correctParent: Option<bool>,
    canonical: Option<bool>, resolvedAt: nat)

  datatype Deployment = Deployment(outputCount: nat, span: nat, timeout: nat)

  function BlocksPerProposal(d: Deployment): nat {
    d.outputCount * d.span
  }

  /** A divergence among the published outputs, or among the elements behind them. */
  datatype Fault = Output(index: nat) | Trail(index: nat)

  function DivergencePoint(f: Fault): nat {
    f.index
  }

  predicate HasParent(p: Proposal) {
    p.index != p.parent
  }

  predicate AnyFalse(verdicts: seq<Option<bool>>) {
    exists i :: 0 <= i < |verdicts| && verdicts[i] == Some(false)
  }

  predicate AnyUnknown(verdicts: seq<Option<bool>>) {
    exists i :: 0 <= i < |verdicts| && verdicts[i].None?
  }

  function IsCorrect(p: Proposal): Option<bool> {
    if p.correctParent == Some(false) then Some(false)
    else if p.correctClaim == Some(false) then Some(false)
    else if AnyFalse(p.correctIo) then Some(false)
    else if AnyFalse(p.correctTrail) then Some(false)
    else if p.correctParent.None? || p.correctClaim.None? || AnyUnknown(p.correctIo) || AnyUnknown(p.correctTrail) then None
    else Some(true)
  }

  ghost predicate FirstFalse(verdicts: seq<Option<bool>>, i: nat) {
    i < |verdicts| && verdicts[i] == Some(false) && !AnyFalse(verdicts[..i])
  }

  /** What locating the fault means: the first bad trailing element, else the first bad output, else a bad claim. */
  ghost predicate Locates(p: Proposal, f: Option<Fault>) {
    match f
    case Some(Trail(d)) => d > |p.io| && FirstFalse(p.correctTrail, d - |p.io| - 1)
    case Some(Output(d)) =>
      && !AnyFalse(p.correctTrail)
      && (if AnyFalse(p.correctIo) then FirstFalse(p.correctIo, d) else p.correctClaim == Some(false) && d == |p.io|)
    case None => !AnyFalse(p.correctTrail) && !AnyFalse(p.correctIo) && p.correctClaim != Some(false)
  }

  method FindFault(p: Proposal) returns (f: Option<Fault>)
    ensures Locates(p, f)
  {
    for i := 0 to |p.correctTrail|
      invariant !AnyFalse(p.correctTrail[..i])
    {
      if p.correctTrail[i] == Some(false) {
        return Some(Trail(|p.io| + i + 1));
      }
    }
    for i := 0 to |p.correctIo|
      invariant !AnyFalse(p.correctIo[..i])
    {
      if p.correctIo[i] == Some(false) {
        return Some(Output(i));
      }
    }
    assert p.correctTrail[..|p.correctTrail|] == p.correctTrail && p.correctIo[..|p.correctIo|] == p.correctIo;
    if p.correctClaim == Some(false) {
      return Some(Output(|p.io|));
    }
    f := None;
  }

  /** A proposal has at most one located fault. */
  lemma LocatedFaultUnique(p: Proposal, f: Option<Fault>, g: Option<Fault>)
    requires Locates(p, f) && Locates(p, g)
    ensures f == g
  {
  }

  /** The element at a position: the outputs, then the claim, then the trail; out of range panics. */
  function OutputFeAt(p: Proposal, position: nat): Option<B256> {
    if position < |p.io| then Some(p.io[position])
    else if position == |p.io| then Some(HashToFe(p.outputRoot))
    else if position - |p.io| - 1 < |p.trail| then Some(p.trail[position - |p.io| - 1])
    else None
  }

  // ---------------------------------------------------------------------------------------------
  // Assessment
  // ---------------------------------------------------------------------------------------------

  /** Assessment ends with the judged proposal, fails for want of local outputs, or finds the parent undecided. */
  datatype Assessment = Judged(proposal: Proposal) | Bail | Panic

  function StartOf(d: Deployment, p: Proposal): nat {
    if p.height < BlocksPerProposal(d) then 0 else p.height - BlocksPerProposal(d)
  }

  /** The block whose output is published at the given index. */
  function IoBlock(d: Deployment, p: Proposal, i: nat): nat {
    StartOf(d, p) + (i + 1) * d.span
  }

  predicate Fetched(outputs: map<nat, B256>, d: Deployment, p: Proposal) {
    p.height in outputs && forall i :: 0 <= i < |p.io| ==> IoBlock(d, p, i) in outputs
  }

  /** Whether the parent counts as correct; no answer stands for an undecided parent. */
  function ParentVerdict(parent: Option<Proposal>, p: Proposal): Option<bool> {
    if p.resolvedAt != 0 then Some(true)
    else if parent.None? then Some(false)
    else IsCorrect(parent.value)
  }

  function JudgeIo(outputs: map<nat, B256>, d: Deployment, p: Proposal): (r: seq<Option<bool>>)
    requires Fetched(outputs, d, p) && |p.io| <= |p.correctIo|
    ensures |r| == |p.correctIo|
  {
    seq(|p.correctIo|, i requires 0 <= i < |p.correctIo| =>
      if i < |p.io| then Some(HashToFe(outputs[IoBlock(d, p, i)]) == p.io[i]) else p.correctIo[i])
  }

  function JudgeTrail(p: Proposal): (r: seq<Option<bool>>)
    requires |p.trail| <= |p.correctTrail|
    ensures |r| == |p.correctTrail|
  {
    seq(|p.correctTrail|, i requires 0 <= i < |p.correctTrail| =>
      if i < |p.trail| then Some(p.trail[i] == 0) else p.correctTrail[i])
  }

  /** Loading provides a verdict for every published element. */
  predicate Loadable(p: Proposal) {
    |p.io| <= |p.correctIo| && |p.trail| == |p.correctTrail|
  }

  function Assess(outputs: map<nat, B256>, d: Deployment, parent: Option<Proposal>, p: Proposal): Assessment
    requires Loadable(p)
  {
    if !HasParent(p) then Judged(p)
    else if ParentVerdict(parent, p).None? then Panic
    else if !Fetched(outputs, d, p) then Bail
    else
      var q := p.(correctParent := ParentVerdict(parent, p),
                  correctClaim := Some(outputs[p.height] == p.outputRoot),
                  correctIo := JudgeIo(outputs, d, p),
                  correctTrail := JudgeTrail(p));
      if IsCorrect(q).None? then Bail else Judged(q)
  }

  /** Compares every published output with the local one; no result stands for a missing local output. */
  method JudgeOutputs(outputs: map<nat, B256>, d: Deployment, p: Proposal) returns (r: Option<seq<Option<bool>>>)
    requires p.height in outputs && |p.io| <= |p.correctIo|
    ensures r == if Fetched(outputs, d, p) then Some(JudgeIo(outputs, d, p)) else None
  {
    var verdicts := p.correctIo;
    var startingBlockNumber := if p.height < BlocksPerProposal(d) then 0 else p.height - BlocksPerProposal(d);
    for i := 0 to |p.io|
      invariant |verdicts| == |p.correctIo|
      invariant forall k :: 0 <= k < i ==> IoBlock(d, p, k) in outputs
      invariant forall k :: 0 <= k < i ==> verdicts[k] == Some(HashToFe(outputs[IoBlock(d, p, k)]) == p.io[k])
      invariant forall k :: i <= k < |verdicts| ==> verdicts[k] == p.correctIo[k]
    {
      var ioNumber := startingBlockNumber + (i + 1) * d.span;
      assert ioNumber == IoBlock(d, p, i);
      if ioNumber !in outputs {
        return None;
      }
      verdicts := verdicts[i := Some(HashToFe(outputs[ioNumber]) == p.io[i])];
    }
    assert verdicts == JudgeIo(outputs, d, p);
    r := Some(verdicts);
  }

  method JudgeZeros(p: Proposal) returns (verdicts: seq<Option<bool>>)
    requires |p.trail| <= |p.correctTrail|
    ensures verdicts == JudgeTrail(p)
  {
    verdicts := p.correctTrail;
    for i := 0 to |p.trail|
      invariant |verdicts| == |p.correctTrail|
      invariant forall k :: 0 <= k < i ==> verdicts[k] == Some(p.trail[k] == 0)
      invariant forall k :: i <= k < |verdicts| ==> verdicts[k] == p.correctTrail[k]
    {
      verdicts := verdicts[i := Some(p.trail[i] == 0)];
    }
  }

  method AssessCorrectness(outputs: map<nat, B256>, d: Deployment, parent: Option<Proposal>, proposal: Proposal)
    returns (r: Assessment)
    requires Loadable(proposal)
    ensures r == Assess(outputs, d, parent, proposal)
  {
    var p := proposal;
    if !HasParent(p) {
      return Judged(p);
    }
    var isParentCorrect := true;
    if p.resolvedAt == 0 {
      isParentCorrect := false;
      if parent.Some? {
        var decided := IsCorrect(parent.value);
        if decided.None? {
          return Panic;
        }
        isParentCorrect := decided.value;
      }
    }
    p := p.(correctParent := Some(isParentCorrect));
    if p.height !in outputs {
      return Bail;
    }
    p := p.(correctClaim := Some(outputs[p.height] == p.outputRoot));
    var correctIo := JudgeOutputs(outputs, d, proposal);
    if correctIo.None? {
      return Bail;
    }
    p := p.(correctIo := correctIo.value);
    var correctTrail := JudgeZeros(proposal);
    p := p.(correctTrail := correctTrail);
    if IsCorrect(p).None? {
      return Bail;
    }
    r := Judged(p);
  }

  /** The published data is what the local outputs demand. */
  ghost predicate Truthful(outputs: map<nat, B256>, d: Deployment, p: Proposal)
    requires Fetched(outputs, d, p)
  {
    && outputs[p.height] == p.outputRoot
    && (forall i :: 0 <= i < |p.io| ==> HashToFe(outputs[IoBlock(d, p, i)]) == p.io[i])
    && (forall i :: 0 <= i < |p.trail| ==> p.trail[i] == 0)
  }

  /** The verdicts: an output is right if it stands for the local one, and what lies behind the outputs is zero. */
  lemma JudgedVerdicts(outputs: map<nat, B256>, d: Deployment, parent: Option<Proposal>, p: Proposal)
    requires Loadable(p) && HasParent(p) && Assess(outputs, d, parent, p).Judged?
    ensures var q := Assess(outputs, d, parent, p).proposal;
            && Fetched(outputs, d, p)
            && q.correctClaim == Some(outputs[p.height] == p.outputRoot)
            && q.correctParent == (if p.resolvedAt != 0 then Some(true)
                                   else if parent.None? then Some(false) else IsCorrect(parent.value))
            && (forall i :: 0 <= i < |p.io| ==>
                  q.correctIo[i].Some? && (q.correctIo[i].value <==> Reduces(outputs[IoBlock(d, p, i)], p.io[i])))
            && (forall i :: 0 <= i < |p.trail| ==> q.correctTrail[i] == Some(p.trail[i] == 0))
  {
    var q := Assess(outputs, d, parent, p).proposal;
    forall i | 0 <= i < |p.io|
      ensures q.correctIo[i].Some? && (q.correctIo[i].value <==> Reduces(outputs[IoBlock(d, p, i)], p.io[i]))
    {
      HashToFeIff(outputs[IoBlock(d, p, i)], p.io[i]);
    }
  }

  /** A judged proposal is decided, and correct exactly if its parent is and its data is truthful and complete. */
  lemma AssessmentDecides(outputs: map<nat, B256>, d: Deployment, parent: Option<Proposal>, p: Proposal)
    requires Loadable(p) && HasParent(p) && Assess(outputs, d, parent, p).Judged?
    requires |p.io| == |p.correctIo|
    ensures var q := Assess(outputs, d, parent, p).proposal;
            && Fetched(outputs, d, p)
            && IsCorrect(q) == Some(ParentVerdict(parent, p) == Some(true) && Truthful(outputs, d, p))
  {
    var q := Assess(outputs, d, parent, p).proposal;
    if IsCorrect(q) == Some(true) {
      forall i | 0 <= i < |p.io| ensures HashToFe(outputs[IoBlock(d, p, i)]) == p.io[i] {
        assert q.correctIo[i] != Some(false);
      }
      forall i | 0 <= i < |p.trail| ensures p.trail[i] == 0 {
        assert q.correctTrail[i] != Some(false);
      }
    }
  }

  /** Assessment panics exactly on a tracked parent that is undecided, unless the proposal is resolved. */
  lemma AssessmentPanicsIff(outputs: map<nat, B256>, d: Deployment, parent: Option<Proposal>, p: Proposal)
    requires Loadable(p)
    ensures Assess(outputs, d, parent, p).Panic? <==>
            HasParent(p) && p.resolvedAt == 0 && parent.Some? && IsCorrect(parent.value).None?
  {
  }

  /** Assessment of a loaded proposal fails only for want of outputs, or when elements are missing from its blobs. */
  lemma AssessmentBailsIff(outputs: map<nat, B256>, d: Deployment, parent: Option<Proposal>, p: Proposal)
    requires Loadable(p) && HasParent(p) && ParentVerdict(parent, p).Some?
    requires forall i :: 0 <= i < |p.correctIo| ==> p.correctIo[i].None?
    ensures Assess(outputs, d, parent, p).Bail? <==>
            !Fetched(outputs, d, p) ||
            (|p.io| < |p.correctIo| && ParentVerdict(parent, p) == Some(true) && Truthful(outputs, d, p))
  {
    if Fetched(outputs, d, p) {
      var q := p.(correctParent := ParentVerdict(parent, p),
                  correctClaim := Some(outputs[p.height] == p.outputRoot),
                  correctIo := JudgeIo(outputs, d, p),
                  correctTrail := JudgeTrail(p));
      if |p.io| < |p.correctIo| {
        assert q.correctIo[|p.io|].None?;
      }
      if !AnyFalse(q.correctIo) {
        forall i | 0 <= i < |p.io| ensures HashToFe(outputs[IoBlock(d, p, i)]) == p.io[i] {
          assert q.correctIo[i] != Some(false);
        }
      }
      if !AnyFalse(q.correctTrail) {
        forall i | 0 <= i < |p.trail| ensures p.trail[i] == 0 {
          assert q.correctTrail[i] != Some(false);
        }
      }
    }
  }

  /** A judged proposal is incorrect exactly if it has a fault, or else extends an incorrect parent. */
  lemma IncorrectIffFaulty(outputs: map<nat, B256>, d: Deployment, parent: Option<Proposal>, p: Proposal, f: Option<Fault>)
    requires Loadable(p) && HasParent(p) && Assess(outputs, d, parent, p).Judged?
    requires Locates(Assess(outputs, d, parent, p).proposal, f)
    ensures IsCorrect(Assess(outputs, d, parent, p).proposal) == Some(false)
       <==> f.Some? || ParentVerdict(parent, p) == Some(false)
  {
    var q := Assess(outputs, d, parent, p).proposal;
    match f
    case Some(Trail(k)) => assert q.correctTrail[k - |q.io| - 1] == Some(false);
    case Some(Output(k)) =>
    case None =>
  }

  // ---------------------------------------------------------------------------------------------
  // Requesting a fault proof
  // ---------------------------------------------------------------------------------------------

  datatype FaultRequest = FaultRequest(agreedBlock: nat, agreedOutput: B256, claimedBlock: nat, claimedOutput: B256)

  /** What is sent to the prover: one span of blocks from the divergence on, with the local outputs at both ends. */
  method RequestFaultProof(outputs: map<nat, B256>, d: Deployment, parent: Proposal, proposal: Proposal)
    returns (r: Option<FaultRequest>)
    ensures r.Some? ==>
              exists f :: Locates(proposal, Some(f)) && Requests(outputs, d, parent, f, r.value)
    ensures r.None? ==>
              || Locates(proposal, None)
              || exists f :: Locates(proposal, Some(f)) && !Known(outputs, d, parent, f)
  {
    var fault := FindFault(proposal);
    if fault.None? {
      return None;
    }
    var divergencePoint := DivergencePoint(fault.value);
    var agreedBlock := parent.height + d.span * divergencePoint;
    if agreedBlock !in outputs {
      return None;
    }
    var claimedBlock := agreedBlock + d.span;
    if claimedBlock !in outputs {
      return None;
    }
    r := Some(FaultRequest(agreedBlock, outputs[agreedBlock], claimedBlock, outputs[claimedBlock]));
    assert Requests(outputs, d, parent, fault.value, r.value);
  }

  predicate Known(outputs: map<nat, B256>, d: Deployment, parent: Proposal, f: Fault) {
    var agreedBlock := parent.height + d.span * f.index;
    agreedBlock in outputs && agreedBlock + d.span in outputs
  }

  predicate Requests(outputs: map<nat, B256>, d: Deployment, parent: Proposal, f: Fault, r: FaultRequest) {
    && Known(outputs, d, parent, f)
    && r.agreedBlock == parent.height + d.span * f.index && r.agreedOutput == outputs[r.agreedBlock]
    && r.claimedBlock == r.agreedBlock + d.span && r.claimedOutput == outputs[r.claimedBlock]
  }

  /** The block that the k-th published output is for, counted from the parent; the claim comes last. */
  function PublishedBlock(d: Deployment, parent: Proposal, k: nat): nat {
    parent.height + d.span * (k + 1)
  }

  /** The k-th published output is what the local outputs demand. */
  ghost predicate PublishedAgrees(outputs: map<nat, B256>, d: Deployment, parent: Proposal, p: Proposal, k: nat)
    requires k <= |p.io|
  {
    var block := PublishedBlock(d, parent, k);
    && block in outputs
    && (if k < |p.io| then p.io[k] == HashToFe(outputs[block]) else p.outputRoot == outputs[block])
  }

  lemma SpansAddUp(d: Deployment, parent: Proposal, p: Proposal, k: nat)
    requires p.height == parent.height + BlocksPerProposal(d) && |p.io| + 1 == d.outputCount && k <= |p.io|
    ensures k < |p.io| ==> IoBlock(d, p, k) == PublishedBlock(d, parent, k)
    ensures PublishedBlock(d, parent, |p.io|) == p.height
  {
    assert (k + 1) * d.span == d.span * (k + 1);
    assert d.outputCount * d.span == d.span * (|p.io| + 1);
  }

  /**
   * An output fault of a judged proposal is its first wrong output: all before it agree with the local outputs, it
   * does not. So the request starts at the last agreed block, or at the parent, and ends at the first wrong one.
   */
  lemma OutputFaultIsFirstDivergence(
      outputs: map<nat, B256>, d: Deployment, parent: Proposal, p: Proposal, divergence: nat)
    requires Loadable(p) && HasParent(p) && Assess(outputs, d, Some(parent), p).Judged?
    requires p.height == parent.height + BlocksPerProposal(d) && |p.io| == |p.correctIo| && |p.io| + 1 == d.outputCount
    requires Locates(Assess(outputs, d, Some(parent), p).proposal, Some(Output(divergence)))
    ensures divergence <= |p.io|
    ensures forall k :: 0 <= k < divergence ==> PublishedAgrees(outputs, d, parent, p, k)
    ensures !PublishedAgrees(outputs, d, parent, p, divergence)
    ensures PublishedBlock(d, parent, divergence) in outputs
    ensures OutputFeAt(p, divergence) == Some(if divergence < |p.io| then p.io[divergence] else HashToFe(p.outputRoot))
    ensures parent.height in outputs ==> Known(outputs, d, parent, Output(divergence))
  {
    var q := Assess(outputs, d, Some(parent), p).proposal;
    forall k | 0 <= k <= |p.io|
      ensures k < |p.io| ==> IoBlock(d, p, k) == PublishedBlock(d, parent, k)
    {
      SpansAddUp(d, parent, p, k);
    }
    SpansAddUp(d, parent, p, 0);
    forall k | 0 <= k < divergence ensures PublishedAgrees(outputs, d, parent, p, k) {
      if AnyFalse(q.correctIo) {
        assert q.correctIo[..divergence][k] != Some(false);
      } else {
        assert q.correctIo[k] != Some(false);
      }
    }
    if divergence > 0 {
      assert PublishedAgrees(outputs, d, parent, p, divergence - 1);
    }
  }

  /** So what is requested for it leads from the last output that agrees, or the parent, to the first that does not. */
  lemma RequestEndsAtFault(
      outputs: map<nat, B256>, d: Deployment, parent: Proposal, p: Proposal, divergence: nat, r: FaultRequest)
    requires Loadable(p) && HasParent(p) && Assess(outputs, d, Some(parent), p).Judged?
    requires p.height == parent.height + BlocksPerProposal(d) && |p.io| == |p.correctIo| && |p.io| + 1 == d.outputCount
    requires Locates(Assess(outputs, d, Some(parent), p).proposal, Some(Output(divergence)))
    requires Requests(outputs, d, parent, Output(divergence), r)
    ensures r.claimedBlock == PublishedBlock(d, parent, divergence)
    ensures r.claimedBlock in outputs && r.claimedOutput == outputs[r.claimedBlock]
    ensures r.agreedBlock == (if divergence == 0 then parent.height else PublishedBlock(d, parent, divergence - 1))
    ensures r.agreedBlock in outputs && r.agreedOutput == outputs[r.agreedBlock]
    ensures divergence <= |p.io| && !PublishedAgrees(outputs, d, parent, p, divergence)
    ensures divergence > 0 ==> PublishedAgrees(outputs, d, parent, p, divergence - 1)
  {
    OutputFaultIsFirstDivergence(outputs, d, parent, p, divergence);
    assert d.span * (divergence + 1) == d.span * divergence + d.span;
  }

  /** A trail fault of a judged proposal points at the first element behind the outputs that is not zero. */
  lemma TrailFaultIsFirstNonZero(
      outputs: map<nat, B256>, d: Deployment, parent: Option<Proposal>, p: Proposal, position: nat)
    requires Loadable(p) && HasParent(p) && Assess(outputs, d, parent, p).Judged?
    requires Locates(Assess(outputs, d, parent, p).proposal, Some(Trail(position)))
    ensures OutputFeAt(p, position).Some? && OutputFeAt(p, position) != Some(0)
    ensures forall k :: |p.io| < k < position ==> OutputFeAt(p, k) == Some(0)
  {
    var q := Assess(outputs, d, parent, p).proposal;
    var i := position - |p.io| - 1;
    assert q.correctTrail[i] == Some(p.trail[i] == 0);
    forall k | |p.io| < k < position ensures OutputFeAt(p, k) == Some(0) {
      assert q.correctTrail[..i][k - |p.io| - 1] != Some(false);
    }
  }
}
