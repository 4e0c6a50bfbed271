/** Stitching proven transitions into one journal (crates/kona/src/client/stitching.rs). */
module Stitching {
  import opened Common
  import opened Journal

  /** The journals that some receipt proves, by their packed bytes; on the host nothing is checked. */
  type Proven = Bytes -> bool

  /** The journal that a stitched boot record must have been proven with. */
  function RequiredJournal(j: ProofJournal, s: StitchedBootInfo): ProofJournal {
    NewStitchedJournal(j.imageId, j.payoutRecipient, j.preconditionHash, j.configHash, s)
  }

  /** One step of the loop; no result stands for a failed assertion. The backward direction is tried first. */
  function StitchOne(proven: Proven, j: ProofJournal, s: StitchedBootInfo): Option<ProofJournal> {
    if s.l1Head != j.l1Head then None
    else if s.agreedOutput == s.claimedOutput then None
    else if !proven(EncodePacked(RequiredJournal(j, s))) then None
    else if s.claimedOutput == j.agreedOutput then Some(j.(agreedOutput := s.agreedOutput))
    else if s.agreedOutput == j.claimedOutput then
      Some(j.(claimedOutput := s.claimedOutput, claimedNumber := s.claimedNumber))
    else None
  }

  function StitchAll(proven: Proven, j: ProofJournal, list: seq<StitchedBootInfo>): Option<ProofJournal>
    decreases |list|
  {
    if list == [] then Some(j)
    else
      match StitchOne(proven, j, list[0])
      case None => None
      case Some(j') => StitchAll(proven, j', list[1..])
  }

  method StitchBootInfo(proven: Proven, boot: BootInfo, imageId: B256, payout: Address, precondition: B256,
                        list: seq<StitchedBootInfo>) returns (r: Option<ProofJournal>)
    ensures r == StitchAll(proven, NewJournal(imageId, payout, precondition, boot), list)
    ensures r.Some? ==>
              && r.value.imageId == imageId && r.value.payoutRecipient == payout && r.value.preconditionHash == precondition
              && r.value.l1Head == boot.l1Head && r.value.configHash == boot.configHash
    ensures r.Some? && list == [] ==>
              && r.value.agreedOutput == boot.agreedOutput && r.value.claimedOutput == boot.claimedOutput
              && r.value.claimedNumber == boot.claimedNumber
  {
    var j := NewJournal(imageId, payout, precondition, boot);
    ghost var whole := StitchAll(proven, j, list);
    for i := 0 to |list|
      invariant StitchAll(proven, j, list[i..]) == whole
      invariant SameContext(NewJournal(imageId, payout, precondition, boot), j)
    {
      var s := list[i];
      assert list[i..][1..] == list[i + 1..];
      if s.l1Head != j.l1Head || s.agreedOutput == s.claimedOutput {
        return None;
      }
      var required := NewStitchedJournal(imageId, payout, precondition, j.configHash, s);
      if !proven(EncodePacked(required)) {
        return None;
      }
      if s.claimedOutput == j.agreedOutput {
        j := j.(agreedOutput := s.agreedOutput);
      } else if s.agreedOutput == j.claimedOutput {
        j := j.(claimedOutput := s.claimedOutput, claimedNumber := s.claimedNumber);
      } else {
        return None;
      }
    }
    r := Some(j);
  }

  // ---------------------------------------------------------------------------------------------
  // Every accepted list forms one path
  // ---------------------------------------------------------------------------------------------

  ghost predicate Contiguous(path: seq<StitchedBootInfo>) {
    forall i :: 0 < i < |path| ==> path[i - 1].claimedOutput == path[i].agreedOutput
  }

  /** The path leads from the agreed to the claimed output of the journal, whose block is that of its last link. */
  ghost predicate Spans(path: seq<StitchedBootInfo>, j: ProofJournal) {
    && path != []
    && Contiguous(path)
    && path[0].agreedOutput == j.agreedOutput
    && path[|path| - 1].claimedOutput == j.claimedOutput
    && path[|path| - 1].claimedNumber == j.claimedNumber
  }

  /** Everything that stitching leaves as it is. */
  ghost predicate SameContext(j: ProofJournal, j': ProofJournal) {
    j' == j.(agreedOutput := j'.agreedOutput, claimedOutput := j'.claimedOutput, claimedNumber := j'.claimedNumber)
  }

  ghost predicate Admissible(proven: Proven, j: ProofJournal, s: StitchedBootInfo) {
    s.l1Head == j.l1Head && s.agreedOutput != s.claimedOutput && proven(EncodePacked(RequiredJournal(j, s)))
  }

  /** A link must have been proven with its own transition, in the context of the journal. */
  lemma RequiredFields(j: ProofJournal, s: StitchedBootInfo)
    ensures var k := RequiredJournal(j, s);
            && BootInfoOf(k) == s && SameContext(j.(l1Head := s.l1Head), k)
            && k.imageId == j.imageId && k.payoutRecipient == j.payoutRecipient
            && k.preconditionHash == j.preconditionHash && k.configHash == j.configHash
  {
  }

  /** A link is accepted exactly if it is admissible and meets the journal at either end; it extends it there, and at the
      front if it meets it at both. */
  lemma StitchOneIff(proven: Proven, j: ProofJournal, s: StitchedBootInfo)
    ensures StitchOne(proven, j, s).Some? <==>
            Admissible(proven, j, s) && (s.claimedOutput == j.agreedOutput || s.agreedOutput == j.claimedOutput)
    ensures StitchOne(proven, j, s).Some? ==>
            BootInfoOf(StitchOne(proven, j, s).value) ==
              if s.claimedOutput == j.agreedOutput then
                StitchedBootInfo(j.l1Head, s.agreedOutput, j.claimedOutput, j.claimedNumber)
              else StitchedBootInfo(j.l1Head, j.agreedOutput, s.claimedOutput, s.claimedNumber)
  {
  }

  /** Links that follow one another behind the claimed output, without a return to the agreed one, move the claim to the
      end of the last. */
  lemma {:induction false} FoldForward(proven: Proven, j: ProofJournal, list: seq<StitchedBootInfo>)
    requires list != [] && Contiguous(list) && list[0].agreedOutput == j.claimedOutput
    requires forall k :: 0 <= k < |list| ==> Admissible(proven, j, list[k]) && list[k].claimedOutput != j.agreedOutput
    ensures var last := list[|list| - 1];
            StitchAll(proven, j, list) == Some(j.(claimedOutput := last.claimedOutput, claimedNumber := last.claimedNumber))
    decreases |list|
  {
    StitchOneIff(proven, j, list[0]);
    if |list| > 1 {
      var j' := StitchOne(proven, j, list[0]).value;
      assert list[0].claimedOutput == list[1].agreedOutput;
      forall k | 0 <= k < |list[1..]| ensures Admissible(proven, j', list[1..][k]) && list[1..][k].claimedOutput != j'.agreedOutput {
        assert Admissible(proven, j, list[k + 1]);
      }
      forall i | 0 < i < |list[1..]| ensures list[1..][i - 1].claimedOutput == list[1..][i].agreedOutput {
        assert list[i].claimedOutput == list[i + 1].agreedOutput;
      }
      FoldForward(proven, j', list[1..]);
    }
  }

  lemma StitchExtendsPath(proven: Proven, j: ProofJournal, s: StitchedBootInfo, path: seq<StitchedBootInfo>)
    requires StitchOne(proven, j, s).Some? && Spans(path, j)
    ensures Spans(if s.claimedOutput == j.agreedOutput then [s] + path else path + [s], StitchOne(proven, j, s).value)
  {
    var path' := if s.claimedOutput == j.agreedOutput then [s] + path else path + [s];
    forall i | 0 < i < |path'| ensures path'[i - 1].claimedOutput == path'[i].agreedOutput {
      if s.claimedOutput == j.agreedOutput && i > 1 {
        assert path[i - 2].claimedOutput == path[i - 1].agreedOutput;
      }
    }
  }

  /** The base and the listed links can be arranged, each used once, into one path that the result spans. */
  lemma {:induction false} StitchedPath(proven: Proven, j: ProofJournal, list: seq<StitchedBootInfo>,
                                        path: seq<StitchedBootInfo>)
      returns (path': seq<StitchedBootInfo>)
    requires StitchAll(proven, j, list).Some? && Spans(path, j)
    ensures Spans(path', StitchAll(proven, j, list).value)
    ensures multiset(path') == multiset(path) + multiset(list)
    decreases |list|
  {
    if list == [] {
      path' := path;
    } else {
      var s := list[0];
      StitchExtendsPath(proven, j, s, path);
      assert list == [s] + list[1..];
      path' := StitchedPath(proven, StitchOne(proven, j, s).value, list[1..],
                            if s.claimedOutput == j.agreedOutput then [s] + path else path + [s]);
    }
  }

  lemma {:induction false} StitchedContext(proven: Proven, j: ProofJournal, list: seq<StitchedBootInfo>)
    requires StitchAll(proven, j, list).Some?
    ensures SameContext(j, StitchAll(proven, j, list).value)
    ensures forall s :: s in list ==> Admissible(proven, j, s)
    decreases |list|
  {
    if list != [] {
      var j' := StitchOne(proven, j, list[0]).value;
      StitchedContext(proven, j', list[1..]);
      forall s | s in list ensures Admissible(proven, j, s) {
        assert s != list[0] ==> s in list[1..] && Admissible(proven, j', s);
      }
    }
  }

  lemma StitchingIsOnePath(proven: Proven, j: ProofJournal, list: seq<StitchedBootInfo>)
    requires StitchAll(proven, j, list).Some?
    ensures var r := StitchAll(proven, j, list).value;
            && SameContext(j, r)
            && (forall s :: s in list ==> Admissible(proven, j, s))
            && exists path :: Spans(path, r) && multiset(path) == multiset{BootInfoOf(j)} + multiset(list)
  {
    var path := StitchedPath(proven, j, list, [BootInfoOf(j)]);
    StitchedContext(proven, j, list);
  }

  /** A reading of journals under which consecutive transitions of one context compose. */
  ghost predicate Composes(valid: ProofJournal -> bool) {
    forall j, k :: valid(j) && valid(k) && SameContext(j, k) && j.claimedOutput == k.agreedOutput ==>
      valid(j.(claimedOutput := k.claimedOutput, claimedNumber := k.claimedNumber))
  }

  /** If proofs are sound and the base holds, then the stitched journal holds. */
  lemma {:induction false} StitchingIsSound(proven: Proven, valid: ProofJournal -> bool, j: ProofJournal,
                                            list: seq<StitchedBootInfo>)
    requires Composes(valid) && forall k :: proven(EncodePacked(k)) ==> valid(k)
    requires valid(j) && StitchAll(proven, j, list).Some?
    ensures valid(StitchAll(proven, j, list).value)
    decreases |list|
  {
    if list != [] {
      var s, j' := list[0], StitchOne(proven, j, list[0]).value;
      var k := RequiredJournal(j, s);
      assert valid(k) && SameContext(j, k) && SameContext(k, j);
      if s.claimedOutput == j.agreedOutput {
        assert j' == k.(claimedOutput := j.claimedOutput, claimedNumber := j.claimedNumber);
      }
      StitchingIsSound(proven, valid, j', list[1..]);
    }
  }
}
