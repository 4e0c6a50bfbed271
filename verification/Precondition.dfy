/** Checking derived outputs against the published ones (crates/kona/src/precondition.rs). */
module Precondition {
  import opened Common
  import opened BigEndian
  import opened Blobs

  /** What a proposal publishes: outputCount outputs, one every span blocks after the head, all but the last in blobs. */
  datatype Validity = Validity(head: U64, outputCount: U64, span: U64, blobs: seq<Blob>)

  datatype Check = Accept | Reject | Panic

  function LastBlock(v: Validity): nat {
    v.head + v.outputCount * v.span
  }

  predicate ZeroFrom(blob: Blob, from: nat)
    requires from <= BYTES_PER_BLOB
  {
    forall i :: from <= i < BYTES_PER_BLOB ==> blob[i] == 0
  }

  /** The check of one derived output. */
  function CheckOutput(v: Validity, block: nat, root: B256): Check
    requires block > v.head
  {
    if block > LastBlock(v) then Reject
    else
      var offset := block - v.head;
      if v.span == 0 then Panic
      else if offset % v.span != 0 then Accept
      else CheckPublished(v, offset / v.span - 1, root)
  }

  /** The check of the k-th published output; a negative index stands for the underflow. */
  function CheckPublished(v: Validity, k: int, root: B256): Check {
    if k < 0 || v.outputCount == 0 then Panic
    else
      var blobIndex, position := k / FIELD_ELEMENTS_PER_BLOB, k % FIELD_ELEMENTS_PER_BLOB;
      if k < v.outputCount - 1 then
        if blobIndex >= |v.blobs| then Panic
        else if FeBytes(v.blobs[blobIndex], position) != ToBytes(HashToFe(root), 32) then Reject
        else Accept
      else if k == v.outputCount - 1 then
        if v.outputCount > 1 then
          if |v.blobs| == 0 then Panic
          else if blobIndex != |v.blobs| - 1 then Reject
          else if !ZeroFrom(v.blobs[blobIndex], 32 * position) then Reject
          else Accept
        else Accept
      else Panic
  }

  /** Stop at the first output that is not accepted. */
  function CheckFrom(v: Validity, block: nat, roots: seq<B256>): Check
    requires block >= v.head
    decreases |roots|
  {
    if roots == [] then Accept
    else
      var c := CheckOutput(v, block + 1, roots[0]);
      if c.Accept? then CheckFrom(v, block + 1, roots[1..]) else c
  }

  /** The check of outputs derived from the agreed head on. */
  function Validate(v: Validity, proofHead: nat, roots: seq<B256>): Check {
    if proofHead < v.head then Reject
    else if LastBlock(v) < proofHead then Reject
    else CheckFrom(v, proofHead, roots)
  }

  method ValidatePrecondition(v: Validity, proofHead: U64, roots: seq<B256>) returns (r: Check)
    requires LastBlock(v) < TWO_64 && proofHead + |roots| < TWO_64
    ensures r == Validate(v, proofHead, roots)
  {
    var proposalRootClaimBlockNumber := v.head + v.outputCount * v.span;
    if proofHead < v.head {
      return Reject;
    } else if proposalRootClaimBlockNumber < proofHead {
      return Reject;
    } else if roots == [] {
      return Accept;
    }
    for i := 0 to |roots|
      invariant CheckFrom(v, proofHead, roots) == CheckFrom(v, proofHead + i, roots[i..])
    {
      var outputBlockNumber := proofHead + i + 1;
      assert roots[i..][1..] == roots[i + 1..];
      if outputBlockNumber > proposalRootClaimBlockNumber {
        return Reject;
      }
      var offset := outputBlockNumber - v.head;
      PublishedIndexInRange(v, outputBlockNumber);
      if offset % v.span != 0 {
        continue;
      }
      r := CheckPublished(v, offset / v.span - 1, roots[i]);
      if !r.Accept? {
        return;
      }
    }
    r := Accept;
  }

  lemma {:induction false} CheckFromIsAll(v: Validity, block: nat, roots: seq<B256>)
    requires block >= v.head
    ensures CheckFrom(v, block, roots).Accept?
       <==> forall i :: 0 <= i < |roots| ==> CheckOutput(v, block + i + 1, roots[i]).Accept?
    decreases |roots|
  {
    if roots != [] {
      CheckFromIsAll(v, block + 1, roots[1..]);
      assert forall i :: 0 < i < |roots| ==> roots[i] == roots[1..][i - 1];
      if CheckFrom(v, block, roots).Accept? {
        forall i | 0 <= i < |roots| ensures CheckOutput(v, block + i + 1, roots[i]).Accept? {
          if i > 0 {
            assert CheckOutput(v, block + 1 + (i - 1) + 1, roots[1..][i - 1]).Accept?;
          }
        }
      }
      if forall i :: 0 <= i < |roots| ==> CheckOutput(v, block + i + 1, roots[i]).Accept? {
        assert CheckOutput(v, block + 0 + 1, roots[0]).Accept?;
        forall i | 0 <= i < |roots| - 1 ensures CheckOutput(v, block + 1 + i + 1, roots[1..][i]).Accept? {
          assert CheckOutput(v, block + (i + 1) + 1, roots[i + 1]).Accept?;
        }
      }
    }
  }

  lemma {:induction false} CheckFromConcat(v: Validity, block: nat, r1: seq<B256>, r2: seq<B256>)
    requires block >= v.head
    ensures CheckFrom(v, block, r1 + r2)
         == if CheckFrom(v, block, r1).Accept? then CheckFrom(v, block + |r1|, r2) else CheckFrom(v, block, r1)
    decreases |r1|
  {
    if r1 == [] {
      assert r1 + r2 == r2;
    } else {
      assert (r1 + r2)[1..] == r1[1..] + r2;
      CheckFromConcat(v, block + 1, r1[1..], r2);
    }
  }

  lemma {:induction false} AcceptedWithinRange(v: Validity, block: nat, roots: seq<B256>)
    requires v.head <= block <= LastBlock(v) && CheckFrom(v, block, roots).Accept?
    ensures block + |roots| <= LastBlock(v)
    decreases |roots|
  {
    if roots != [] {
      AcceptedWithinRange(v, block + 1, roots[1..]);
    }
  }

  /** Validating two consecutive segments separately is the same as validating them together. */
  lemma ValidationComposes(v: Validity, proofHead: nat, r1: seq<B256>, r2: seq<B256>)
    ensures Validate(v, proofHead, r1 + r2).Accept?
       <==> Validate(v, proofHead, r1).Accept? && Validate(v, proofHead + |r1|, r2).Accept?
  {
    if v.head <= proofHead <= LastBlock(v) {
      CheckFromConcat(v, proofHead, r1, r2);
      if CheckFrom(v, proofHead, r1).Accept? {
        AcceptedWithinRange(v, proofHead, r1);
      }
    }
  }

  predicate AllAccepted(v: Validity, proofHead: nat, segments: seq<seq<B256>>)
    decreases |segments|
  {
    segments == [] ||
    (Validate(v, proofHead, segments[0]).Accept? && AllAccepted(v, proofHead + |segments[0]|, segments[1..]))
  }

  /** However a proof is cut into consecutive segments, together they are accepted as the one proof is. */
  lemma {:induction false} SegmentsCompose(v: Validity, proofHead: nat, segments: seq<seq<B256>>)
    requires segments != []
    ensures Validate(v, proofHead, Flatten(segments)).Accept? <==> AllAccepted(v, proofHead, segments)
    decreases |segments|
  {
    if |segments| == 1 {
      assert Flatten(segments) == segments[0] + Flatten([]) == segments[0];
      assert segments[1..] == [];
    } else {
      SegmentsCompose(v, proofHead + |segments[0]|, segments[1..]);
      ValidationComposes(v, proofHead, segments[0], Flatten(segments[1..]));
    }
  }

  // ---------------------------------------------------------------------------------------------
  // What acceptance means
  // ---------------------------------------------------------------------------------------------

  /** The block of the k-th output of a proposal on a parent at head. */
  function OutputBlock(head: nat, span: nat, k: nat): nat {
    head + (k + 1) * span
  }

  function BlockOf(v: Validity, k: nat): nat {
    OutputBlock(v.head, v.span, k)
  }

  /** The k-th published output agrees with the derived one; the last one demands zeros behind the others instead. */
  ghost predicate Agrees(v: Validity, k: nat, root: B256) {
    var blobIndex, position := k / FIELD_ELEMENTS_PER_BLOB, k % FIELD_ELEMENTS_PER_BLOB;
    if k + 1 < v.outputCount then
      blobIndex < |v.blobs| && FeBytes(v.blobs[blobIndex], position) == ToBytes(HashToFe(root), 32)
    else
      v.outputCount > 1 ==> blobIndex == |v.blobs| - 1 && ZeroFrom(v.blobs[blobIndex], 32 * position)
  }

  lemma MulStrict(a: nat, b: nat, s: nat)
    requires a < b && s > 0
    ensures a * s + s <= b * s
  {
    Scaled(a + 1, b, s);
    assert (a + 1) * s == a * s + s;
  }

  lemma MulMod(q: nat, s: nat)
    requires s > 0
    ensures (q * s) % s == 0 && (q * s) / s == q
  {
    var d := (q * s) / s;
    assert q * s == d * s + (q * s) % s;
    if d < q {
      MulStrict(d, q, s);
    } else if q < d {
      MulStrict(q, d, s);
    }
  }

  /** On a block within the range no arithmetic fails: its index exists and is below the output count. */
  lemma PublishedIndexInRange(v: Validity, block: nat)
    requires v.head < block <= LastBlock(v)
    ensures v.span > 0 && v.outputCount > 0
    ensures var offset := block - v.head;
            offset % v.span == 0 ==> 0 <= offset / v.span - 1 <= v.outputCount - 1 && BlockOf(v, offset / v.span - 1) == block
  {
  }

  lemma PublishedAcceptedIff(v: Validity, k: nat, root: B256)
    requires k < v.outputCount
    ensures CheckPublished(v, k, root).Accept? <==> Agrees(v, k, root)
  {
  }

  /** A published block is accepted iff it agrees. */
  lemma PublishedBlockAcceptedIff(v: Validity, k: nat, root: B256)
    requires v.head < BlockOf(v, k) <= LastBlock(v)
    ensures CheckOutput(v, BlockOf(v, k), root).Accept? <==> Agrees(v, k, root)
  {
    PublishedIndexInRange(v, BlockOf(v, k));
    MulMod(k + 1, v.span);
    PublishedAcceptedIff(v, k, root);
  }

  /** Any other block within the range is accepted. */
  lemma UnpublishedBlockAccepted(v: Validity, block: nat, root: B256)
    requires v.head < block <= LastBlock(v)
    requires forall k: nat :: BlockOf(v, k) != block
    ensures CheckOutput(v, block, root).Accept?
  {
    PublishedIndexInRange(v, block);
  }

  /** Validation accepts exactly the outputs that end within the proposal and agree wherever one is published. */
  lemma AcceptedIff(v: Validity, proofHead: nat, roots: seq<B256>)
    ensures Validate(v, proofHead, roots).Accept? <==>
            && v.head <= proofHead && proofHead + |roots| <= LastBlock(v)
            && forall k: nat :: proofHead < BlockOf(v, k) <= proofHead + |roots| ==>
                 Agrees(v, k, roots[BlockOf(v, k) - proofHead - 1])
  {
    if v.head <= proofHead <= LastBlock(v) {
      CheckFromIsAll(v, proofHead, roots);
      if CheckFrom(v, proofHead, roots).Accept? {
        AcceptedWithinRange(v, proofHead, roots);
        forall k: nat | proofHead < BlockOf(v, k) <= proofHead + |roots|
          ensures Agrees(v, k, roots[BlockOf(v, k) - proofHead - 1])
        {
          AcceptedAgrees(v, proofHead, roots, k);
        }
      } else if proofHead + |roots| <= LastBlock(v) {
        var i :| 0 <= i < |roots| && !CheckOutput(v, proofHead + i + 1, roots[i]).Accept?;
        if k: nat :| BlockOf(v, k) == proofHead + i + 1 {
          PublishedBlockAcceptedIff(v, k, roots[i]);
        } else {
          UnpublishedBlockAccepted(v, proofHead + i + 1, roots[i]);
        }
      }
    }
  }

  lemma AcceptedAgrees(v: Validity, proofHead: nat, roots: seq<B256>, k: nat)
    requires v.head <= proofHead < BlockOf(v, k) <= proofHead + |roots|
    requires proofHead + |roots| <= LastBlock(v)
    requires forall i :: 0 <= i < |roots| ==> CheckOutput(v, proofHead + i + 1, roots[i]).Accept?
    ensures Agrees(v, k, roots[BlockOf(v, k) - proofHead - 1])
  {
    var i := BlockOf(v, k) - proofHead - 1;
    assert CheckOutput(v, proofHead + i + 1, roots[i]).Accept?;
    PublishedBlockAcceptedIff(v, k, roots[i]);
  }

  /** The k-th output is published at the block, and the blobs do not reach there; for the last one, there are none. */
  ghost predicate BlobMissing(v: Validity, block: nat, k: nat) {
    && k < v.outputCount && BlockOf(v, k) == block
    && if k + 1 < v.outputCount then |v.blobs| <= k / FIELD_ELEMENTS_PER_BLOB else k > 0 && v.blobs == []
  }

  ghost predicate Unreached(v: Validity, block: nat) {
    exists k: nat :: BlobMissing(v, block, k)
  }

  /** The check of an output never panics on the arithmetic of its index: the only panic is a missing blob. */
  lemma PanicsIffBlobMissing(v: Validity, block: nat, root: B256)
    requires v.head < block
    ensures CheckOutput(v, block, root).Panic? <==> Unreached(v, block)
  {
    if k: nat :| BlobMissing(v, block, k) {
      if v.span > 0 {
        Scaled(k + 1, v.outputCount, v.span);
        MulMod(k + 1, v.span);
      }
    }
    if CheckOutput(v, block, root).Panic? {
      PublishedIndexInRange(v, block);
      assert BlobMissing(v, block, (block - v.head) / v.span - 1);
    }
  }

  lemma {:induction false} CheckFromPanics(v: Validity, block: nat, roots: seq<B256>)
    requires block >= v.head
    ensures CheckFrom(v, block, roots).Panic? <==>
            exists i :: 0 <= i < |roots| && CheckFrom(v, block, roots[..i]).Accept? && CheckOutput(v, block + i + 1, roots[i]).Panic?
    decreases |roots|
  {
    if CheckFrom(v, block, roots).Panic? {
      if CheckOutput(v, block + 1, roots[0]).Panic? {
        assert CheckFrom(v, block, roots[..0]).Accept?;
      } else {
        CheckFromPanics(v, block + 1, roots[1..]);
        var i :| 0 <= i < |roots| - 1 && CheckFrom(v, block + 1, roots[1..][..i]).Accept?
                 && CheckOutput(v, block + 1 + i + 1, roots[1..][i]).Panic?;
        assert roots[..i + 1][1..] == roots[1..][..i] && CheckFrom(v, block, roots[..i + 1]).Accept?;
        assert CheckOutput(v, block + (i + 1) + 1, roots[i + 1]).Panic?;
      }
    }
    forall i | 0 <= i < |roots| && CheckFrom(v, block, roots[..i]).Accept? && CheckOutput(v, block + i + 1, roots[i]).Panic?
      ensures CheckFrom(v, block, roots).Panic?
    {
      assert roots == roots[..i] + roots[i..];
      CheckFromConcat(v, block, roots[..i], roots[i..]);
    }
  }

  /** Validation panics exactly when it meets a missing blob before anything that it rejects. */
  lemma ValidatePanicsIff(v: Validity, proofHead: nat, roots: seq<B256>)
    ensures Validate(v, proofHead, roots).Panic? <==>
            exists i :: 0 <= i < |roots| && Validate(v, proofHead, roots[..i]).Accept? && Unreached(v, proofHead + i + 1)
  {
    if v.head <= proofHead <= LastBlock(v) {
      CheckFromPanics(v, proofHead, roots);
      forall i | 0 <= i < |roots|
        ensures CheckOutput(v, proofHead + i + 1, roots[i]).Panic? <==> Unreached(v, proofHead + i + 1)
      {
        PanicsIffBlobMissing(v, proofHead + i + 1, roots[i]);
      }
    }
  }

  // ---------------------------------------------------------------------------------------------
  // Honest proposals
  // ---------------------------------------------------------------------------------------------

  /** What an honest proposer publishes of the outputs out(n) of the blocks n after its parent. */
  function HonestFes(out: nat -> B256, head: U64, outputCount: U64, span: U64): (fes: seq<B256>)
    requires outputCount > 0
    ensures |fes| == outputCount - 1
    ensures forall k :: 0 <= k < |fes| ==> fes[k] == HashToFe(out(OutputBlock(head, span, k)))
  {
    seq<B256>(outputCount - 1, k requires 0 <= k < outputCount - 1 => HashToFe(out(OutputBlock(head, span, k))))
  }

  function Honest(out: nat -> B256, head: U64, outputCount: U64, span: U64): Validity
    requires outputCount > 0
  {
    Validity(head, outputCount, span, Sidecar(HonestFes(out, head, outputCount, span)))
  }

  function Outputs(out: nat -> B256, head: nat, n: nat): (roots: seq<B256>)
    ensures |roots| == n && forall i :: 0 <= i < n ==> roots[i] == out(head + 1 + i)
  {
    seq(n, i requires 0 <= i < n => out(head + 1 + i))
  }

  /** The last published index lies in the last blob exactly when the elements do not fill their blobs. */
  predicate LastIndexInLastBlob(outputCount: nat) {
    outputCount <= 1 || (outputCount - 1) % FIELD_ELEMENTS_PER_BLOB != 0
  }

  lemma SidecarTail(fes: seq<B256>)
    requires fes != []
    ensures var blobs, b, i := Sidecar(fes), |fes| / FIELD_ELEMENTS_PER_BLOB, |fes| % FIELD_ELEMENTS_PER_BLOB;
            i != 0 <==> b == |blobs| - 1 && ZeroFrom(blobs[b], 32 * i)
  {
    var b, i := |fes| / FIELD_ELEMENTS_PER_BLOB, |fes| % FIELD_ELEMENTS_PER_BLOB;
    if i != 0 {
      var chunk := fes[b * FIELD_ELEMENTS_PER_BLOB..ChunkEnd(fes, b)];
      assert Sidecar(fes)[b] == PaddedBlob(chunk);
      assert |chunk| == i;
    }
  }

  lemma HonestAgrees(out: nat -> B256, head: U64, outputCount: U64, span: U64, k: nat)
    requires 0 <= k < outputCount
    ensures var v := Honest(out, head, outputCount, span);
            Agrees(v, k, out(BlockOf(v, k))) <==> (k + 1 == outputCount ==> LastIndexInLastBlob(outputCount))
  {
    var fes := HonestFes(out, head, outputCount, span);
    if k + 1 < outputCount {
      SidecarFe(fes, k);
    } else if outputCount > 1 {
      SidecarTail(fes);
    }
  }

  lemma IndexBelowCount(v: Validity, k: nat)
    requires v.span > 0 && BlockOf(v, k) <= LastBlock(v)
    ensures k < v.outputCount
    ensures k + 1 < v.outputCount ==> BlockOf(v, k) < LastBlock(v)
  {
    if v.outputCount < k + 1 {
      MulStrict(v.outputCount, k + 1, v.span);
    } else if k + 1 < v.outputCount {
      MulStrict(k + 1, v.outputCount, v.span);
    }
  }

  /** Honest blobs pass on honest outputs of any part of the proposal, except on a part that reaches the last
      output of a proposal whose intermediate outputs fill their blobs completely. */
  lemma HonestAcceptedIff(out: nat -> B256, head: U64, outputCount: U64, span: U64, proofHead: nat, n: nat)
    requires outputCount > 0 && span > 0
    requires head <= proofHead && proofHead + n <= head + outputCount * span
    ensures Validate(Honest(out, head, outputCount, span), proofHead, Outputs(out, proofHead, n)).Accept?
       <==> (n > 0 && proofHead + n == head + outputCount * span ==> LastIndexInLastBlob(outputCount))
  {
    var v, roots := Honest(out, head, outputCount, span), Outputs(out, proofHead, n);
    AcceptedIff(v, proofHead, roots);
    forall k: nat | proofHead < BlockOf(v, k) <= proofHead + n
      ensures k < outputCount && roots[BlockOf(v, k) - proofHead - 1] == out(BlockOf(v, k))
      ensures Agrees(v, k, out(BlockOf(v, k))) <==> (k + 1 == outputCount ==> LastIndexInLastBlob(outputCount))
      ensures k + 1 < outputCount ==> BlockOf(v, k) < LastBlock(v)
    {
      IndexBelowCount(v, k);
      HonestAgrees(out, head, outputCount, span, k);
    }
    assert BlockOf(v, outputCount - 1) == LastBlock(v);
  }

  /** The blocks that a proposal covers. */
  function BlocksOf(outputCount: nat, span: nat): nat {
    outputCount * span
  }

  /** A proof over a whole honest proposal is possible iff its outputs do not fill their blobs completely. */
  lemma HonestProposalProvableIff(out: nat -> B256, head: U64, outputCount: U64, span: U64)
    requires outputCount > 0 && span > 0
    ensures Validate(Honest(out, head, outputCount, span), head, Outputs(out, head, BlocksOf(outputCount, span))).Accept?
       <==> outputCount == 1 || (outputCount - 1) % FIELD_ELEMENTS_PER_BLOB != 0
  {
    MulStrict(0, outputCount, span);
    HonestAcceptedIff(out, head, outputCount, span, head, outputCount * span);
  }

  /** A proposal that no proof can show to be right: 4097 outputs, one block each, whose first 4096 fill a blob. */
  lemma FullBlobUnprovable(out: nat -> B256)
    ensures !Validate(Honest(out, 0, FIELD_ELEMENTS_PER_BLOB + 1, 1), 0, Outputs(out, 0, FIELD_ELEMENTS_PER_BLOB + 1)).Accept?
  {
    HonestProposalProvableIff(out, 0, FIELD_ELEMENTS_PER_BLOB + 1, 1);
  }
}
