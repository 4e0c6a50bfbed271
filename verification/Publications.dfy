/** What the sync agent and the validity proof each conclude from the same published blobs
    (crates/sync/src/proposal.rs, crates/sync/src/agent.rs, crates/kona/src/precondition.rs). */
module Publications {
  import opened Common
  import opened BigEndian
  import opened Blobs
  import opened Precondition
  import opened Proposals

  function AllFes(blobs: seq<Blob>): (r: seq<B256>)
    ensures |r| == FIELD_ELEMENTS_PER_BLOB * |blobs|
  {
    if blobs == [] then [] else FeRange(blobs[0], 0, FIELD_ELEMENTS_PER_BLOB) + AllFes(blobs[1..])
  }

  lemma {:induction false} AllFesAt(blobs: seq<Blob>, k: nat)
    requires k < FIELD_ELEMENTS_PER_BLOB * |blobs|
    ensures AllFes(blobs)[k] == FeAt(blobs[k / FIELD_ELEMENTS_PER_BLOB], k % FIELD_ELEMENTS_PER_BLOB)
    decreases |blobs|
  {
    BlobIndex(k);
    if k >= FIELD_ELEMENTS_PER_BLOB {
      var j := k - FIELD_ELEMENTS_PER_BLOB;
      AllFesAt(blobs[1..], j);
      assert blobs[1..][j / FIELD_ELEMENTS_PER_BLOB] == blobs[k / FIELD_ELEMENTS_PER_BLOB];
    }
  }

  /** Behind the first blob, an element lies one blob further on. */
  lemma BlobIndex(k: nat)
    ensures k < FIELD_ELEMENTS_PER_BLOB ==> k / FIELD_ELEMENTS_PER_BLOB == 0 && k % FIELD_ELEMENTS_PER_BLOB == k
    ensures k >= FIELD_ELEMENTS_PER_BLOB ==>
              var j := k - FIELD_ELEMENTS_PER_BLOB;
              && k / FIELD_ELEMENTS_PER_BLOB == 1 + j / FIELD_ELEMENTS_PER_BLOB
              && k % FIELD_ELEMENTS_PER_BLOB == j % FIELD_ELEMENTS_PER_BLOB
  {
  }

  lemma {:induction false} FeRangeSplit(blob: Blob, n: nat, m: nat)
    requires n <= m <= FIELD_ELEMENTS_PER_BLOB
    ensures FeRange(blob, 0, n) + FeRange(blob, n, m) == FeRange(blob, 0, m)
  {
    if n < m {
      FeRangeSplit(blob, n, m - 1);
      Reassociate(FeRange(blob, 0, n), FeRange(blob, n, m - 1), [FeAt(blob, m - 1)]);
    }
  }

  lemma Shuffle<T>(io: seq<T>, trail: seq<T>, a: seq<T>, b: seq<T>, rest: seq<T>)
    requires trail == [] || a == []
    ensures (io + a) + (trail + b) + rest == io + trail + ((a + b) + rest)
  {
  }

  /** Loading drops nothing and keeps the order: the first outputCount - 1 elements, then all the others. */
  lemma {:induction false} LoadedIsAll(blobs: seq<Blob>, outputCount: nat, io: seq<B256>, trail: seq<B256>)
    requires |io| < outputCount && (trail == [] || |io| == outputCount - 1)
    requires Loaded(blobs, outputCount, io, trail).Some?
    ensures var r := Loaded(blobs, outputCount, io, trail).value;
            && r.0 + r.1 == io + trail + AllFes(blobs)
            && |r.0| == Min(outputCount - 1, |io| + FIELD_ELEMENTS_PER_BLOB * |blobs|)
    decreases |blobs|
  {
    if blobs != [] {
      var n := InBlob(outputCount - |io| - 1);
      var a, b := FeRange(blobs[0], 0, n), FeRange(blobs[0], n, FIELD_ELEMENTS_PER_BLOB);
      LoadedIsAll(blobs[1..], outputCount, io + a, trail + b);
      FeRangeSplit(blobs[0], n, FIELD_ELEMENTS_PER_BLOB);
      Shuffle(io, trail, a, b, AllFes(blobs[1..]));
    }
  }

  /** A loaded proposal: its elements are those of its blobs, and there are enough of them. */
  ghost predicate LoadedFrom(blobs: seq<Blob>, outputCount: nat, p: Proposal) {
    outputCount > 0 && Loaded(blobs, outputCount, [], []) == Some((p.io, p.trail)) && |p.io| == outputCount - 1
  }

  lemma ElementAt(blobs: seq<Blob>, outputCount: nat, p: Proposal, k: nat)
    requires LoadedFrom(blobs, outputCount, p) && k < FIELD_ELEMENTS_PER_BLOB * |blobs|
    ensures |p.io| + |p.trail| == FIELD_ELEMENTS_PER_BLOB * |blobs|
    ensures (if k < |p.io| then p.io[k] else p.trail[k - |p.io|])
         == FeAt(blobs[k / FIELD_ELEMENTS_PER_BLOB], k % FIELD_ELEMENTS_PER_BLOB)
  {
    LoadedIsAll(blobs, outputCount, [], []);
    AllFesAt(blobs, k);
    assert [] + [] + AllFes(blobs) == AllFes(blobs);
    assert (p.io + p.trail)[k] == AllFes(blobs)[k];
  }

  /** Bytes and elements determine each other. */
  lemma FeBytesIff(blob: Blob, i: nat, fe: B256)
    requires i < FIELD_ELEMENTS_PER_BLOB
    ensures FeBytes(blob, i) == ToBytes(fe, 32) <==> FeAt(blob, i) == fe
  {
    Widths();
    DecodeEncode(fe, 32);
    EncodeDecode(FeBytes(blob, i));
  }

  lemma ZeroFe(blob: Blob, i: nat)
    requires i < FIELD_ELEMENTS_PER_BLOB
    ensures FeAt(blob, i) == 0 <==> forall j :: 32 * i <= j < 32 * i + 32 ==> blob[j] == 0
  {
    FeBytesIff(blob, i, 0);
    ZeroBytes(32);
    if forall j :: 32 * i <= j < 32 * i + 32 ==> blob[j] == 0 {
      assert FeBytes(blob, i) == Zeros(32);
    }
    if FeAt(blob, i) == 0 {
      forall j | 32 * i <= j < 32 * i + 32 ensures blob[j] == 0 {
        assert blob[j] == FeBytes(blob, i)[j - 32 * i];
      }
    }
  }

  /** A blob is zero from a position on exactly if its elements from there on are. */
  lemma ZeroFromIff(blob: Blob, position: nat)
    requires position <= FIELD_ELEMENTS_PER_BLOB
    ensures ZeroFrom(blob, 32 * position)
       <==> forall i :: position <= i < FIELD_ELEMENTS_PER_BLOB ==> FeAt(blob, i) == 0
  {
    if ZeroFrom(blob, 32 * position) {
      forall i | position <= i < FIELD_ELEMENTS_PER_BLOB ensures FeAt(blob, i) == 0 {
        ZeroFe(blob, i);
      }
    }
    if forall i :: position <= i < FIELD_ELEMENTS_PER_BLOB ==> FeAt(blob, i) == 0 {
      forall j | 32 * position <= j < BYTES_PER_BLOB ensures blob[j] == 0 {
        ZeroFe(blob, j / 32);
        assert FeAt(blob, j / 32) == 0;
      }
    }
  }

  predicate AllZero(fes: seq<B256>) {
    forall i :: 0 <= i < |fes| ==> fes[i] == 0
  }

  predicate LastIndexIn(blobs: seq<Blob>, outputCount: nat)
    requires outputCount > 0
  {
    (outputCount - 1) / FIELD_ELEMENTS_PER_BLOB == |blobs| - 1
  }

  lemma TrailElement(blobs: seq<Blob>, outputCount: nat, p: Proposal, i: nat)
    requires LoadedFrom(blobs, outputCount, p) && LastIndexIn(blobs, outputCount) && i < |p.trail|
    requires |p.io| + |p.trail| == FIELD_ELEMENTS_PER_BLOB * |blobs|
    ensures p.trail[i] == FeAt(blobs[|blobs| - 1], (outputCount - 1) % FIELD_ELEMENTS_PER_BLOB + i)
  {
    var k := |p.io| + i;
    assert k / FIELD_ELEMENTS_PER_BLOB == |blobs| - 1;
    assert k % FIELD_ELEMENTS_PER_BLOB == (outputCount - 1) % FIELD_ELEMENTS_PER_BLOB + i;
    ElementAt(blobs, outputCount, p, k);
  }

  lemma TrailInLastBlob(blobs: seq<Blob>, outputCount: nat, p: Proposal)
    requires LoadedFrom(blobs, outputCount, p) && LastIndexIn(blobs, outputCount)
    ensures var position := (outputCount - 1) % FIELD_ELEMENTS_PER_BLOB;
            p.trail == FeRange(blobs[|blobs| - 1], position, FIELD_ELEMENTS_PER_BLOB)
  {
    var position := (outputCount - 1) % FIELD_ELEMENTS_PER_BLOB;
    ElementAt(blobs, outputCount, p, |p.io|);
    forall i | 0 <= i < |p.trail| ensures p.trail[i] == FeAt(blobs[|blobs| - 1], position + i) {
      TrailElement(blobs, outputCount, p, i);
    }
  }

  /** Where the last published index lies in the last blob, the trail is what the validity proof checks for zeros. */
  lemma TrailIsZeroIff(blobs: seq<Blob>, outputCount: nat, p: Proposal)
    requires LoadedFrom(blobs, outputCount, p) && LastIndexIn(blobs, outputCount)
    ensures ZeroFrom(blobs[|blobs| - 1], 32 * ((outputCount - 1) % FIELD_ELEMENTS_PER_BLOB)) <==> AllZero(p.trail)
  {
    var blob, position := blobs[|blobs| - 1], (outputCount - 1) % FIELD_ELEMENTS_PER_BLOB;
    ZeroFromIff(blob, position);
    TrailInLastBlob(blobs, outputCount, p);
    if AllZero(p.trail) {
      forall i | position <= i < FIELD_ELEMENTS_PER_BLOB ensures FeAt(blob, i) == 0 {
        assert p.trail[i - position] == 0;
      }
    }
  }

  /** At the block of a published output, the proof accepts exactly the roots that the published element stands for. */
  lemma ElementAcceptedIff(v: Validity, k: nat, root: B256)
    requires v.span > 0 && v.head < BlockOf(v, k) && k + 1 < v.outputCount && k / FIELD_ELEMENTS_PER_BLOB < |v.blobs|
    ensures CheckOutput(v, BlockOf(v, k), root).Accept?
       <==> Reduces(root, FeAt(v.blobs[k / FIELD_ELEMENTS_PER_BLOB], k % FIELD_ELEMENTS_PER_BLOB))
  {
    PublishedBlocks(v, k);
    PublishedBlockAcceptedIff(v, k, root);
    var blob, i := v.blobs[k / FIELD_ELEMENTS_PER_BLOB], k % FIELD_ELEMENTS_PER_BLOB;
    FeBytesIff(blob, i, HashToFe(root));
    HashToFeIff(root, FeAt(blob, i));
  }

  /** The local outputs are those of the chain. */
  ghost predicate OutputsOf(outputs: map<nat, B256>, out: nat -> B256) {
    forall n :: n in outputs ==> outputs[n] == out(n)
  }

  ghost predicate IoMatches(out: nat -> B256, v: Validity, p: Proposal) {
    forall k :: 0 <= k < |p.io| ==> p.io[k] == HashToFe(out(BlockOf(v, k)))
  }

  lemma IoAgreesIff(out: nat -> B256, v: Validity, p: Proposal, k: nat)
    requires LoadedFrom(v.blobs, v.outputCount, p) && k < |p.io|
    ensures Agrees(v, k, out(BlockOf(v, k))) <==> p.io[k] == HashToFe(out(BlockOf(v, k)))
  {
    LoadedIsAll(v.blobs, v.outputCount, [], []);
    ElementAt(v.blobs, v.outputCount, p, k);
    FeBytesIff(v.blobs[k / FIELD_ELEMENTS_PER_BLOB], k % FIELD_ELEMENTS_PER_BLOB, HashToFe(out(BlockOf(v, k))));
  }

  lemma ClaimAgreesIff(v: Validity, p: Proposal, root: B256)
    requires v.outputCount > 1 && LoadedFrom(v.blobs, v.outputCount, p)
    ensures Agrees(v, v.outputCount - 1, root) <==> LastIndexIn(v.blobs, v.outputCount) && AllZero(p.trail)
  {
    if LastIndexIn(v.blobs, v.outputCount) {
      TrailIsZeroIff(v.blobs, v.outputCount, p);
    }
  }

  lemma PublishedBlocks(v: Validity, k: nat)
    requires v.span > 0
    ensures v.head < BlockOf(v, k) <= LastBlock(v) <==> k < v.outputCount
  {
    if k < v.outputCount {
      Scaled(k + 1, v.outputCount, v.span);
      MulStrict(0, k + 1, v.span);
    } else {
      MulStrict(v.outputCount, k + 1, v.span);
    }
  }

  /** A proof of the whole proposal accepts exactly if every published output agrees. */
  lemma WholeAcceptedIff(out: nat -> B256, v: Validity)
    requires v.span > 0
    ensures Validate(v, v.head, Outputs(out, v.head, BlocksOf(v.outputCount, v.span))).Accept?
       <==> forall k: nat :: k < v.outputCount ==> Agrees(v, k, out(BlockOf(v, k)))
  {
    var roots := Outputs(out, v.head, BlocksOf(v.outputCount, v.span));
    AcceptedIff(v, v.head, roots);
    forall k: nat
      ensures v.head < BlockOf(v, k) <= v.head + |roots| <==> k < v.outputCount
      ensures k < v.outputCount ==> roots[BlockOf(v, k) - v.head - 1] == out(BlockOf(v, k))
    {
      PublishedBlocks(v, k);
    }
  }

  /** The validity proof of a whole loaded proposal accepts its blobs iff every element is right and the last blob is
      the one that the claimed output would follow in. */
  lemma ProvableIff(out: nat -> B256, v: Validity, p: Proposal)
    requires v.span > 0 && v.outputCount > 1 && LoadedFrom(v.blobs, v.outputCount, p)
    ensures Validate(v, v.head, Outputs(out, v.head, BlocksOf(v.outputCount, v.span))).Accept?
       <==> IoMatches(out, v, p) && LastIndexIn(v.blobs, v.outputCount) && AllZero(p.trail)
  {
    WholeAcceptedIff(out, v);
    var last := v.outputCount - 1;
    forall k: nat | k < last ensures Agrees(v, k, out(BlockOf(v, k))) <==> p.io[k] == HashToFe(out(BlockOf(v, k))) {
      IoAgreesIff(out, v, p, k);
    }
    ClaimAgreesIff(v, p, out(BlockOf(v, last)));
    assert IoMatches(out, v, p) <==> forall k: nat :: k < last ==> Agrees(v, k, out(BlockOf(v, k)));
  }

  /**
   * The agent and the validity proof agree: of a judged proposal with the right claim and parent, the blobs pass the
   * precondition exactly if the agent finds the proposal correct and the last index lies in the last blob.
   */
  lemma AgentAgreesWithProof(
      outputs: map<nat, B256>, out: nat -> B256, d: Deployment, parent: Proposal, p: Proposal, v: Validity)
    requires v.span > 0 && v.outputCount > 1 && LoadedFrom(v.blobs, v.outputCount, p)
    requires v.head == parent.height && d.outputCount == v.outputCount && d.span == v.span && p.height == LastBlock(v)
    requires Loadable(p) && HasParent(p) && |p.io| == |p.correctIo| && OutputsOf(outputs, out)
    requires Assess(outputs, d, Some(parent), p).Judged? && ParentVerdict(Some(parent), p) == Some(true)
    requires p.outputRoot == out(p.height)
    ensures Validate(v, v.head, Outputs(out, v.head, BlocksOf(v.outputCount, v.span))).Accept? <==>
            && IsCorrect(Assess(outputs, d, Some(parent), p).proposal) == Some(true)
            && LastIndexIn(v.blobs, v.outputCount)
  {
    AssessmentDecides(outputs, d, Some(parent), p);
    ProvableIff(out, v, p);
    forall k | 0 <= k < |p.io| ensures IoBlock(d, p, k) == BlockOf(v, k) && outputs[IoBlock(d, p, k)] == out(BlockOf(v, k)) {
    }
  }

  lemma HonestIsTruthful(
      outputs: map<nat, B256>, out: nat -> B256, d: Deployment, p: Proposal, head: U64, outputCount: U64, span: U64)
    requires outputCount > 0 && d.outputCount == outputCount && d.span == span
    requires p.height == head + outputCount * span && p.outputRoot == out(p.height)
    requires p.io == HonestFes(out, head, outputCount, span) && AllZero(p.trail)
    requires OutputsOf(outputs, out) && Fetched(outputs, d, p)
    ensures Truthful(outputs, d, p)
  {
    forall k | 0 <= k < |p.io| ensures HashToFe(outputs[IoBlock(d, p, k)]) == p.io[k] {
      assert IoBlock(d, p, k) == head + (k + 1) * span;
    }
  }

  /** An honest proposal with a correct parent, loaded from its own sidecar, is found correct. */
  lemma HonestProposalFoundCorrect(
      outputs: map<nat, B256>, out: nat -> B256, d: Deployment, parent: Proposal, p: Proposal,
      head: U64, outputCount: U64, span: U64)
    requires outputCount > 0 && d.outputCount == outputCount && d.span == span
    requires p.height == head + outputCount * span && p.outputRoot == out(p.height)
    requires Loaded(Sidecar(HonestFes(out, head, outputCount, span)), outputCount, [], []) == Some((p.io, p.trail))
    requires Loadable(p) && HasParent(p) && |p.correctIo| == outputCount - 1
    requires OutputsOf(outputs, out) && Fetched(outputs, d, p) && ParentVerdict(Some(parent), p) == Some(true)
    requires forall i :: 0 <= i < |p.correctIo| ==> p.correctIo[i].None?
    ensures Assess(outputs, d, Some(parent), p).Judged?
    ensures IsCorrect(Assess(outputs, d, Some(parent), p).proposal) == Some(true)
  {
    SidecarRoundTrip(HonestFes(out, head, outputCount, span));
    HonestIsTruthful(outputs, out, d, p, head, outputCount, span);
    AssessmentBailsIff(outputs, d, Some(parent), p);
    AssessmentDecides(outputs, d, Some(parent), p);
  }
}
