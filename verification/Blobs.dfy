/** Field elements in blobs, and the sidecar that publishes them (crates/kona/src/blobs.rs, crates/sync/src/proposal.rs). */
module Blobs {
  import opened Common
  import opened BigEndian

  /** EIP-4844, section Parameters. */
  const FIELD_ELEMENTS_PER_BLOB: nat := 4096
  const BYTES_PER_BLOB: nat := 131072
  const BLS_MODULUS: nat := 52435875175126190479447740508185965837690552500527637822603658699938581184513

  type Blob = b: Bytes | |b| == BYTES_PER_BLOB witness Zeros(BYTES_PER_BLOB)

  function Zeros(n: nat): Bytes {
    Filled(0, n)
  }

  function HashToFe(hash: B256): (fe: B256)
    ensures fe < BLS_MODULUS && Reduces(hash, fe)
  {
    assert HasQuotient(hash, hash / BLS_MODULUS, hash % BLS_MODULUS);
    hash % BLS_MODULUS
  }

  predicate HasQuotient(hash: int, q: int, fe: int) {
    hash == q * BLS_MODULUS + fe
  }

  /** A field element that stands for the hash: reduced, and congruent to it. */
  ghost predicate Reduces(hash: B256, fe: B256) {
    fe < BLS_MODULUS && exists q :: HasQuotient(hash, q, fe)
  }

  /** Exactly one element stands for a hash, and it is the hash itself if that is reduced. */
  lemma HashToFeIff(hash: B256, fe: B256)
    ensures HashToFe(hash) == fe <==> Reduces(hash, fe)
    ensures hash < BLS_MODULUS ==> HashToFe(hash) == hash
  {
    if q :| fe < BLS_MODULUS && HasQuotient(hash, q, fe) {
      QuotientIsSole(hash, q, fe, HashToFe(hash));
    }
    if hash < BLS_MODULUS {
      assert HasQuotient(hash, 0, hash);
      QuotientIsSole(hash, 0, hash, HashToFe(hash));
    }
  }

  lemma QuotientIsSole(hash: B256, q: int, fe: B256, other: B256)
    requires HasQuotient(hash, q, fe) && fe < BLS_MODULUS && Reduces(hash, other)
    ensures fe == other
  {
    var r :| HasQuotient(hash, r, other);
  }

  /** The 32 bytes of the i-th field element. */
  function FeBytes(blob: Blob, i: nat): (b: Bytes)
    requires i < FIELD_ELEMENTS_PER_BLOB
    ensures |b| == 32
  {
    blob[32 * i..32 * i + 32]
  }

  function FeAt(blob: Blob, i: nat): B256
    requires i < FIELD_ELEMENTS_PER_BLOB
  {
    Widths();
    FromBytes(FeBytes(blob, i))
  }

  predicate Canonical(blob: Blob, i: nat)
    requires i < FIELD_ELEMENTS_PER_BLOB
  {
    FeAt(blob, i) < BLS_MODULUS
  }

  /** The elements at the given positions, unless one of them is not reduced. */
  method FieldElements(blob: Blob, from: nat, to: nat) returns (r: Option<seq<B256>>)
    requires from <= to <= FIELD_ELEMENTS_PER_BLOB
    ensures r.Some? <==> forall i :: from <= i < to ==> Canonical(blob, i)
    ensures r.Some? ==> r.value == FeRange(blob, from, to)
  {
    var elements: seq<B256> := [];
    for i := from to to
      invariant forall k :: from <= k < i ==> Canonical(blob, k)
      invariant elements == FeRange(blob, from, i)
    {
      var fe := FeAt(blob, i);
      if fe >= BLS_MODULUS {
        assert !Canonical(blob, i);
        return None;
      }
      elements := elements + [fe];
    }
    r := Some(elements);
  }

  function FeRange(blob: Blob, from: nat, to: nat): (r: seq<B256>)
    requires from <= to <= FIELD_ELEMENTS_PER_BLOB
    ensures |r| == to - from
    ensures forall i :: 0 <= i < to - from ==> r[i] == FeAt(blob, from + i)
  {
    if from == to then [] else FeRange(blob, from, to - 1) + [FeAt(blob, to - 1)]
  }

  // ---------------------------------------------------------------------------------------------
  // Publishing
  // ---------------------------------------------------------------------------------------------

  function EncodeFes(fes: seq<B256>): (b: Bytes)
    ensures |b| == 32 * |fes|
  {
    if fes == [] then [] else EncodeFes(fes[..|fes| - 1]) + ToBytes(fes[|fes| - 1], 32)
  }

  function PaddedBlob(fes: seq<B256>): Blob
    requires |fes| <= FIELD_ELEMENTS_PER_BLOB
  {
    EncodeFes(fes) + Zeros(BYTES_PER_BLOB - 32 * |fes|)
  }

  function ChunkEnd(fes: seq<B256>, b: nat): nat {
    Min((b + 1) * FIELD_ELEMENTS_PER_BLOB, |fes|)
  }

  function BlobCount(n: nat): nat {
    (n + FIELD_ELEMENTS_PER_BLOB - 1) / FIELD_ELEMENTS_PER_BLOB
  }

  /** The blobs of the field elements, each but the last one full. */
  function Sidecar(fes: seq<B256>): (blobs: seq<Blob>)
    ensures |blobs| == BlobCount(|fes|)
  {
    seq(BlobCount(|fes|), b requires 0 <= b < BlobCount(|fes|) =>
      PaddedBlob(fes[b * FIELD_ELEMENTS_PER_BLOB..ChunkEnd(fes, b)]))
  }

  method CreateSidecar(fes: seq<B256>) returns (blobs: seq<Blob>)
    ensures blobs == Sidecar(fes)
  {
    blobs := [];
    while true
      invariant |blobs| <= BlobCount(|fes|) && blobs == Sidecar(fes)[..|blobs|]
      decreases BlobCount(|fes|) - |blobs|
    {
      var start := |blobs| * FIELD_ELEMENTS_PER_BLOB;
      if start >= |fes| {
        break;
      }
      var end := Min(start + FIELD_ELEMENTS_PER_BLOB, |fes|);
      blobs := blobs + [PaddedBlob(fes[start..end])];
    }
  }

  lemma {:induction false} EncodedFe(fes: seq<B256>, i: nat)
    requires i < |fes|
    ensures EncodeFes(fes)[32 * i..32 * i + 32] == ToBytes(fes[i], 32)
  {
    var n := |fes| - 1;
    var front, last := EncodeFes(fes[..n]), ToBytes(fes[n], 32);
    assert EncodeFes(fes) == front + last;
    if i < n {
      EncodedFe(fes[..n], i);
      assert (front + last)[32 * i..32 * i + 32] == front[32 * i..32 * i + 32];
    } else {
      assert (front + last)[32 * n..32 * n + 32] == last;
    }
  }

  lemma {:induction false} ZeroBytes(n: nat)
    ensures ToBytes(0, n) == Zeros(n)
  {
    if n > 0 {
      ZeroBytes(n - 1);
    }
  }

  /** A padded blob holds its elements and then zeros. */
  lemma PaddedFe(fes: seq<B256>, i: nat)
    requires |fes| <= FIELD_ELEMENTS_PER_BLOB && i < FIELD_ELEMENTS_PER_BLOB
    ensures FeBytes(PaddedBlob(fes), i) == ToBytes(if i < |fes| then fes[i] else 0, 32)
    ensures FeAt(PaddedBlob(fes), i) == if i < |fes| then fes[i] else 0
  {
    if i < |fes| {
      EncodedFe(fes, i);
      assert FeBytes(PaddedBlob(fes), i) == EncodeFes(fes)[32 * i..32 * i + 32];
    } else {
      ZeroBytes(32);
      assert FeBytes(PaddedBlob(fes), i) == Zeros(32);
    }
    Widths();
    DecodeEncode(if i < |fes| then fes[i] else 0, 32);
  }

  /** Where the k-th published element stands. */
  lemma SidecarFe(fes: seq<B256>, k: nat)
    requires k < |fes|
    ensures k / FIELD_ELEMENTS_PER_BLOB < |Sidecar(fes)|
    ensures FeBytes(Sidecar(fes)[k / FIELD_ELEMENTS_PER_BLOB], k % FIELD_ELEMENTS_PER_BLOB) == ToBytes(fes[k], 32)
  {
    var b, i := k / FIELD_ELEMENTS_PER_BLOB, k % FIELD_ELEMENTS_PER_BLOB;
    var chunk := fes[b * FIELD_ELEMENTS_PER_BLOB..ChunkEnd(fes, b)];
    assert chunk[i] == fes[k];
    PaddedFe(chunk, i);
  }

  // ---------------------------------------------------------------------------------------------
  // Loading
  // ---------------------------------------------------------------------------------------------

  /** What a blob contributes when so many outputs are still to be read. */
  function InBlob(remaining: nat): nat {
    Min(remaining, FIELD_ELEMENTS_PER_BLOB)
  }

  predicate AllCanonical(blob: Blob) {
    forall i :: 0 <= i < FIELD_ELEMENTS_PER_BLOB ==> Canonical(blob, i)
  }

  /** The intermediate outputs and the trail of the blobs, after those already read. */
  function Loaded(blobs: seq<Blob>, outputCount: nat, io: seq<B256>, trail: seq<B256>): Option<(seq<B256>, seq<B256>)>
    requires |io| < outputCount
    decreases |blobs|
  {
    if blobs == [] then Some((io, trail))
    else if !AllCanonical(blobs[0]) then None
    else
      var n := InBlob(outputCount - |io| - 1);
      Loaded(blobs[1..], outputCount, io + FeRange(blobs[0], 0, n), trail + FeRange(blobs[0], n, FIELD_ELEMENTS_PER_BLOB))
  }

  /** The blob loop of loading a proposal: no result stands for an invalid field element. */
  method LoadBlobs(blobs: seq<Blob>, outputCount: nat) returns (r: Option<(seq<B256>, seq<B256>)>)
    requires outputCount > 0
    ensures r == Loaded(blobs, outputCount, [], [])
  {
    var io: seq<B256>, trail: seq<B256> := [], [];
    ghost var whole := Loaded(blobs, outputCount, [], []);
    for b := 0 to |blobs|
      invariant |io| < outputCount
      invariant Loaded(blobs[b..], outputCount, io, trail) == whole
    {
      assert blobs[b..][1..] == blobs[b + 1..];
      var ioInBlob := Min(outputCount - |io| - 1, FIELD_ELEMENTS_PER_BLOB);
      var ioPart := FieldElements(blobs[b], 0, ioInBlob);
      if ioPart.None? {
        return None;
      }
      var trailPart := FieldElements(blobs[b], ioInBlob, FIELD_ELEMENTS_PER_BLOB);
      if trailPart.None? {
        return None;
      }
      io := io + ioPart.value;
      trail := trail + trailPart.value;
    }
    r := Some((io, trail));
  }

  function ZeroFes(n: nat): seq<B256> {
    Filled(0, n)
  }

  lemma PaddedCanonical(fes: seq<B256>)
    requires |fes| <= FIELD_ELEMENTS_PER_BLOB && forall i :: 0 <= i < |fes| ==> fes[i] < BLS_MODULUS
    ensures AllCanonical(PaddedBlob(fes))
  {
    forall i | 0 <= i < FIELD_ELEMENTS_PER_BLOB ensures Canonical(PaddedBlob(fes), i) {
      PaddedFe(fes, i);
    }
  }

  lemma PaddedFeAt(fes: seq<B256>, i: nat)
    requires |fes| <= FIELD_ELEMENTS_PER_BLOB && i < FIELD_ELEMENTS_PER_BLOB
    ensures FeAt(PaddedBlob(fes), i) == if i < |fes| then fes[i] else 0
  {
    PaddedFe(fes, i);
  }

  lemma {:induction false} PaddedHead(fes: seq<B256>, n: nat)
    requires n <= |fes| <= FIELD_ELEMENTS_PER_BLOB
    ensures FeRange(PaddedBlob(fes), 0, n) == fes[..n]
  {
    if n > 0 {
      PaddedHead(fes, n - 1);
      PaddedFeAt(fes, n - 1);
      assert fes[..n] == fes[..n - 1] + [fes[n - 1]];
    }
  }

  lemma {:induction false} PaddedTrail(fes: seq<B256>, n: nat)
    requires |fes| <= n <= FIELD_ELEMENTS_PER_BLOB
    ensures FeRange(PaddedBlob(fes), |fes|, n) == ZeroFes(n - |fes|)
  {
    if n > |fes| {
      PaddedTrail(fes, n - 1);
      PaddedFeAt(fes, n - 1);
    }
  }

  /** One round of loading published blobs: the chunk is read back, and zeros go to the trail. */
  lemma LoadChunk(fes: seq<B256>, blobs: seq<Blob>, start: nat, end: nat, trail: seq<B256>)
    requires forall i :: 0 <= i < |fes| ==> fes[i] < BLS_MODULUS
    requires start <= end <= |fes| && end == Min(start + FIELD_ELEMENTS_PER_BLOB, |fes|)
    requires blobs != [] && blobs[0] == PaddedBlob(fes[start..end])
    ensures Loaded(blobs, |fes| + 1, fes[..start], trail)
         == Loaded(blobs[1..], |fes| + 1, fes[..end], trail + ZeroFes(FIELD_ELEMENTS_PER_BLOB - (end - start)))
  {
    var chunk := fes[start..end];
    PaddedCanonical(chunk);
    PaddedHead(chunk, |chunk|);
    PaddedTrail(chunk, FIELD_ELEMENTS_PER_BLOB);
    assert chunk[..|chunk|] == chunk;
    assert fes[..start] + chunk == fes[..end];
    assert |fes| + 1 - |fes[..start]| - 1 == |fes| - start;
    assert InBlob(|fes| + 1 - |fes[..start]| - 1) == |chunk|;
  }

  /** How many trailing zeros the blobs from the b-th on hold. */
  function TrailFrom(n: nat, b: nat): nat
    requires b <= BlobCount(n)
  {
    (BlobCount(n) - b) * FIELD_ELEMENTS_PER_BLOB - (n - Min(b * FIELD_ELEMENTS_PER_BLOB, n))
  }

  /** The elements before the b-th blob. */
  function Start(n: nat, b: nat): nat {
    Min(b * FIELD_ELEMENTS_PER_BLOB, n)
  }

  /** How many elements of the b-th blob are padding. */
  function Padding(n: nat, b: nat): nat
    requires b < BlobCount(n)
  {
    FIELD_ELEMENTS_PER_BLOB - (Start(n, b + 1) - Start(n, b))
  }

  lemma TrailStep(n: nat, b: nat)
    requires b < BlobCount(n)
    ensures Start(n, b + 1) == Min(Start(n, b) + FIELD_ELEMENTS_PER_BLOB, n)
    ensures TrailFrom(n, b) == Padding(n, b) + TrailFrom(n, b + 1)
  {
  }

  lemma LoadSidecarStep(fes: seq<B256>, b: nat, trail: seq<B256>)
    requires forall i :: 0 <= i < |fes| ==> fes[i] < BLS_MODULUS
    requires b < BlobCount(|fes|)
    ensures var start, end := Start(|fes|, b), Start(|fes|, b + 1);
            Loaded(Sidecar(fes)[b..], |fes| + 1, fes[..start], trail)
            == Loaded(Sidecar(fes)[b + 1..], |fes| + 1, fes[..end], trail + ZeroFes(Padding(|fes|, b)))
  {
    LoadChunk(fes, Sidecar(fes)[b..], Start(|fes|, b), Start(|fes|, b + 1), trail);
    assert Sidecar(fes)[b..][1..] == Sidecar(fes)[b + 1..];
  }

  lemma LoadSidecarEnd(fes: seq<B256>, b: nat, trail: seq<B256>)
    requires b == BlobCount(|fes|)
    ensures Loaded(Sidecar(fes)[b..], |fes| + 1, fes[..Start(|fes|, b)], trail)
         == Some((fes, trail + ZeroFes(TrailFrom(|fes|, b))))
  {
    assert Sidecar(fes)[b..] == [];
    assert fes[..Start(|fes|, b)] == fes;
    assert TrailFrom(|fes|, b) == 0;
    assert trail + ZeroFes(0) == trail;
  }

  lemma {:induction false} LoadSidecarFrom(fes: seq<B256>, b: nat, trail: seq<B256>)
    requires forall i :: 0 <= i < |fes| ==> fes[i] < BLS_MODULUS
    requires b <= BlobCount(|fes|)
    ensures LoadsRest(fes, b, trail)
    decreases BlobCount(|fes|) - b
  {
    if b == BlobCount(|fes|) {
      LoadSidecarEnd(fes, b, trail);
    } else {
      TrailStep(|fes|, b);
      LoadSidecarFrom(fes, b + 1, trail + ZeroFes(Padding(|fes|, b)));
      LoadsEarlier(fes, b, trail);
    }
  }

  /** Loading the blobs from the b-th on completes the elements and the trail. */
  ghost predicate LoadsRest(fes: seq<B256>, b: nat, trail: seq<B256>)
    requires b <= BlobCount(|fes|)
  {
    Loaded(Sidecar(fes)[b..], |fes| + 1, fes[..Start(|fes|, b)], trail)
    == Some((fes, trail + ZeroFes(TrailFrom(|fes|, b))))
  }

  lemma LoadsEarlier(fes: seq<B256>, b: nat, trail: seq<B256>)
    requires forall i :: 0 <= i < |fes| ==> fes[i] < BLS_MODULUS
    requires b < BlobCount(|fes|) && LoadsRest(fes, b + 1, trail + ZeroFes(Padding(|fes|, b)))
    ensures LoadsRest(fes, b, trail)
  {
    LoadSidecarStep(fes, b, trail);
    TrailGrows(|fes|, b, trail);
  }

  lemma TrailGrows(n: nat, b: nat, trail: seq<B256>)
    requires b < BlobCount(n)
    ensures trail + ZeroFes(Padding(n, b)) + ZeroFes(TrailFrom(n, b + 1)) == trail + ZeroFes(TrailFrom(n, b))
  {
    TrailStep(n, b);
    ZerosConcat(trail, Padding(n, b), TrailFrom(n, b + 1));
  }

  lemma ZerosConcat(trail: seq<B256>, m: nat, n: nat)
    ensures trail + ZeroFes(m) + ZeroFes(n) == trail + ZeroFes(m + n)
  {
  }

  /** Publishing reduced field elements and loading them gives them back, and a trail of zeros only. */
  lemma SidecarRoundTrip(fes: seq<B256>)
    requires forall i :: 0 <= i < |fes| ==> fes[i] < BLS_MODULUS
    ensures Loaded(Sidecar(fes), |fes| + 1, [], [])
         == Some((fes, ZeroFes(FIELD_ELEMENTS_PER_BLOB * |Sidecar(fes)| - |fes|)))
  {
    LoadSidecarFrom(fes, 0, []);
    assert Sidecar(fes)[0..] == Sidecar(fes);
    assert fes[..0] == [];
    ZerosConcat([], 0, TrailFrom(|fes|, 0));
    assert [] + ZeroFes(TrailFrom(|fes|, 0)) == ZeroFes(TrailFrom(|fes|, 0));
  }
}
