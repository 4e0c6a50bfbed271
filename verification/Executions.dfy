/** Execution traces, the hash that commits to them, and stitching them (crates/kona/src/executor.rs, stitching.rs). */
module Executions {
  import opened Common
  import opened BigEndian
  import opened Journal
  import opened Stitching

  datatype Attributes = Attributes(timestamp: U64, body: Bytes)

  /** A sealed header: its hash, and the fields that are used here. */
  datatype Header = Header(hash: B256, number: U64, receiptsRoot: B256, gasUsed: U64)

  datatype BlockResult = BlockResult(receipts: Bytes, requests: seq<Bytes>, gasUsed: U64)

  datatype Artifacts = Artifacts(header: Header, result: BlockResult)

  datatype Execution = Execution(agreedOutput: B256, attributes: Attributes, artifacts: Artifacts, claimedOutput: B256)

  /** Hash functions and the receipts trie, left abstract. */
  datatype Hashing = Hashing(sha256: Bytes -> B256, attributesHash: Attributes -> B256,
                             receiptsRoot: (Bytes, B256, U64) -> B256)

  function Number(e: Execution): U64 {
    e.artifacts.header.number
  }

  function ExecutionBytes(h: Hashing, e: Execution): (b: Bytes)
    ensures |b| == 128
  {
    ToBytes(e.agreedOutput, 32) + ToBytes(h.attributesHash(e.attributes), 32)
    + ToBytes(e.artifacts.header.hash, 32) + ToBytes(e.claimedOutput, 32)
  }

  function TraceBytes(h: Hashing, trace: seq<Execution>): (b: Bytes)
    ensures |b| == 128 * |trace|
  {
    if trace == [] then [] else ExecutionBytes(h, trace[0]) + TraceBytes(h, trace[1..])
  }

  function TraceHash(h: Hashing, trace: seq<Execution>): B256 {
    h.sha256(TraceBytes(h, trace))
  }

  /** The two executions agree in everything that the trace hash commits to. */
  ghost predicate SameCommitted(h: Hashing, d: Execution, e: Execution) {
    && d.agreedOutput == e.agreedOutput
    && h.attributesHash(d.attributes) == h.attributesHash(e.attributes)
    && d.artifacts.header.hash == e.artifacts.header.hash
    && d.claimedOutput == e.claimedOutput
  }

  lemma WordsInPlace(a: Bytes, b: Bytes, c: Bytes, d: Bytes)
    requires |a| == |b| == |c| == |d| == 32
    ensures var w := a + b + c + d; w[..32] == a && w[32..64] == b && w[64..96] == c && w[96..] == d
  {
  }

  lemma ToBytesInjective(m: B256, n: B256)
    requires ToBytes(m, 32) == ToBytes(n, 32)
    ensures m == n
  {
    Widths();
    DecodeEncode(m, 32);
    DecodeEncode(n, 32);
  }

  lemma ExecutionBytesBind(h: Hashing, d: Execution, e: Execution)
    requires ExecutionBytes(h, d) == ExecutionBytes(h, e)
    ensures SameCommitted(h, d, e)
  {
    WordsInPlace(ToBytes(d.agreedOutput, 32), ToBytes(h.attributesHash(d.attributes), 32),
                 ToBytes(d.artifacts.header.hash, 32), ToBytes(d.claimedOutput, 32));
    WordsInPlace(ToBytes(e.agreedOutput, 32), ToBytes(h.attributesHash(e.attributes), 32),
                 ToBytes(e.artifacts.header.hash, 32), ToBytes(e.claimedOutput, 32));
    ToBytesInjective(d.agreedOutput, e.agreedOutput);
    ToBytesInjective(h.attributesHash(d.attributes), h.attributesHash(e.attributes));
    ToBytesInjective(d.artifacts.header.hash, e.artifacts.header.hash);
    ToBytesInjective(d.claimedOutput, e.claimedOutput);
  }

  lemma {:induction false} TraceBytesBind(h: Hashing, s: seq<Execution>, t: seq<Execution>)
    requires TraceBytes(h, s) == TraceBytes(h, t)
    ensures |s| == |t| && forall i :: 0 <= i < |s| ==> SameCommitted(h, s[i], t[i])
  {
    if s != [] && t != [] {
      assert ExecutionBytes(h, s[0]) == TraceBytes(h, s)[..128] && TraceBytes(h, s[1..]) == TraceBytes(h, s)[128..];
      assert ExecutionBytes(h, t[0]) == TraceBytes(h, t)[..128] && TraceBytes(h, t[1..]) == TraceBytes(h, t)[128..];
      ExecutionBytesBind(h, s[0], t[0]);
      TraceBytesBind(h, s[1..], t[1..]);
      forall i | 0 < i < |s| ensures SameCommitted(h, s[i], t[i]) {
        assert SameCommitted(h, s[1..][i - 1], t[1..][i - 1]);
      }
    }
  }

  /** Two traces with one hash have the same length and committed words, or they exhibit a SHA-256 collision. */
  lemma TraceHashBinds(h: Hashing, s: seq<Execution>, t: seq<Execution>)
    requires TraceHash(h, s) == TraceHash(h, t)
    ensures || (|s| == |t| && forall i :: 0 <= i < |s| ==> SameCommitted(h, s[i], t[i]))
            || (TraceBytes(h, s) != TraceBytes(h, t) && h.sha256(TraceBytes(h, s)) == h.sha256(TraceBytes(h, t)))
  {
    if TraceBytes(h, s) == TraceBytes(h, t) {
      TraceBytesBind(h, s, t);
    }
  }

  // ---------------------------------------------------------------------------------------------
  // Splitting and stitching
  // ---------------------------------------------------------------------------------------------

  function SplitExecutions(traces: seq<seq<Execution>>): (seq<seq<Execution>>, seq<Execution>) {
    (traces, Flatten(traces))
  }

  /** The result data agrees with the header. */
  predicate Consistent(h: Hashing, configHash: B256, e: Execution) {
    && e.artifacts.header.receiptsRoot
       == h.receiptsRoot(e.artifacts.result.receipts, configHash, e.attributes.timestamp)
    && e.artifacts.result.requests == []
    && e.artifacts.header.gasUsed == e.artifacts.result.gasUsed
  }

  /** The journal that an execution-only proof of the trace must commit to. */
  function TraceJournal(h: Hashing, imageId: B256, payout: Address, configHash: B256, trace: seq<Execution>): ProofJournal
    requires trace != []
  {
    var last := trace[|trace| - 1];
    NewStitchedJournal(imageId, payout, TraceHash(h, trace), configHash,
                       StitchedBootInfo(ZERO, trace[0].agreedOutput, last.claimedOutput, Number(last)))
  }

  predicate TraceAccepted(h: Hashing, proven: Proven, boot: BootInfo, imageId: B256, payout: Address, trace: seq<Execution>) {
    && (forall i :: 0 <= i < |trace| ==> Consistent(h, boot.configHash, trace[i]))
    && trace != []
    && proven(EncodePacked(TraceJournal(h, imageId, payout, boot.configHash, trace)))
  }

  /** A trace must have been proven on its own, without an L1 head, with its hash as the precondition, and from its first
      agreed root to the claim and number of its last block. */
  lemma TraceJournalFields(h: Hashing, imageId: B256, payout: Address, configHash: B256, trace: seq<Execution>)
    requires trace != []
    ensures var j, last := TraceJournal(h, imageId, payout, configHash, trace), trace[|trace| - 1];
            && j.l1Head == ZERO && j.preconditionHash == h.sha256(TraceBytes(h, trace))
            && j.agreedOutput == trace[0].agreedOutput && j.claimedOutput == last.claimedOutput
            && j.claimedNumber == last.artifacts.header.number
            && j.imageId == imageId && j.payoutRecipient == payout && j.configHash == configHash
  {
  }

  /** A single execution whose receipts or gas do not match its header, or that makes requests, has its whole trace
      refused. */
  lemma MismatchRefused(h: Hashing, proven: Proven, boot: BootInfo, imageId: B256, payout: Address, trace: seq<Execution>, i: nat)
    requires i < |trace|
    requires var header, result := trace[i].artifacts.header, trace[i].artifacts.result;
             || header.receiptsRoot != h.receiptsRoot(result.receipts, boot.configHash, trace[i].attributes.timestamp)
             || result.requests != []
             || header.gasUsed != result.gasUsed
    ensures !TraceAccepted(h, proven, boot, imageId, payout, trace)
  {
    assert !Consistent(h, boot.configHash, trace[i]);
  }

  /** Which bytes of an execution's form are which word. */
  lemma ExecutionLayout(h: Hashing, e: Execution)
    ensures var b := ExecutionBytes(h, e);
            && FromBytes(b[..32]) == e.agreedOutput && FromBytes(b[32..64]) == h.attributesHash(e.attributes)
            && FromBytes(b[64..96]) == e.artifacts.header.hash && FromBytes(b[96..]) == e.claimedOutput
  {
    Widths();
    WordsInPlace(ToBytes(e.agreedOutput, 32), ToBytes(h.attributesHash(e.attributes), 32),
                 ToBytes(e.artifacts.header.hash, 32), ToBytes(e.claimedOutput, 32));
    DecodeEncode(e.agreedOutput, 32);
    DecodeEncode(h.attributesHash(e.attributes), 32);
    DecodeEncode(e.artifacts.header.hash, 32);
    DecodeEncode(e.claimedOutput, 32);
  }

  /** A negative answer stands for the panic of a failed assertion. */
  method StitchExecutions(h: Hashing, proven: Proven, boot: BootInfo, imageId: B256, payout: Address,
                          traces: seq<seq<Execution>>) returns (ok: bool)
    ensures boot.l1Head == ZERO ==> (ok <==> |traces| == 1)
    ensures boot.l1Head != ZERO ==>
              (ok <==> forall t :: t in traces ==> TraceAccepted(h, proven, boot, imageId, payout, t))
  {
    if boot.l1Head == ZERO {
      return |traces| == 1;
    }
    for k := 0 to |traces|
      invariant forall m :: 0 <= m < k ==> TraceAccepted(h, proven, boot, imageId, payout, traces[m])
    {
      var accepted := StitchTrace(h, proven, boot, imageId, payout, traces[k]);
      if !accepted {
        return false;
      }
    }
    ok := true;
  }

  /** The checks on one trace: its executions one by one, and the proof of its journal. */
  method StitchTrace(h: Hashing, proven: Proven, boot: BootInfo, imageId: B256, payout: Address, trace: seq<Execution>)
    returns (ok: bool)
    ensures ok == TraceAccepted(h, proven, boot, imageId, payout, trace)
  {
    for i := 0 to |trace|
      invariant forall m :: 0 <= m < i ==> Consistent(h, boot.configHash, trace[m])
    {
      if !Consistent(h, boot.configHash, trace[i]) {
        return false;
      }
    }
    ok := trace != [] && proven(EncodePacked(TraceJournal(h, imageId, payout, boot.configHash, trace)));
  }
}
