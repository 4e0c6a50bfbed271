/** Proof journals and their packed encoding (crates/kona/src/journal.rs, crates/kona/src/boot.rs). */
module Journal {
  import opened Common
  import opened BigEndian

  /** The rollup configuration is represented by its hash. */
  datatype BootInfo = BootInfo(
    l1Head: B256, agreedOutput: B256, claimedOutput: B256, claimedNumber: U64, configHash: B256)

  datatype StitchedBootInfo = StitchedBootInfo(
    l1Head: B256, agreedOutput: B256, claimedOutput: B256, claimedNumber: U64)

  datatype ProofJournal = ProofJournal(
    payoutRecipient: Address, preconditionHash: B256, l1Head: B256, agreedOutput: B256, claimedOutput: B256,
    claimedNumber: U64, configHash: B256, imageId: B256)

  function NewJournal(imageId: B256, payout: Address, precondition: B256, boot: BootInfo): ProofJournal {
    ProofJournal(payout, precondition, boot.l1Head, boot.agreedOutput, boot.claimedOutput, boot.claimedNumber,
                 boot.configHash, imageId)
  }

  function NewStitchedJournal(imageId: B256, payout: Address, precondition: B256, configHash: B256,
                              boot: StitchedBootInfo): ProofJournal {
    ProofJournal(payout, precondition, boot.l1Head, boot.agreedOutput, boot.claimedOutput, boot.claimedNumber,
                 configHash, imageId)
  }

  function BootInfoOf(j: ProofJournal): StitchedBootInfo {
    StitchedBootInfo(j.l1Head, j.agreedOutput, j.claimedOutput, j.claimedNumber)
  }

  function EncodePacked(j: ProofJournal): (b: Bytes)
    ensures |b| == 220
  {
    ToBytes(j.payoutRecipient, 20) + ToBytes(j.preconditionHash, 32) + ToBytes(j.l1Head, 32)
    + ToBytes(j.agreedOutput, 32) + ToBytes(j.claimedOutput, 32) + ToBytes(j.claimedNumber, 8)
    + ToBytes(j.configHash, 32) + ToBytes(j.imageId, 32)
  }

  /** Reads a field; the slice panics if it reaches beyond the input. */
  function Field(b: Bytes, from: nat, width: nat): nat
    requires from + width <= |b|
  {
    FromBytes(b[from..from + width])
  }

  /** No result stands for the panic on a short input; bytes behind the 220th are ignored. */
  function DecodePacked(b: Bytes): Option<ProofJournal> {
    if |b| < 220 then None
    else
      Widths();
      assert Pow256(20) == 0x1_0000000000000000_0000000000000000_00000000;
      Some(ProofJournal(Field(b, 0, 20), Field(b, 20, 32), Field(b, 52, 32), Field(b, 84, 32), Field(b, 116, 32),
                        Field(b, 148, 8), Field(b, 156, 32), Field(b, 188, 32)))
  }

  /** A field can be read back from wherever its encoding stands. */
  lemma FieldOf(b: Bytes, from: nat, n: nat, width: nat)
    requires n < Pow256(width) && from + width <= |b| && b[from..from + width] == ToBytes(n, width)
    ensures Field(b, from, width) == n
  {
    DecodeEncode(n, width);
  }

  lemma FieldsInPlace(f: seq<Bytes>, rest: Bytes)
    requires |f| == 8 && |f[0]| == 20 && |f[5]| == 8
    requires |f[1]| == |f[2]| == |f[3]| == |f[4]| == |f[6]| == |f[7]| == 32
    ensures var b := f[0] + f[1] + f[2] + f[3] + f[4] + f[5] + f[6] + f[7] + rest;
            && b[0..20] == f[0] && b[20..52] == f[1] && b[52..84] == f[2] && b[84..116] == f[3]
            && b[116..148] == f[4] && b[148..156] == f[5] && b[156..188] == f[6] && b[188..220] == f[7]
  {
  }

  /** Which bytes of the packed form are which field. */
  lemma PackedLayout(j: ProofJournal)
    ensures var b := EncodePacked(j);
            && FromBytes(b[..20]) == j.payoutRecipient && FromBytes(b[20..52]) == j.preconditionHash
            && FromBytes(b[52..84]) == j.l1Head && FromBytes(b[84..116]) == j.agreedOutput
            && FromBytes(b[116..148]) == j.claimedOutput && FromBytes(b[148..156]) == j.claimedNumber
            && FromBytes(b[156..188]) == j.configHash && FromBytes(b[188..]) == j.imageId
  {
    DecodeEncodePacked(j, []);
    var b := EncodePacked(j);
    assert b + [] == b && b[0..20] == b[..20] && b[188..220] == b[188..];
  }

  /** Decoding inverts encoding. */
  lemma DecodeEncodePacked(j: ProofJournal, rest: Bytes)
    ensures DecodePacked(EncodePacked(j) + rest) == Some(j)
  {
    Widths();
    assert Pow256(20) == 0x1_0000000000000000_0000000000000000_00000000;
    var b := EncodePacked(j) + rest;
    FieldsInPlace([ToBytes(j.payoutRecipient, 20), ToBytes(j.preconditionHash, 32), ToBytes(j.l1Head, 32),
                   ToBytes(j.agreedOutput, 32), ToBytes(j.claimedOutput, 32), ToBytes(j.claimedNumber, 8),
                   ToBytes(j.configHash, 32), ToBytes(j.imageId, 32)], rest);
    FieldOf(b, 0, j.payoutRecipient, 20);
    FieldOf(b, 20, j.preconditionHash, 32);
    FieldOf(b, 52, j.l1Head, 32);
    FieldOf(b, 84, j.agreedOutput, 32);
    FieldOf(b, 116, j.claimedOutput, 32);
    FieldOf(b, 148, j.claimedNumber, 8);
    FieldOf(b, 156, j.configHash, 32);
    FieldOf(b, 188, j.imageId, 32);
  }

  /** Two journals with the same packed form are the same journal. */
  lemma EncodePackedInjective(a: ProofJournal, b: ProofJournal)
    requires EncodePacked(a) == EncodePacked(b)
    ensures a == b
  {
    DecodeEncodePacked(a, []);
    DecodeEncodePacked(b, []);
  }
}
