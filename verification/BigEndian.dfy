/** Fixed-width big-endian encoding of unsigned integers. */
module BigEndian {
  import opened Common

  function Pow256(k: nat): (r: int)
    ensures r > 0
  {
    if k == 0 then 1 else 256 * Pow256(k - 1)
  }

  function ToBytes(n: nat, width: nat): (b: Bytes)
    ensures |b| == width
  {
    if width == 0 then [] else ToBytes(n / 256, width - 1) + [n % 256]
  }

  function FromBytes(b: Bytes): (n: nat)
    ensures n < Pow256(|b|)
  {
    if b == [] then 0 else 256 * FromBytes(b[..|b| - 1]) + b[|b| - 1]
  }

  lemma {:induction false} DecodeEncode(n: nat, width: nat)
    requires n < Pow256(width)
    ensures FromBytes(ToBytes(n, width)) == n
  {
    if width > 0 {
      DecodeEncode(n / 256, width - 1);
      assert ToBytes(n, width)[..width - 1] == ToBytes(n / 256, width - 1);
    }
  }

  lemma {:induction false} EncodeDecode(b: Bytes)
    ensures ToBytes(FromBytes(b), |b|) == b
  {
    if b != [] {
      EncodeDecode(b[..|b| - 1]);
    }
  }

  lemma Regroup(first: int, p: int, f: int, last: int)
    ensures 256 * (first * p + f) + last == first * (256 * p) + (256 * f + last)
  {
  }

  /** The first byte is the most significant. */
  lemma {:induction false} MostSignificantFirst(first: nat, b: Bytes)
    requires first < 256
    ensures FromBytes([first] + b) == first * Pow256(|b|) + FromBytes(b)
  {
    if b == [] {
      assert [first] + b == [first];
    } else {
      var n, all := |b| - 1, [first] + b;
      MostSignificantFirst(first, b[..n]);
      assert all[..|all| - 1] == [first] + b[..n] && all[|all| - 1] == b[n];
      Regroup(first, Pow256(n), FromBytes(b[..n]), b[n]);
    }
  }

  lemma Widths()
    ensures Pow256(32) == TWO_256 && Pow256(8) == TWO_64
  {
    assert Pow256(8) == TWO_64;
    assert Pow256(16) == TWO_64 * TWO_64;
    assert Pow256(24) == TWO_64 * TWO_64 * TWO_64;
    assert Pow256(32) == TWO_256;
  }
}
