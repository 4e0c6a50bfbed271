/** Values shared by every component: optional results, bytes and 256-bit words. */
module Common {
  datatype Option<+T> = None | Some(value: T)

  type byte = b: int | 0 <= b < 256
  type Bytes = seq<byte>

  const TWO_256: int := 0x1_0000000000000000_0000000000000000_0000000000000000_0000000000000000
  const TWO_64: int := 0x1_0000000000000000

  /** A 256-bit word (hash, output root, field element) read as a big-endian number. */
  type B256 = n: int | 0 <= n < TWO_256
  type U64 = n: int | 0 <= n < TWO_64

  /** An account, as a number of 160 bits. */
  type Address = n: int | 0 <= n < 0x1_0000000000000000_0000000000000000_00000000

  const ZERO: B256 := 0

  function Min(a: int, b: int): int {
    if a <= b then a else b
  }

  function Reverse<T>(s: seq<T>): (r: seq<T>)
    ensures |r| == |s|
    ensures forall i :: 0 <= i < |s| ==> r[i] == s[|s| - 1 - i]
  {
    if s == [] then [] else Reverse(s[1..]) + [s[0]]
  }

  lemma Reassociate<T>(a: seq<T>, b: seq<T>, c: seq<T>)
    ensures a + (b + c) == a + b + c
  {
  }

  function Filled<T>(x: T, n: nat): (s: seq<T>)
    ensures |s| == n && forall i :: 0 <= i < n ==> s[i] == x
  {
    seq(n, i => x)
  }

  /** The first n elements of an endless sequence. */
  function Prefix<T>(f: nat -> T, n: nat): (s: seq<T>)
    ensures |s| == n
  {
    seq(n, i requires i >= 0 => f(i))
  }

  lemma PrefixNext<T>(f: nat -> T, n: nat)
    ensures Prefix(f, n + 1) == Prefix(f, n) + [f(n)]
  {
  }

  lemma Scaled(a: nat, b: nat, s: nat)
    requires a <= b
    ensures a * s <= b * s
  {
  }

  function Flatten<T>(parts: seq<seq<T>>): seq<T> {
    if parts == [] then [] else parts[0] + Flatten(parts[1..])
  }

  function RemoveAt<T>(s: seq<T>, i: nat): (r: seq<T>)
    requires i < |s|
    ensures |r| == |s| - 1 && multiset(r) + multiset{s[i]} == multiset(s)
  {
    assert s == s[..i] + [s[i]] + s[i + 1..];
    s[..i] + s[i + 1..]
  }

  function Map<T, U>(f: T -> U, s: seq<T>): (r: seq<U>)
    ensures |r| == |s|
    ensures forall i :: 0 <= i < |s| ==> r[i] == f(s[i])
  {
    seq(|s|, i requires 0 <= i < |s| => f(s[i]))
  }

  lemma MapRemoved<T, U>(f: T -> U, s: seq<T>, i: nat)
    requires i < |s|
    ensures multiset(Map(f, s)) == multiset(Map(f, RemoveAt(s, i))) + multiset{f(s[i])}
  {
    assert Map(f, RemoveAt(s, i)) == RemoveAt(Map(f, s), i);
  }

  /** Mapping two arrangements of the same elements gives two arrangements of the same images. */
  lemma {:induction false} MapBag<T, U>(f: T -> U, s: seq<T>, t: seq<T>)
    requires multiset(s) == multiset(t)
    ensures multiset(Map(f, s)) == multiset(Map(f, t))
  {
    if s == [] {
      assert |t| == |multiset(t)| == 0;
    } else {
      assert s[0] in multiset(t);
      var k :| 0 <= k < |t| && t[k] == s[0];
      MapRemoved(f, s, 0);
      MapRemoved(f, t, k);
      assert multiset(RemoveAt(s, 0)) == multiset(s) - multiset{s[0]};
      assert multiset(RemoveAt(t, k)) == multiset(t) - multiset{t[k]};
      MapBag(f, RemoveAt(s, 0), RemoveAt(t, k));
    }
  }
}
