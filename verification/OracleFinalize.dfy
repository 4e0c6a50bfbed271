/** Finalisation of a recorded store: reversal, sharding and validation pointers (crates/kona/src/oracle/vec.rs). */
module OracleFinalize {
  import opened Common
  import opened Preimages
  import opened VecOracle
  import opened OracleReplay

  // ---------------------------------------------------------------------------------------------
  // Sharding
  // ---------------------------------------------------------------------------------------------

  function Size(f: Shard): nat {
    if f == [] then 0 else Size(f[..|f| - 1]) + |f[|f| - 1].value|
  }

  /** Put one entry into the last shard, or into a new one if it does not fit and the shard holds any bytes. */
  function Place(s: Store, x: Entry, limit: nat): Store
    requires s != []
  {
    var last := s[|s| - 1];
    if |x.value| + Size(last) > limit && Size(last) > 0 then s + [[x]]
    else s[..|s| - 1] + [last + [x]]
  }

  function Sharded(f: Shard, limit: nat): (s: Store)
    ensures s != []
  {
    if f == [] then [[]] else Place(Sharded(f[..|f| - 1], limit), f[|f| - 1], limit)
  }

  lemma PlaceAppends(s: Store, x: Entry, limit: nat)
    requires s != []
    ensures Flat(Place(s, x, limit)) == Flat(s) + [x]
  {
    var last := s[|s| - 1];
    if |x.value| + Size(last) > limit && Size(last) > 0 {
      FlatPush(s, [x]);
    } else {
      FlatPush(s[..|s| - 1], last + [x]);
      Reassociate(Flat(s[..|s| - 1]), last, [x]);
    }
  }

  lemma {:induction false} ShardedKeepsAll(f: Shard, limit: nat)
    ensures Flat(Sharded(f, limit)) == f
  {
    if f == [] {
      EmptyShard();
    } else {
      var init, x := f[..|f| - 1], f[|f| - 1];
      ShardedKeepsAll(init, limit);
      PlaceAppends(Sharded(init, limit), x, limit);
      assert init + [x] == f;
    }
  }

  lemma EmptyShard()
    ensures Flat([[]]) == []
  {
    FlatPush([], []);
    var s: Store := [];
    assert s + [[]] == [[]];
  }

  /** Within the limit, or empty values followed by a single value that alone is over it. */
  ghost predicate WithinLimit(f: Shard, limit: nat) {
    Size(f) <= limit || (f != [] && Size(f[..|f| - 1]) == 0 && |f[|f| - 1].value| > limit)
  }

  /** The shard was closed because its successor starts with a value that did not fit. */
  ghost predicate ClosedBy(f: Shard, next: Shard, limit: nat) {
    Size(f) > 0 && next != [] && Size(f) + |next[0].value| > limit
  }

  ghost predicate Greedy(s: Store, limit: nat) {
    && (forall e :: 0 <= e < |s| ==> WithinLimit(s[e], limit))
    && (forall e :: 0 < e < |s| ==> ClosedBy(s[e - 1], s[e], limit))
  }

  lemma PlaceStaysGreedy(s: Store, x: Entry, limit: nat)
    requires s != [] && Greedy(s, limit)
    ensures Greedy(Place(s, x, limit), limit)
  {
    var n := |s| - 1;
    var last, s' := s[n], Place(s, x, limit);
    assert (last + [x])[..|last|] == last;
    assert [x][..0] == [];
    forall e | 0 <= e < |s'| ensures WithinLimit(s'[e], limit) {
    }
    forall e | 0 < e < |s'| ensures ClosedBy(s'[e - 1], s'[e], limit) {
      if e <= n {
        assert ClosedBy(s[e - 1], s[e], limit);
      }
    }
  }

  lemma {:induction false} ShardsAreGreedy(f: Shard, limit: nat)
    ensures Greedy(Sharded(f, limit), limit)
  {
    if f != [] {
      ShardsAreGreedy(f[..|f| - 1], limit);
      PlaceStaysGreedy(Sharded(f[..|f| - 1], limit), f[|f| - 1], limit);
    }
  }

  // ---------------------------------------------------------------------------------------------
  // Pointers
  // ---------------------------------------------------------------------------------------------

  /** The nearest position before (e, p) that holds the key. */
  function LastBefore(s: Store, e: nat, p: nat, key: Key): (r: Option<(nat, nat)>)
    requires e < |s| && p <= |s[e]|
    ensures r.Some? ==> At(s, r.value.0, r.value.1) && Before(r.value.0, r.value.1, e, p)
    ensures r.Some? ==> s[r.value.0][r.value.1].key == key
    decreases e, p
  {
    if p > 0 then
      if s[e][p - 1].key == key then Some((e, p - 1)) else LastBefore(s, e, p - 1, key)
    else if e > 0 then LastBefore(s, e - 1, |s[e - 1]|, key)
    else None
  }

  /** Nothing between the result and (e, p) holds the key. */
  lemma {:induction false} LastBeforeIsNearest(s: Store, e: nat, p: nat, key: Key, i: nat, j: nat)
    requires e < |s| && p <= |s[e]|
    requires At(s, i, j) && Before(i, j, e, p) && s[i][j].key == key
    ensures var r := LastBefore(s, e, p, key);
            r.Some? && (r.value == (i, j) || Before(i, j, r.value.0, r.value.1))
    decreases e, p
  {
    if p > 0 {
      if s[e][p - 1].key != key {
        LastBeforeIsNearest(s, e, p - 1, key, i, j);
      }
    } else {
      LastBeforeIsNearest(s, e - 1, |s[e - 1]|, key, i, j);
    }
  }

  function LinkedEntry(s: Store, e: nat, p: nat): Entry
    requires At(s, e, p)
  {
    var x := s[e][p];
    var prev := LastBefore(s, e, p, x.key);
    if NeedsValidation(x.key) && prev.Some? then x.(prev := prev) else x
  }

  function Link(s: Store): Store {
    seq(|s|, e requires 0 <= e < |s| => seq(|s[e]|, p requires 0 <= p < |s[e]| => LinkedEntry(s, e, p)))
  }

  function Finalized(s: Store, limit: nat, withPointers: bool): Store {
    var shards := Sharded(Reverse(Flat(s)), limit);
    if withPointers then Link(shards) else shards
  }

  // ---------------------------------------------------------------------------------------------
  // Contents
  // ---------------------------------------------------------------------------------------------

  ghost function Pairs(f: Shard): (r: seq<(Key, Bytes)>)
    ensures |r| == |f|
    ensures forall i :: 0 <= i < |f| ==> r[i] == (f[i].key, f[i].value)
  {
    seq(|f|, i requires 0 <= i < |f| => (f[i].key, f[i].value))
  }

  lemma {:induction false} SamePairs(s: Store, t: Store)
    requires |s| == |t| && forall e :: 0 <= e < |s| ==> Pairs(s[e]) == Pairs(t[e])
    ensures Pairs(Flat(s)) == Pairs(Flat(t))
  {
    if s != [] {
      var n := |s| - 1;
      SamePairs(s[..n], t[..n]);
      PairsConcat(Flat(s[..n]), s[n]);
      PairsConcat(Flat(t[..n]), t[n]);
    }
  }

  lemma PairsConcat(a: Shard, b: Shard)
    ensures Pairs(a + b) == Pairs(a) + Pairs(b)
  {
  }

  /** Finalisation reverses the recorded pairs, whatever the shard limit and with or without pointers. */
  lemma FinalizeReverses(s: Store, limit: nat, withPointers: bool)
    ensures Pairs(Flat(Finalized(s, limit, withPointers))) == Reverse(Pairs(Flat(s)))
    ensures !withPointers ==> Flat(Finalized(s, limit, withPointers)) == Reverse(Flat(s))
  {
    ShardedKeepsAll(Reverse(Flat(s)), limit);
    PairsReverse(Flat(s));
    LinkKeepsPairs(Sharded(Reverse(Flat(s)), limit));
  }

  lemma PairsReverse(f: Shard)
    ensures Pairs(Reverse(f)) == Reverse(Pairs(f))
  {
  }

  lemma LinkKeepsPairs(s: Store)
    ensures Pairs(Flat(Link(s))) == Pairs(Flat(s))
  {
    forall e | 0 <= e < |s| ensures Pairs(Link(s)[e]) == Pairs(s[e]) {
      assert |Link(s)[e]| == |s[e]|;
    }
    SamePairs(Link(s), s);
  }

  // ---------------------------------------------------------------------------------------------
  // Record and replay
  // ---------------------------------------------------------------------------------------------

  ghost function KeysOf(ps: seq<(Key, Bytes)>): seq<Key> {
    if ps == [] then [] else [ps[0].0] + KeysOf(ps[1..])
  }

  ghost function ValuesOf(ps: seq<(Key, Bytes)>): seq<Bytes> {
    if ps == [] then [] else [ps[0].1] + ValuesOf(ps[1..])
  }

  lemma {:induction false} ReplayReversed(t: Store, ps: seq<(Key, Bytes)>)
    requires Pairs(Flat(t)) == Reverse(ps)
    ensures var r := ServeAll(t, KeysOf(ps));
            r.Some? && r.value.0 == ValuesOf(ps) && Flat(r.value.1) == []
    decreases |ps|
  {
    if ps != [] {
      var f, n := Flat(t), |ps| - 1;
      assert (f[n].key, f[n].value) == Pairs(f)[n] == ps[0];
      ServeRemovesLast(t, ps[0].0);
      var t' := Serve(t, [], ps[0].0).value.1;
      assert Without(f, n) == f[..n];
      assert Pairs(f[..n]) == Reverse(ps[1..]);
      ReplayReversed(t', ps[1..]);
    } else {
      assert |Pairs(Flat(t))| == 0;
    }
  }

  /** The accesses that were recorded are answered with the recorded values in order, and the store ends empty. */
  lemma RecordReplay(s: Store, limit: nat, withPointers: bool)
    ensures var ps := Pairs(Flat(s));
            var r := ServeAll(Finalized(s, limit, withPointers), KeysOf(ps));
            r.Some? && r.value.0 == ValuesOf(ps) && Flat(r.value.1) == []
  {
    FinalizeReverses(s, limit, withPointers);
    ReplayReversed(Finalized(s, limit, withPointers), Pairs(Flat(s)));
  }

  // ---------------------------------------------------------------------------------------------
  // Validation of a finalised store
  // ---------------------------------------------------------------------------------------------

  ghost predicate PointerFree(s: Store) {
    forall e: nat, p: nat :: At(s, e, p) ==> s[e][p].prev.None?
  }

  /** No key that needs validation is held with two different values. */
  ghost predicate SingleValued(f: Shard) {
    forall x, y :: x in f && y in f && x.key == y.key && NeedsValidation(x.key) ==> x.value == y.value
  }

  lemma {:induction false} InFlat(s: Store, e: nat, p: nat)
    requires At(s, e, p)
    ensures s[e][p] in Flat(s)
  {
    var n := |s| - 1;
    if e < n {
      InFlat(s[..n], e, p);
    }
  }

  lemma {:induction false} FindInFlat(s: Store, x: Entry) returns (e: nat, p: nat)
    requires x in Flat(s)
    ensures At(s, e, p) && s[e][p] == x
  {
    var n := |s| - 1;
    if x in s[n] {
      e := n;
      p :| 0 <= p < |s[n]| && s[n][p] == x;
    } else {
      e, p := FindInFlat(s[..n], x);
    }
  }

  /** What an entry of the sharded store was before: pointer-free, and accepted by its hash. */
  lemma ShardedEntry(h: Hashes, s: Store, limit: nat, e: nat, p: nat)
    requires PointerFree(s) && AllAccepted(h, s)
    requires At(Sharded(Reverse(Flat(s)), limit), e, p)
    ensures var x := Sharded(Reverse(Flat(s)), limit)[e][p];
            x in Flat(s) && x.prev.None? && (NeedsValidation(x.key) ==> ValidatePreimage(h, x.key, x.value) == Accept)
  {
    var shards := Sharded(Reverse(Flat(s)), limit);
    ShardedKeepsAll(Reverse(Flat(s)), limit);
    InFlat(shards, e, p);
    var a, b := FindInFlat(s, shards[e][p]);
    assert CheckEntry(h, s, a, b) == Accept;
  }

  lemma SingleValuedIsAccepted(h: Hashes, s: Store, limit: nat)
    requires PointerFree(s) && AllAccepted(h, s) && SingleValued(Flat(s))
    ensures AllAccepted(h, Finalized(s, limit, true))
  {
    var shards, t := Sharded(Reverse(Flat(s)), limit), Finalized(s, limit, true);
    forall e: nat, p: nat | At(t, e, p) ensures CheckEntry(h, t, e, p) == Accept {
      ShardedEntry(h, s, limit, e, p);
      var x: Entry := shards[e][p];
      var prev := LastBefore(shards, e, p, x.key);
      if NeedsValidation(x.key) && prev.Some? {
        ShardedEntry(h, s, limit, prev.value.0, prev.value.1);
      }
    }
  }

  /** Along accepted pointers, an entry carries the value of every earlier entry of its key. */
  lemma {:induction false} AcceptedCopies(h: Hashes, s: Store, e: nat, p: nat, i: nat, j: nat)
    requires AllAccepted(h, Link(s)) && At(s, e, p) && At(s, i, j) && Before(i, j, e, p)
    requires s[i][j].key == s[e][p].key && NeedsValidation(s[e][p].key)
    ensures s[i][j].value == s[e][p].value
    decreases e, p
  {
    LastBeforeIsNearest(s, e, p, s[e][p].key, i, j);
    var (a, b) := LastBefore(s, e, p, s[e][p].key).value;
    assert CheckEntry(h, Link(s), e, p) == Accept;
    assert Link(s)[a][b].value == s[a][b].value;
    if (a, b) != (i, j) {
      AcceptedCopies(h, s, a, b, i, j);
    }
  }

  lemma AcceptedIsSingleValued(h: Hashes, s: Store, limit: nat)
    requires AllAccepted(h, Finalized(s, limit, true))
    ensures SingleValued(Flat(s))
  {
    var shards := Sharded(Reverse(Flat(s)), limit);
    ShardedKeepsAll(Reverse(Flat(s)), limit);
    forall x, y | x in Flat(s) && y in Flat(s) && x.key == y.key && NeedsValidation(x.key)
      ensures x.value == y.value
    {
      assert x in Reverse(Flat(s)) && y in Reverse(Flat(s)) by {
        ReverseMembers(Flat(s));
      }
      var e, p := FindInFlat(shards, x);
      var i, j := FindInFlat(shards, y);
      if Before(i, j, e, p) {
        AcceptedCopies(h, shards, e, p, i, j);
      } else if Before(e, p, i, j) {
        AcceptedCopies(h, shards, i, j, e, p);
      }
    }
  }

  lemma ReverseMembers<T>(f: seq<T>)
    ensures forall x :: x in f ==> x in Reverse(f)
  {
    forall x | x in f ensures x in Reverse(f) {
      var i :| 0 <= i < |f| && f[i] == x;
      assert Reverse(f)[|f| - 1 - i] == x;
    }
  }

  /** A valid pointer-free store finalised with pointers passes validation again iff it is single-valued. */
  lemma RevalidatesIffSingleValued(h: Hashes, s: Store, limit: nat)
    requires PointerFree(s) && AllAccepted(h, s)
    ensures AllAccepted(h, Finalized(s, limit, true)) <==> SingleValued(Flat(s))
  {
    if SingleValued(Flat(s)) {
      SingleValuedIsAccepted(h, s, limit);
    }
    if AllAccepted(h, Finalized(s, limit, true)) {
      AcceptedIsSingleValued(h, s, limit);
    }
  }

  ghost predicate HoldsCollision(h: Hashes, f: Shard) {
    exists x, y :: x in f && y in f && Collide(h, x.value, y.value)
  }

  /** A store that validation accepts is single-valued, or two of its values are a hash collision. */
  lemma SingleValuedOrCollision(h: Hashes, s: Store)
    requires AllAccepted(h, s)
    ensures SingleValued(Flat(s)) || HoldsCollision(h, Flat(s))
  {
    if !SingleValued(Flat(s)) {
      var x, y :| x in Flat(s) && y in Flat(s) && x.key == y.key && NeedsValidation(x.key) && x.value != y.value;
      var e, p := FindInFlat(s, x);
      var i, j := FindInFlat(s, y);
      EntryAuthentic(h, s, e, p);
      EntryAuthentic(h, s, i, j);
      assert Collide(h, x.value, y.value);
    }
  }

  /** No key that needs validation was accessed with two different answers. */
  ghost predicate SameAnswers(ps: seq<(Key, Bytes)>) {
    forall i, j :: 0 <= i < |ps| && 0 <= j < |ps| && ps[i].0 == ps[j].0 && NeedsValidation(ps[i].0) ==> ps[i].1 == ps[j].1
  }

  lemma SingleValuedIsSameAnswers(f: Shard)
    ensures SingleValued(f) <==> SameAnswers(Pairs(f))
  {
    var ps := Pairs(f);
    if SingleValued(f) {
      forall i, j | 0 <= i < |ps| && 0 <= j < |ps| && ps[i].0 == ps[j].0 && NeedsValidation(ps[i].0)
        ensures ps[i].1 == ps[j].1
      {
        assert f[i] in f && f[j] in f;
      }
    }
    if SameAnswers(ps) {
      forall x, y | x in f && y in f && x.key == y.key && NeedsValidation(x.key) ensures x.value == y.value {
        var i :| 0 <= i < |f| && f[i] == x;
        var j :| 0 <= j < |f| && f[j] == y;
        assert ps[i].0 == ps[j].0;
      }
    }
  }

  /** Without pointers every shard is accepted on its own, as the streaming reader requires. */
  lemma ShardsAcceptedAlone(h: Hashes, s: Store, limit: nat, k: nat)
    requires PointerFree(s) && AllAccepted(h, s) && k < |Finalized(s, limit, false)|
    ensures AllAccepted(h, [Finalized(s, limit, false)[k]])
  {
    var shard := Finalized(s, limit, false)[k];
    forall e: nat, p: nat | At([shard], e, p) ensures CheckEntry(h, [shard], e, p) == Accept {
      ShardedEntry(h, s, limit, k, p);
    }
  }
}
