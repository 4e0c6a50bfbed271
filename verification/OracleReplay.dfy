/** What sequences of reads return, and the record/replay theorem (crates/kona/src/oracle/vec.rs). */
module OracleReplay {
  import opened Common
  import opened Preimages
  import opened VecOracle

  /** One read after the other, each starting with an empty queue. */
  function ServeAll(s: Store, keys: seq<Key>): Option<(seq<Bytes>, Store)>
    decreases |keys|
  {
    if keys == [] then Some(([], s))
    else
      match Serve(s, [], keys[0])
      case None => None
      case Some((value, s')) =>
        match ServeAll(s', keys[1..])
        case None => None
        case Some((values, s'')) => Some(([value] + values, s''))
  }

  ghost function KeyBag(f: Shard): multiset<Key> {
    if f == [] then multiset{} else KeyBag(f[..|f| - 1]) + multiset{f[|f| - 1].key}
  }

  /** The values held under a key, the most recently stored first. */
  ghost function Held(f: Shard, key: Key): seq<Bytes> {
    if f == [] then []
    else (if f[|f| - 1].key == key then [f[|f| - 1].value] else []) + Held(f[..|f| - 1], key)
  }

  /** The values that the reads of one key returned, in order. */
  ghost function Answers(keys: seq<Key>, values: seq<Bytes>, key: Key): seq<Bytes>
    requires |keys| == |values|
  {
    if keys == [] then []
    else (if keys[0] == key then [values[0]] else []) + Answers(keys[1..], values[1..], key)
  }

  lemma {:induction false} BagConcat(a: Shard, b: Shard)
    ensures KeyBag(a + b) == KeyBag(a) + KeyBag(b)
  {
    if b == [] {
      assert a + b == a;
    } else {
      assert (a + b)[..|a + b| - 1] == a + b[..|b| - 1];
      BagConcat(a, b[..|b| - 1]);
    }
  }

  lemma {:induction false} HeldConcat(a: Shard, b: Shard, key: Key)
    ensures Held(a + b, key) == Held(b, key) + Held(a, key)
  {
    if b == [] {
      assert a + b == a;
    } else {
      assert (a + b)[..|a + b| - 1] == a + b[..|b| - 1];
      HeldConcat(a, b[..|b| - 1], key);
    }
  }

  lemma {:induction false} UnlinkedKeeps(f: Shard, key: Key)
    ensures KeyBag(Unlinked(f)) == KeyBag(f) && Held(Unlinked(f), key) == Held(f, key)
  {
    if f != [] {
      UnlinkedKeeps(f[..|f| - 1], key);
      assert Unlinked(f)[..|f| - 1] == Unlinked(f[..|f| - 1]);
    }
  }

  lemma {:induction false} LastIndexInBag(f: Shard, key: Key)
    ensures LastIndexOf(f, key).Some? <==> key in KeyBag(f)
  {
    if f != [] {
      LastIndexInBag(f[..|f| - 1], key);
    }
  }

  lemma {:induction false} NoneHeldBehind(f: Shard, key: Key, i: nat)
    requires LastIndexOf(f, key) == Some(i)
    ensures Held(f[i + 1..], key) == []
  {
    var n := |f| - 1;
    if i < n {
      NoneHeldBehind(f[..n], key, i);
      assert f[i + 1..][..n - i - 1] == f[..n][i + 1..];
    }
  }

  lemma SplitAt(f: Shard, i: nat)
    requires i < |f|
    ensures f == f[..i] + [f[i]] + f[i + 1..]
  {
  }

  lemma OneEntry(x: Entry, key: Key)
    ensures KeyBag([x]) == multiset{x.key}
    ensures Held([x], key) == if x.key == key then [x.value] else []
  {
    assert [x][..0] == [];
  }

  lemma BagAt(a: Shard, x: Entry, b: Shard)
    ensures KeyBag(a + [x] + b) == multiset{x.key} + KeyBag(a + b)
  {
    BagConcat(a + [x], b);
    BagConcat(a, [x]);
    BagConcat(a, b);
    OneEntry(x, x.key);
  }

  lemma WithoutBag(f: Shard, i: nat)
    requires i < |f|
    ensures KeyBag(f) == multiset{f[i].key} + KeyBag(Without(f, i))
  {
    var a, b := f[..i], f[i + 1..];
    SplitAt(f, i);
    BagAt(a, f[i], b);
    BagConcat(a, b);
    BagConcat(a, Unlinked(b));
    UnlinkedKeeps(b, f[i].key);
  }

  lemma HeldBefore(x: Entry, b: Shard, key: Key)
    requires x.key == key ==> Held(b, key) == []
    ensures Held([x] + b, key) == (if x.key == key then [x.value] else []) + Held(b, key)
  {
    HeldConcat([x], b, key);
    OneEntry(x, key);
  }

  lemma HeldAt(a: Shard, x: Entry, b: Shard, key: Key)
    requires x.key == key ==> Held(b, key) == []
    ensures Held(a + ([x] + b), key) == (if x.key == key then [x.value] else []) + (Held(b, key) + Held(a, key))
  {
    HeldConcat(a, [x] + b, key);
    HeldBefore(x, b, key);
    Reassociate(if x.key == key then [x.value] else [], Held(b, key), Held(a, key));
  }

  lemma WithoutHeld(f: Shard, i: nat, key: Key)
    requires i < |f|
    requires f[i].key == key ==> LastIndexOf(f, key) == Some(i)
    ensures Held(f, key) == (if f[i].key == key then [f[i].value] else []) + Held(Without(f, i), key)
  {
    var a, b := f[..i], f[i + 1..];
    if f[i].key == key {
      NoneHeldBehind(f, key, i);
    }
    SplitAt(f, i);
    Reassociate(a, [f[i]], b);
    HeldAt(a, f[i], b, key);
    HeldConcat(a, Unlinked(b), key);
    UnlinkedKeeps(b, key);
  }

  /** One read takes its key from the bag and the first value from the history of its key. */
  lemma ServeCounts(s: Store, key: Key)
    ensures var r := Serve(s, [], key);
            && (r.Some? <==> key in KeyBag(Flat(s)))
            && (r.Some? ==>
                  && KeyBag(Flat(s)) == multiset{key} + KeyBag(Flat(r.value.1))
                  && forall k :: Held(Flat(s), k) == (if k == key then [r.value.0] else []) + Held(Flat(r.value.1), k))
  {
    ServeRemovesLast(s, key);
    LastIndexInBag(Flat(s), key);
    if LastIndexOf(Flat(s), key).Some? {
      var i := LastIndexOf(Flat(s), key).value;
      WithoutBag(Flat(s), i);
      forall k ensures Held(Flat(s), k) == (if k == key then [Flat(s)[i].value] else []) + Held(Without(Flat(s), i), k) {
        WithoutHeld(Flat(s), i, k);
      }
    }
  }

  lemma BagCancel<T>(x: T, a: multiset<T>, b: multiset<T>)
    ensures multiset{x} + a <= multiset{x} + b <==> a <= b
  {
    if multiset{x} + a <= multiset{x} + b {
      forall y | y in a ensures a[y] <= b[y] {
        assert (multiset{x} + a)[y] <= (multiset{x} + b)[y];
      }
    }
  }

  /** Any list of reads is served in full exactly when the store holds enough copies of every key. */
  lemma {:induction false} ServedInFull(s: Store, keys: seq<Key>)
    ensures ServeAll(s, keys).Some? <==> multiset(keys) <= KeyBag(Flat(s))
    ensures ServeAll(s, keys).Some? ==> KeyBag(Flat(s)) == multiset(keys) + KeyBag(Flat(ServeAll(s, keys).value.1))
    decreases |keys|
  {
    if keys != [] {
      var key, rest := keys[0], keys[1..];
      assert multiset(keys) == multiset{key} + multiset(rest) by {
        assert keys == [key] + rest;
      }
      ServeCounts(s, key);
      if key in KeyBag(Flat(s)) {
        var s' := Serve(s, [], key).value.1;
        ServedInFull(s', rest);
        BagCancel(key, multiset(rest), KeyBag(Flat(s')));
      } else {
        assert multiset(keys)[key] > 0;
      }
    }
  }

  /** The reads of one key return its values from the last stored one on, and the others stay. */
  lemma {:induction false} ServedByHistory(s: Store, keys: seq<Key>, key: Key)
    requires ServeAll(s, keys).Some?
    ensures var r := ServeAll(s, keys).value;
            |r.0| == |keys| && Held(Flat(s), key) == Answers(keys, r.0, key) + Held(Flat(r.1), key)
    decreases |keys|
  {
    if keys != [] {
      var one := Serve(s, [], keys[0]).value;
      var all := ServeAll(one.1, keys[1..]).value;
      ServeCounts(s, keys[0]);
      ServedByHistory(one.1, keys[1..], key);
      AnswersCons(keys, one.0, all.0, key);
      Reassociate(if key == keys[0] then [one.0] else [], Answers(keys[1..], all.0, key), Held(Flat(all.1), key));
    }
  }

  lemma AnswersCons(keys: seq<Key>, value: Bytes, values: seq<Bytes>, key: Key)
    requires keys != [] && |values| == |keys| - 1
    ensures Answers(keys, [value] + values, key)
         == (if key == keys[0] then [value] else []) + Answers(keys[1..], values, key)
  {
    assert ([value] + values)[1..] == values;
  }

  /** Reading the recorded keys in any order is served in full and empties the store. */
  lemma AnyOrderDrains(s: Store, keys: seq<Key>)
    requires multiset(keys) == KeyBag(Flat(s))
    ensures ServeAll(s, keys).Some? && Flat(ServeAll(s, keys).value.1) == []
  {
    ServedInFull(s, keys);
    assert KeyBag(Flat(ServeAll(s, keys).value.1)) == multiset{};
  }
}
