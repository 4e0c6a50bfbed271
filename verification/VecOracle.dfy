/** The sharded, destructively read preimage store (crates/kona/src/oracle/vec.rs). */
module VecOracle {
  import opened Common
  import opened Preimages

  /** A preimage with an optional (shard, position) pointer to an earlier copy of it. */
  datatype Entry = Entry(key: Key, value: Bytes, prev: Option<(nat, nat)>)
  type Shard = seq<Entry>
  type Store = seq<Shard>

  function Flat(s: Store): Shard {
    if s == [] then [] else Flat(s[..|s| - 1]) + s[|s| - 1]
  }

  predicate At(s: Store, e: nat, p: nat) {
    e < |s| && p < |s[e]|
  }

  predicate Before(a: nat, b: nat, e: nat, p: nat) {
    a < e || (a == e && b < p)
  }

  // ---------------------------------------------------------------------------------------------
  // Validation
  // ---------------------------------------------------------------------------------------------

  /** The verdict on one entry: follow its pointer if it has one, hash its value otherwise. */
  function CheckEntry(h: Hashes, s: Store, e: nat, p: nat): Verdict
    requires At(s, e, p)
  {
    var entry := s[e][p];
    if !NeedsValidation(entry.key) then Accept
    else match entry.prev
      case None => ValidatePreimage(h, entry.key, entry.value)
      case Some((i, j)) =>
        if e < i then Reject(FutureShard)
        else if e == i && p <= j then Reject(FutureEntry)
        else if !At(s, i, j) then Panic
        else if entry.key != s[i][j].key then Reject(KeyMismatch)
        else if entry.value != s[i][j].value then Reject(ValueMismatch)
        else Accept
  }

  ghost predicate AllAccepted(h: Hashes, s: Store) {
    forall e: nat, p: nat :: At(s, e, p) ==> CheckEntry(h, s, e, p) == Accept
  }

  ghost predicate AcceptedBefore(h: Hashes, s: Store, e: nat, p: nat) {
    forall a: nat, b: nat :: At(s, a, b) && Before(a, b, e, p) ==> CheckEntry(h, s, a, b) == Accept
  }

  method Validate(h: Hashes, s: Store) returns (v: Verdict)
    ensures v.Accept? <==> AllAccepted(h, s)
    ensures !v.Accept? ==>
      exists e: nat, p: nat :: At(s, e, p) && CheckEntry(h, s, e, p) == v && AcceptedBefore(h, s, e, p)
  {
    for e := 0 to |s|
      invariant AcceptedBefore(h, s, e, 0)
    {
      for p := 0 to |s[e]|
        invariant AcceptedBefore(h, s, e, p)
      {
        v := CheckEntry(h, s, e, p);
        if !v.Accept? {
          return;
        }
      }
    }
    v := Accept;
  }

  /** Every value that needs it is the preimage of its key, although only pointer-free ones are hashed. */
  ghost predicate AllAuthentic(h: Hashes, s: Store) {
    forall e: nat, p: nat :: At(s, e, p) && NeedsValidation(s[e][p].key) ==> Authentic(h, s[e][p].key, s[e][p].value)
  }

  lemma {:induction false} EntryAuthentic(h: Hashes, s: Store, e: nat, p: nat)
    requires AllAccepted(h, s) && At(s, e, p) && NeedsValidation(s[e][p].key)
    ensures Authentic(h, s[e][p].key, s[e][p].value)
    decreases e, p
  {
    assert CheckEntry(h, s, e, p) == Accept;
    match s[e][p].prev
    case None =>
    case Some((i, j)) => EntryAuthentic(h, s, i, j);
  }

  lemma ValidationSound(h: Hashes, s: Store)
    requires AllAccepted(h, s)
    ensures AllAuthentic(h, s)
  {
    forall e: nat, p: nat | At(s, e, p) && NeedsValidation(s[e][p].key)
      ensures Authentic(h, s[e][p].key, s[e][p].value)
    {
      EntryAuthentic(h, s, e, p);
    }
  }

  // ---------------------------------------------------------------------------------------------
  // Destructive reads
  // ---------------------------------------------------------------------------------------------

  datatype Scan = Found(value: Bytes, rest: Shard) | Missing(queue: Shard)

  /** Pop one shard from its end: non-matching entries move to the front of the queue, a match refills the shard. */
  function ScanShard(entry: Shard, queue: Shard, key: Key): Scan {
    if entry == [] then Missing(queue)
    else
      var last, init := entry[|entry| - 1], entry[..|entry| - 1];
      if last.key == key then Found(last.value, init + queue)
      else ScanShard(init, [last.(prev := None)] + queue, key)
  }

  /** Scan shards from the last one; exhausted shards are dropped. No result stands for the panic. */
  function Serve(s: Store, queue: Shard, key: Key): Option<(Bytes, Store)> {
    if s == [] then None
    else
      var init := s[..|s| - 1];
      match ScanShard(s[|s| - 1], queue, key)
      case Found(value, rest) => Some((value, init + [rest]))
      case Missing(queue') => Serve(init, queue', key)
  }

  /** The simple meaning of a read: the last entry with the key. */
  function LastIndexOf(f: Shard, key: Key): (r: Option<nat>)
    ensures r.Some? ==> r.value < |f| && f[r.value].key == key
  {
    if f == [] then None
    else if f[|f| - 1].key == key then Some(|f| - 1)
    else LastIndexOf(f[..|f| - 1], key)
  }

  lemma {:induction false} LastIndexMeans(f: Shard, key: Key)
    ensures var r := LastIndexOf(f, key);
            forall j :: (if r.Some? then r.value else -1) < j < |f| ==> f[j].key != key
  {
    if f != [] {
      LastIndexMeans(f[..|f| - 1], key);
    }
  }

  function Unlinked(f: Shard): (r: Shard)
    ensures |r| == |f|
  {
    if f == [] then [] else Unlinked(f[..|f| - 1]) + [f[|f| - 1].(prev := None)]
  }

  lemma {:induction false} UnlinkedConcat(a: Shard, b: Shard)
    ensures Unlinked(a + b) == Unlinked(a) + Unlinked(b)
  {
    if b == [] {
      assert a + b == a;
    } else {
      assert (a + b)[..|a + b| - 1] == a + b[..|b| - 1];
      UnlinkedConcat(a, b[..|b| - 1]);
    }
  }

  /** The sequence without entry i; the entries behind it lose their pointers. */
  function Without(f: Shard, i: nat): Shard
    requires i < |f|
  {
    f[..i] + Unlinked(f[i + 1..])
  }

  lemma {:induction false} ScanRefines(entry: Shard, queue: Shard, key: Key)
    ensures ScanShard(entry, queue, key) ==
            match LastIndexOf(entry, key)
            case None => Missing(Unlinked(entry) + queue)
            case Some(i) => Found(entry[i].value, Without(entry, i) + queue)
  {
    if entry == [] {
      assert Unlinked(entry) + queue == queue;
    } else {
      var last, init := entry[|entry| - 1], entry[..|entry| - 1];
      if last.key == key {
        assert Without(entry, |entry| - 1) == init;
      } else {
        var moved := [last.(prev := None)];
        ScanRefines(init, moved + queue, key);
        match LastIndexOf(entry, key)
        case None =>
          assert Unlinked(init) + (moved + queue) == Unlinked(init) + moved + queue;
        case Some(i) =>
          assert init + [last] == entry;
          WithoutLeft(init, [last], i);
          assert Unlinked([last]) == moved;
          assert Without(init, i) + (moved + queue) == Without(init, i) + moved + queue;
      }
    }
  }

  lemma WithoutRight(a: Shard, b: Shard, i: nat)
    requires i < |b|
    ensures Without(a + b, |a| + i) == a + Without(b, i)
  {
    assert (a + b)[..|a| + i] == a + b[..i];
    assert (a + b)[|a| + i + 1..] == b[i + 1..];
  }

  lemma WithoutLeft(a: Shard, b: Shard, i: nat)
    requires i < |a|
    ensures Without(a + b, i) == Without(a, i) + Unlinked(b)
  {
    assert (a + b)[..i] == a[..i];
    assert (a + b)[i + 1..] == a[i + 1..] + b;
    UnlinkedConcat(a[i + 1..], b);
  }

  lemma {:induction false} LastIndexConcat(a: Shard, b: Shard, key: Key)
    ensures LastIndexOf(a + b, key) ==
            if LastIndexOf(b, key).Some? then Some(|a| + LastIndexOf(b, key).value) else LastIndexOf(a, key)
  {
    if b == [] {
      assert a + b == a;
    } else {
      assert (a + b)[..|a + b| - 1] == a + b[..|b| - 1];
      LastIndexConcat(a, b[..|b| - 1], key);
    }
  }

  /** The value of entry i is returned, and the entries left are those of f without it, then the queue. */
  ghost predicate Takes(value: Bytes, rest: Shard, f: Shard, queue: Shard, i: nat) {
    i < |f| && value == f[i].value && rest == Without(f, i) + queue
  }

  /** The result r is what a read of the flat sequence f gives, with the queue put behind the rest. */
  ghost predicate ReadsAs(r: Option<(Bytes, Store)>, f: Shard, queue: Shard, key: Key) {
    var i := LastIndexOf(f, key);
    if i.None? then r.None? else r.Some? && Takes(r.value.0, Flat(r.value.1), f, queue, i.value)
  }

  lemma FlatPush(init: Store, entry: Shard)
    ensures Flat(init + [entry]) == Flat(init) + entry
  {
    assert (init + [entry])[..|init|] == init;
  }

  lemma ReadHere(r: Option<(Bytes, Store)>, f: Shard, entry: Shard, queue: Shard, key: Key)
    requires LastIndexOf(entry, key).Some? && r.Some?
    requires var i := LastIndexOf(entry, key).value;
             r.value.0 == entry[i].value && Flat(r.value.1) == f + (Without(entry, i) + queue)
    ensures ReadsAs(r, f + entry, queue, key)
  {
    var i := LastIndexOf(entry, key).value;
    LastIndexConcat(f, entry, key);
    WithoutRight(f, entry, i);
    assert f + (Without(entry, i) + queue) == f + Without(entry, i) + queue;
  }

  lemma ReadEarlier(r: Option<(Bytes, Store)>, f: Shard, entry: Shard, queue: Shard, key: Key)
    requires LastIndexOf(entry, key) == None
    requires ReadsAs(r, f, Unlinked(entry) + queue, key)
    ensures ReadsAs(r, f + entry, queue, key)
  {
    LastIndexConcat(f, entry, key);
    if LastIndexOf(f, key).Some? {
      var i := LastIndexOf(f, key).value;
      WithoutLeft(f, entry, i);
      assert Without(f, i) + (Unlinked(entry) + queue) == Without(f, i) + Unlinked(entry) + queue;
    }
  }

  lemma {:induction false} ServeRefinesWithQueue(s: Store, queue: Shard, key: Key)
    ensures ReadsAs(Serve(s, queue, key), Flat(s), queue, key)
  {
    if s != [] {
      var entry, init := s[|s| - 1], s[..|s| - 1];
      ScanRefines(entry, queue, key);
      match LastIndexOf(entry, key)
      case Some(i) =>
        FlatPush(init, Without(entry, i) + queue);
        ReadHere(Serve(s, queue, key), Flat(init), entry, queue, key);
      case None =>
        ServeRefinesWithQueue(init, Unlinked(entry) + queue, key);
        ReadEarlier(Serve(s, queue, key), Flat(init), entry, queue, key);
    }
  }

  /** A read on an empty queue removes exactly the last entry with the key and keeps all others in order. */
  lemma ServeRemovesLast(s: Store, key: Key)
    ensures match LastIndexOf(Flat(s), key)
            case None => Serve(s, [], key) == None
            case Some(i) =>
              var r := Serve(s, [], key);
              r.Some? && r.value.0 == Flat(s)[i].value && Flat(r.value.1) == Without(Flat(s), i)
  {
    ServeRefinesWithQueue(s, [], key);
    if LastIndexOf(Flat(s), key).Some? {
      assert Without(Flat(s), LastIndexOf(Flat(s), key).value) + [] == Without(Flat(s), LastIndexOf(Flat(s), key).value);
    }
  }
}
