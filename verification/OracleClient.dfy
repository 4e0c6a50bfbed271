/** The preimage oracle object, its recorder, and the frames that carry it into the guest. */
module OracleClient {
  import opened Common
  import opened Preimages
  import opened VecOracle
  import opened OracleReplay
  import opened OracleFinalize

  /** Fills shard after shard; an entry goes into a new one if it does not fit and the current one holds any bytes. */
  method ShardEntries(flat: Shard, limit: nat) returns (sharded: Store)
    ensures sharded == Sharded(flat, limit)
  {
    sharded := [[]];
    var lastShardSize := 0;
    for i := 0 to |flat|
      invariant sharded != [] && sharded == Sharded(flat[..i], limit)
      invariant lastShardSize == Size(sharded[|sharded| - 1])
    {
      ShardedNext(flat, i, limit);
      sharded, lastShardSize := PlaceEntry(sharded, lastShardSize, flat[i], limit);
    }
    assert flat[..|flat|] == flat;
  }

  /** The body of the loop: a new shard if the last one would grow too big. */
  method PlaceEntry(sharded: Store, size: nat, value: Entry, limit: nat) returns (sharded': Store, lastShardSize: nat)
    requires sharded != [] && size == Size(sharded[|sharded| - 1])
    ensures sharded' == Place(sharded, value, limit) && sharded' != []
    ensures lastShardSize == Size(sharded'[|sharded'| - 1])
  {
    sharded', lastShardSize := sharded, size;
    if |value.value| + lastShardSize > limit && lastShardSize > 0 {
      sharded' := sharded' + [[]];
      lastShardSize := 0;
      NewShard(sharded, value);
    }
    lastShardSize := lastShardSize + |value.value|;
    var last := sharded'[|sharded'| - 1];
    SizeAppend(last, value);
    sharded' := sharded'[..|sharded'| - 1] + [last + [value]];
  }

  /** Host and guest differ in one point: only the guest reads further shards when its store runs out. */
  class Oracle {
    const h: Hashes
    const guest: bool
    var preimages: Store
    var queue: Shard
    var frames: seq<Shard>

    constructor (h: Hashes, guest: bool, frames: seq<Shard>)
      ensures this.h == h && this.guest == guest && this.frames == frames
      ensures preimages == [] && queue == []
    {
      this.h, this.guest, this.frames := h, guest, frames;
      preimages, queue := [], [];
    }

    /** All shards this oracle can still read, in the order of an in-memory store. */
    ghost function Readable(): Store
      reads this
    {
      (if guest then Reverse(frames) else []) + preimages
    }

    method PreimageCount() returns (n: nat)
      ensures n == |Flat(preimages)|
    {
      n := 0;
      for e := 0 to |preimages|
        invariant n == |Flat(preimages[..e])|
      {
        n := n + |preimages[e]|;
        assert preimages[..e + 1][..e] == preimages[..e];
      }
      assert preimages[..|preimages|] == preimages;
    }

    method InsertPreimage(key: Key, value: Bytes) returns (ok: bool)
      modifies this`preimages
      ensures ok <==> ValidatePreimage(h, key, value) == Accept
      ensures ok ==> preimages == Pushed(old(preimages), Entry(key, value, None))
      ensures !ok ==> preimages == old(preimages)
    {
      ok := ValidatePreimage(h, key, value) == Accept;
      if ok {
        if preimages == [] {
          preimages := preimages + [[]];
        }
        var n := |preimages| - 1;
        var shard := preimages[n] + [Entry(key, value, None)];
        assert preimages[n := shard] == preimages[..n] + [shard];
        assert old(preimages) == [] ==> shard == [Entry(key, value, None)];
        preimages := preimages[n := shard];
      }
    }

    method FinalizePreimages(limit: nat, withPointers: bool) returns (ok: bool)
      modifies this`preimages
      ensures ok <==> AllAccepted(h, old(preimages))
      ensures ok ==> preimages == Finalized(old(preimages), limit, withPointers)
      ensures !ok ==> preimages == old(preimages)
    {
      var verdict := Validate(h, preimages);
      ok := verdict.Accept?;
      if !ok {
        return;
      }
      preimages := ShardEntries(Reverse(Flat(preimages)), limit);
      if withPointers {
        AddPointers();
      }
    }

    method AddPointers()
      modifies this`preimages
      ensures preimages == Link(old(preimages))
    {
      ghost var s := preimages;
      var cache: map<Key, (nat, nat)> := map[];
      for i := 0 to |preimages|
        invariant LinkedUpTo(preimages, s, i, 0)
        invariant i < |s| ==> Caches(cache, s, i, 0)
      {
        for j := 0 to |preimages[i]|
          invariant LinkedUpTo(preimages, s, i, j)
          invariant Caches(cache, s, i, j)
        {
          LinkStep(preimages, s, cache, i, j);
          var x := preimages[i][j];
          if NeedsValidation(x.key) {
            if x.key in cache {
              preimages := preimages[i := preimages[i][j := x.(prev := Some(cache[x.key]))]];
            }
            cache := cache[x.key := (i, j)];
          }
        }
        NextShard(preimages, s, cache, i);
      }
      LinkedUpToEnd(preimages, s);
    }

    /** Pop the last shard until the key is found (then the queue goes back into the shard) or nothing is left. */
    method ScanLast(key: Key) returns (r: Option<Bytes>)
      requires preimages != []
      modifies this`preimages, this`queue
      ensures var n := |old(preimages)| - 1;
              var scan := ScanShard(old(preimages)[n], old(queue), key);
              && (scan.Found? ==> r == Some(scan.value) && preimages == old(preimages)[..n] + [scan.rest] && queue == [])
              && (scan.Missing? ==> r == None && preimages == old(preimages)[..n] + [[]] && queue == scan.queue)
    {
      ghost var init := preimages[..|preimages| - 1];
      var entry := preimages[|preimages| - 1];
      ghost var scan := ScanShard(entry, queue, key);
      while entry != []
        invariant preimages == init + [entry]
        invariant ScanShard(entry, queue, key) == scan
        decreases |entry|
      {
        var last := entry[|entry| - 1];
        entry := entry[..|entry| - 1];
        if key == last.key {
          preimages := preimages[|preimages| - 1 := entry + queue];
          queue := [];
          return Some(last.value);
        }
        queue := [last.(prev := None)] + queue;
        preimages := preimages[|preimages| - 1 := entry];
      }
      r := None;
    }

    /** Every shard still to be streamed passes validation on its own. */
    ghost predicate Streamable()
      reads this
    {
      guest ==> forall f :: f in frames ==> AllAccepted(h, [f])
    }

    /** Push the next streamed shard, and validate it; it fails if there is none, or it does not validate. */
    method ReadShard() returns (ok: bool)
      requires preimages == []
      modifies this`preimages, this`frames
      ensures Readable() == old(Readable())
      ensures ok ==> |frames| < |old(frames)| && preimages != []
      ensures forall f :: f in frames ==> f in old(frames)
      ensures old(Streamable()) ==> (ok <==> old(Readable()) != [])
    {
      if !guest || frames == [] {
        return false;
      }
      ghost var all := Readable();
      preimages, frames := [frames[0]], frames[1..];
      assert Readable() == all;
      var verdict := Validate(h, preimages);
      ok := verdict.Accept?;
    }

    /** Look for the key in the last shard, and drop the shard if the key is not in it. */
    method ReadLast(key: Key) returns (r: Option<Bytes>)
      requires preimages != []
      modifies this`preimages, this`queue
      ensures r.Some? ==> queue == [] && Serve(old(Readable()), old(queue), key) == Some((r.value, Readable()))
      ensures r.None? ==> |preimages| < |old(preimages)| && ReadsOn(old(Readable()), old(queue), key, Readable(), queue)
    {
      ghost var init := preimages[..|preimages| - 1];
      ghost var front := if guest then Reverse(frames) else [];
      assert preimages == init + [preimages[|init|]];
      ServeSplit(front, init, preimages[|init|], queue, key);
      ContentsSplit(front, init, preimages[|init|], queue, key);
      r := ScanLast(key);
      if r.None? {
        preimages := preimages[..|preimages| - 1];
        assert preimages == init;
      }
    }

    /**
     * No result stands for the panic on an exhausted oracle or on a streamed shard that fails validation; an exhausted
     * oracle leaves everything it held in the queue.
     */
    method Get(key: Key) returns (r: Option<Bytes>)
      modifies this
      ensures old(Streamable()) ==> Streamable()
      ensures r.Some? ==> queue == [] && Serve(old(Readable()), old(queue), key) == Some((r.value, Readable()))
      ensures old(Streamable()) ==> (r.Some? <==> Serve(old(Readable()), old(queue), key).Some?)
      ensures old(Streamable()) && r.None? ==> Readable() == [] && queue == Contents(old(Readable()), old(queue))
    {
      while true
        invariant ReadsOn(old(Readable()), old(queue), key, Readable(), queue)
        invariant forall f :: f in frames ==> f in old(frames)
        decreases |frames|, |preimages|
      {
        if preimages == [] {
          var ok := ReadShard();
          if !ok {
            ReadsNothing(queue, key);
            return None;
          }
        }
        r := ReadLast(key);
        if r.Some? {
          return;
        }
      }
    }

    /** Read one key after the other; no result if one of the reads panics. Only the first meets what is left in the
        queue by a read that panicked. */
    method GetAll(keys: seq<Key>) returns (values: Option<seq<Bytes>>)
      modifies this
      ensures values.Some? ==> ServeQueued(old(Readable()), old(queue), keys) == Some((values.value, Readable()))
      ensures values.Some? && (keys != [] || old(queue) == []) ==> queue == []
      ensures old(Streamable()) ==> (values.Some? <==> ServeQueued(old(Readable()), old(queue), keys).Some?)
    {
      if keys == [] {
        return Some([]);
      }
      var first := Get(keys[0]);
      if first.None? {
        return None;
      }
      var others := GetOthers(keys[1..]);
      values := if others.None? then None else Some([first.value] + others.value);
    }

    method GetOthers(keys: seq<Key>) returns (values: Option<seq<Bytes>>)
      requires queue == []
      modifies this
      ensures values.Some? ==> queue == [] && ServeAll(old(Readable()), keys) == Some((values.value, Readable()))
      ensures old(Streamable()) ==> (values.Some? <==> ServeAll(old(Readable()), keys).Some?)
    {
      var read: seq<Bytes> := [];
      assert keys[0..] == keys;
      assert ServeAll(Readable(), keys).Some? ==>
          [] + ServeAll(Readable(), keys).value.0 == ServeAll(Readable(), keys).value.0;
      for i := 0 to |keys|
        invariant queue == [] && (old(Streamable()) ==> Streamable())
        invariant ReadSoFar(old(Readable()), keys, read, Readable(), keys[i..])
      {
        ReadNext(old(Readable()), keys, read, Readable(), keys[i..]);
        assert keys[i..][1..] == keys[i + 1..];
        var value := Get(keys[i]);
        if value.None? {
          return None;
        }
        read := read + [value.value];
      }
      assert keys[|keys|..] == [] && read + [] == read;
      values := Some(read);
    }
  }

  /** The store and queue that are left answer the read as before, and hold the same entries. */
  ghost predicate ReadsOn(s: Store, queue: Shard, key: Key, s': Store, queue': Shard) {
    Serve(s', queue', key) == Serve(s, queue, key) && Contents(s', queue') == Contents(s, queue)
  }

  lemma ReadsNothing(queue: Shard, key: Key)
    ensures Serve([], queue, key).None? && Contents([], queue) == queue
  {
  }

  /** What an oracle holds: the entries of its shards without pointers, then its queue. */
  function Contents(s: Store, queue: Shard): Shard {
    Unlinked(Flat(s)) + queue
  }

  /** A shard without the key only moves into the queue. */
  lemma ContentsSplit(front: Store, init: Store, entry: Shard, queue: Shard, key: Key)
    ensures var scan := ScanShard(entry, queue, key);
            scan.Missing? ==> Contents(front + init, scan.queue) == Contents(front + (init + [entry]), queue)
  {
    ScanRefines(entry, queue, key);
    if LastIndexOf(entry, key).None? {
      Reassociate(front, init, [entry]);
      FlatPush(front + init, entry);
      UnlinkedConcat(Flat(front + init), entry);
      Reassociate(Unlinked(Flat(front + init)), Unlinked(entry), queue);
    }
  }

  /** Serving all keys when the queue is not empty yet. */
  function ServeQueued(s: Store, queue: Shard, keys: seq<Key>): Option<(seq<Bytes>, Store)> {
    if keys == [] then Some(([], s))
    else
      match Serve(s, queue, keys[0])
      case None => None
      case Some((value, s')) =>
        match ServeAll(s', keys[1..])
        case None => None
        case Some((values, s'')) => Some(([value] + values, s''))
  }

  lemma NothingQueued(s: Store, keys: seq<Key>)
    ensures ServeQueued(s, [], keys) == ServeAll(s, keys)
  {
  }

  /** Serving all keys comes to the values read so far, followed by what serving the rest from here gives. */
  ghost predicate ReadSoFar(start: Store, keys: seq<Key>, read: seq<Bytes>, s: Store, rest: seq<Key>) {
    var whole, left := ServeAll(start, keys), ServeAll(s, rest);
    && (whole.Some? <==> left.Some?)
    && (whole.Some? ==> whole.value == (read + left.value.0, left.value.1))
  }

  lemma ReadNext(start: Store, keys: seq<Key>, read: seq<Bytes>, s: Store, rest: seq<Key>)
    requires rest != [] && ReadSoFar(start, keys, read, s, rest)
    ensures var r := Serve(s, [], rest[0]);
            if r.None? then ServeAll(start, keys).None?
            else ReadSoFar(start, keys, read + [r.value.0], r.value.1, rest[1..])
  {
    var r := Serve(s, [], rest[0]);
    if r.Some? && ServeAll(r.value.1, rest[1..]).Some? {
      Reassociate(read, [r.value.0], ServeAll(r.value.1, rest[1..]).value.0);
    }
  }

  /** A read works on the last shard first, whatever is in front of it. */
  lemma ServeSplit(front: Store, init: Store, entry: Shard, queue: Shard, key: Key)
    ensures var scan := ScanShard(entry, queue, key);
            Serve(front + (init + [entry]), queue, key) ==
            if scan.Found? then Some((scan.value, front + (init + [scan.rest]))) else Serve(front + init, scan.queue, key)
  {
    var all := front + (init + [entry]);
    assert all[..|all| - 1] == front + init;
    var scan := ScanShard(entry, queue, key);
    if scan.Found? {
      Reassociate(front, init, [scan.rest]);
    }
  }

  /** The positions before (i, j) have their pointers, the others are still as in s. */
  ghost predicate LinkedUpTo(t: Store, s: Store, i: nat, j: nat) {
    && |t| == |s|
    && (forall e: nat :: e < |s| ==> |t[e]| == |s[e]|)
    && forall e: nat, p: nat :: At(s, e, p) ==>
         t[e][p] == if Before(e, p, i, j) then LinkedEntry(s, e, p) else s[e][p]
  }

  lemma SizeAppend(f: Shard, x: Entry)
    ensures Size(f + [x]) == Size(f) + |x.value|
  {
    assert (f + [x])[..|f|] == f;
  }

  /** An entry appended to a new empty shard is a new shard of one entry. */
  lemma NewShard(s: Store, x: Entry)
    ensures Size([]) == 0
    ensures var t := s + [[]];
            t[|t| - 1] == [] && t[..|t| - 1] + [t[|t| - 1] + [x]] == s + [[x]]
  {
    var t := s + [[]];
    assert t[..|t| - 1] == s && [] + [x] == [x];
  }

  lemma ShardedNext(f: Shard, i: nat, limit: nat)
    requires i < |f|
    ensures Sharded(f[..i + 1], limit) == Place(Sharded(f[..i], limit), f[i], limit)
  {
    assert f[..i + 1][..i] == f[..i];
  }

  function LinkedAt(t: Store, cache: map<Key, (nat, nat)>, i: nat, j: nat): Store
    requires At(t, i, j)
  {
    var x := t[i][j];
    if NeedsValidation(x.key) && x.key in cache then t[i := t[i][j := x.(prev := Some(cache[x.key]))]] else t
  }

  function CachedAt(s: Store, cache: map<Key, (nat, nat)>, i: nat, j: nat): map<Key, (nat, nat)>
    requires At(s, i, j)
  {
    if NeedsValidation(s[i][j].key) then cache[s[i][j].key := (i, j)] else cache
  }

  /** One entry is linked to what the cache knows of its key, and is what the cache knows from then on. */
  lemma LinkStep(t: Store, s: Store, cache: map<Key, (nat, nat)>, i: nat, j: nat)
    requires At(s, i, j) && LinkedUpTo(t, s, i, j) && Caches(cache, s, i, j)
    ensures At(t, i, j) && t[i][j] == s[i][j]
    ensures LinkedUpTo(LinkedAt(t, cache, i, j), s, i, j + 1) && Caches(CachedAt(s, cache, i, j), s, i, j + 1)
  {
    var t', x := LinkedAt(t, cache, i, j), s[i][j];
    assert t[i][j] == x;
    assert t'[i][j] == LinkedEntry(s, i, j);
    forall e: nat, p: nat | At(s, e, p)
      ensures t'[e][p] == if Before(e, p, i, j + 1) then LinkedEntry(s, e, p) else s[e][p]
    {
      if (e, p) != (i, j) {
        assert t'[e][p] == t[e][p];
      }
    }
  }

  lemma NextShard(t: Store, s: Store, cache: map<Key, (nat, nat)>, i: nat)
    requires i < |s| && LinkedUpTo(t, s, i, |s[i]|) && Caches(cache, s, i, |s[i]|)
    ensures LinkedUpTo(t, s, i + 1, 0)
    ensures i + 1 < |s| ==> Caches(cache, s, i + 1, 0)
  {
  }

  lemma LinkedUpToEnd(t: Store, s: Store)
    requires LinkedUpTo(t, s, |s|, 0)
    ensures t == Link(s)
  {
    forall e: nat | e < |s| ensures t[e] == Link(s)[e] {
      assert forall p: nat :: At(s, e, p) ==> t[e][p] == Link(s)[e][p];
    }
  }

  function Pushed(s: Store, x: Entry): (t: Store)
    ensures t != []
  {
    if s == [] then [[x]] else s[..|s| - 1] + [s[|s| - 1] + [x]]
  }

  /** Recording appends to the flat store, and keeps it accepted and pointer-free. */
  lemma PushedAppends(h: Hashes, s: Store, x: Entry)
    ensures Flat(Pushed(s, x)) == Flat(s) + [x]
    ensures AllAccepted(h, s) && PointerFree(s) && x.prev.None? && ValidatePreimage(h, x.key, x.value) == Accept ==>
              AllAccepted(h, Pushed(s, x)) && PointerFree(Pushed(s, x))
  {
    var t := Pushed(s, x);
    if s == [] {
      FlatPush([], [x]);
      assert [] + [[x]] == t;
    } else {
      FlatPush(s[..|s| - 1], s[|s| - 1] + [x]);
      Reassociate(Flat(s[..|s| - 1]), s[|s| - 1], [x]);
    }
    if AllAccepted(h, s) && PointerFree(s) && x.prev.None? && ValidatePreimage(h, x.key, x.value) == Accept {
      PushedAccepted(h, s, x);
    }
  }

  lemma PushedAccepted(h: Hashes, s: Store, x: Entry)
    requires AllAccepted(h, s) && PointerFree(s) && x.prev.None? && ValidatePreimage(h, x.key, x.value) == Accept
    ensures AllAccepted(h, Pushed(s, x)) && PointerFree(Pushed(s, x))
  {
    var t := Pushed(s, x);
    forall e: nat, p: nat | At(t, e, p) ensures t[e][p].prev.None? && CheckEntry(h, t, e, p) == Accept {
      if At(s, e, p) {
        assert CheckEntry(h, s, e, p) == Accept;
      }
    }
  }

  /** The cache knows the nearest earlier position of every key that needs validation. */
  ghost predicate Caches(cache: map<Key, (nat, nat)>, s: Store, i: nat, j: nat)
    requires i < |s| && j <= |s[i]|
  {
    forall key :: NeedsValidation(key) ==>
      LastBefore(s, i, j, key) == if key in cache then Some(cache[key]) else None
  }
}
