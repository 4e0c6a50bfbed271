/**
 * The way of the recorded preimages from the host into the guest: recording (crates/prover/src/client/witgen.rs),
 * framing (crates/prover/src/client/proving.rs) and loading (build/risczero/kona/src/main.rs).
 * A serialised shard is represented by the shard.
 */
module WitnessFrames {
  import opened Common
  import opened Preimages
  import opened VecOracle
  import opened OracleReplay
  import opened OracleFinalize
  import opened OracleClient

  /** Fetch from the underlying oracle and record what it answered; recording an invalid preimage panics. */
  method RecordedGet(source: Key -> Option<Bytes>, store: Oracle, key: Key) returns (r: Option<Bytes>, panicked: bool)
    modifies store`preimages
    ensures r == source(key)
    ensures panicked <==> r.Some? && ValidatePreimage(store.h, key, r.value) != Accept
    ensures store.preimages == if r.Some? && !panicked then Pushed(old(store.preimages), Entry(key, r.value, None))
                                 else old(store.preimages)
  {
    r, panicked := source(key), false;
    if r.Some? {
      var ok := store.InsertPreimage(key, r.value);
      panicked := !ok;
    }
  }

  /** The store after recording a list of accesses into an empty one. */
  function Recorded(ps: seq<(Key, Bytes)>): Store {
    if ps == [] then []
    else Pushed(Recorded(ps[..|ps| - 1]), Entry(ps[|ps| - 1].0, ps[|ps| - 1].1, None))
  }

  ghost predicate AllValid(h: Hashes, ps: seq<(Key, Bytes)>) {
    forall i :: 0 <= i < |ps| ==> ValidatePreimage(h, ps[i].0, ps[i].1) == Accept
  }

  lemma {:induction false} RecordedStore(h: Hashes, ps: seq<(Key, Bytes)>)
    requires AllValid(h, ps)
    ensures Pairs(Flat(Recorded(ps))) == ps
    ensures PointerFree(Recorded(ps)) && AllAccepted(h, Recorded(ps))
  {
    if ps != [] {
      var init, last := ps[..|ps| - 1], ps[|ps| - 1];
      RecordedStore(h, init);
      var x := Entry(last.0, last.1, None);
      PushedAppends(h, Recorded(init), x);
      PairsConcat(Flat(Recorded(init)), [x]);
      assert init + [last] == ps;
    }
  }

  /** Move every shard out of the slice, leaving empty ones behind. */
  method ShardWitnessData(data: array<Shard>) returns (shards: seq<Shard>)
    modifies data
    ensures shards == old(data[..])
    ensures forall i :: 0 <= i < data.Length ==> data[i] == []
  {
    shards := [];
    for i := 0 to data.Length
      invariant shards == old(data[..i])
      invariant forall k :: 0 <= k < i ==> data[k] == []
      invariant forall k :: i <= k < data.Length ==> data[k] == old(data[k])
    {
      shards := shards + [data[i]];
      data[i] := [];
    }
  }

  /** The oracle part of the main frame, the frames behind it, and the streamed frames. */
  method EncodeWitnessFrames(oracle: array<Shard>, stream: array<Shard>)
    returns (main: Store, preloaded: seq<Shard>, streamed: seq<Shard>)
    requires oracle != stream
    modifies oracle, stream
    ensures main == Emptied(old(oracle[..])) && preloaded == old(oracle[..])
    ensures streamed == Reverse(old(stream[..]))
  {
    preloaded := ShardWitnessData(oracle);
    streamed := ShardWitnessData(stream);
    streamed := Reverse(streamed);
    main := oracle[..];
    EmptiedIs(preloaded, main);
  }

  function Emptied(s: Store): Store {
    if s == [] then [] else [[]] + Emptied(s[1..])
  }

  lemma {:induction false} EmptiedIs(s: Store, t: Store)
    requires |t| == |s| && forall i :: 0 <= i < |t| ==> t[i] == []
    ensures t == Emptied(s)
  {
    if s != [] {
      EmptiedIs(s[1..], t[1..]);
      assert t == [t[0]] + t[1..];
    }
  }

  /** The guest reads one frame for every empty shard of the main frame; no result if the frames run out. */
  function Loaded(main: Store, frames: seq<Shard>): Option<(Store, seq<Shard>)> {
    if main == [] then Some(([], frames))
    else if main[0] == [] && frames == [] then None
    else
      var shard, frames' := if main[0] == [] then frames[0] else main[0], if main[0] == [] then frames[1..] else frames;
      match Loaded(main[1..], frames')
      case None => None
      case Some((rest, frames'')) => Some(([shard] + rest, frames''))
  }

  /** The shards already filled, followed by what loading the others gives, is what loading all gives. */
  ghost predicate FilledUpTo(filled: Store, main: Store, frames: seq<Shard>, whole: Option<(Store, seq<Shard>)>) {
    var rest := Loaded(main, frames);
    && (rest.Some? <==> whole.Some?)
    && (rest.Some? ==> whole.value == (filled + rest.value.0, rest.value.1))
  }

  lemma FillNext(filled: Store, main: Store, frames: seq<Shard>, whole: Option<(Store, seq<Shard>)>)
    requires main != [] && FilledUpTo(filled, main, frames, whole)
    ensures main[0] == [] && frames == [] ==> whole.None?
    ensures main[0] == [] && frames != [] ==> FilledUpTo(filled + [frames[0]], main[1..], frames[1..], whole)
    ensures main[0] != [] ==> FilledUpTo(filled + [main[0]], main[1..], frames, whole)
  {
    if main[0] != [] || frames != [] {
      var shard := if main[0] == [] then frames[0] else main[0];
      var rest := Loaded(main[1..], if main[0] == [] then frames[1..] else frames);
      if rest.Some? {
        Reassociate(filled, [shard], rest.value.0);
      }
    }
  }

  method LoadExtensionShards(entries: array<Shard>, frames: seq<Shard>) returns (rest: Option<seq<Shard>>)
    modifies entries
    ensures match Loaded(old(entries[..]), frames)
            case None => rest == None
            case Some((store, left)) => rest == Some(left) && entries[..] == store
  {
    var unread := frames;
    ghost var start := entries[..];
    ghost var whole := Loaded(start, frames);
    assert start[0..] == start;
    assert whole.Some? ==> entries[..0] + whole.value.0 == whole.value.0;
    for i := 0 to entries.Length
      invariant entries[i..] == start[i..]
      invariant FilledUpTo(entries[..i], start[i..], unread, whole)
    {
      assert start[i..][0] == entries[i..][0] == entries[i];
      assert start[i..][1..] == start[i + 1..];
      FillNext(entries[..i], start[i..], unread, whole);
      ghost var done := entries[..i];
      if entries[i] == [] {
        if unread == [] {
          return None;
        }
        entries[i] := unread[0];
        unread := unread[1..];
      }
      assert entries[..i + 1] == done + [entries[i]];
      assert entries[i + 1..] == start[i + 1..];
    }
    assert entries[..entries.Length] == entries[..];
    rest := Some(unread);
  }

  lemma {:induction false} LoadedRestores(s: Store, streamed: seq<Shard>)
    ensures Loaded(Emptied(s), s + streamed) == Some((s, streamed))
  {
    if s == [] {
      assert s + streamed == streamed;
    } else {
      assert (s + streamed)[1..] == s[1..] + streamed;
      assert Emptied(s)[1..] == Emptied(s[1..]);
      LoadedRestores(s[1..], streamed);
      assert [s[0]] + s[1..] == s;
    }
  }

  lemma ReverseTwice<T>(s: seq<T>)
    ensures Reverse(Reverse(s)) == s
  {
  }

  /** Issuing the accesses in order returns their values in order and drains the store. */
  ghost predicate Replays(s: Store, ps: seq<(Key, Bytes)>) {
    var r := ServeAll(s, KeysOf(ps));
    r.Some? && r.value.0 == ValuesOf(ps) && Flat(r.value.1) == []
  }

  lemma RecordedReplays(h: Hashes, ps: seq<(Key, Bytes)>, limit: nat, withPointers: bool)
    requires AllValid(h, ps)
    ensures Replays(Finalized(Recorded(ps), limit, withPointers), ps)
  {
    RecordedStore(h, ps);
    RecordReplay(Recorded(ps), limit, withPointers);
  }

  /**
   * The preloaded oracle is restored from its frames and answers as recorded; the guest accepts it iff no key that
   * needs validation was answered in two ways.
   */
  lemma PreloadedReplays(h: Hashes, ps: seq<(Key, Bytes)>, limit: nat, behind: seq<Shard>)
    requires AllValid(h, ps)
    ensures var store := Finalized(Recorded(ps), limit, true);
            && Loaded(Emptied(store), store + behind) == Some((store, behind))
            && Replays(store, ps)
            && (AllAccepted(h, store) <==> SameAnswers(ps))
  {
    LoadedRestores(Finalized(Recorded(ps), limit, true), behind);
    RecordedStore(h, ps);
    RevalidatesIffSingleValued(h, Recorded(ps), limit);
    SingleValuedIsSameAnswers(Flat(Recorded(ps)));
    RecordedReplays(h, ps, limit, true);
  }

  predicate AnswersCollide(h: Hashes, ps: seq<(Key, Bytes)>, i: nat, j: nat) {
    i < |ps| && j < |ps| && Collide(h, ps[i].1, ps[j].1)
  }

  lemma CollisionOfPairs(h: Hashes, f: Shard)
    requires HoldsCollision(h, f)
    ensures exists i: nat, j: nat :: AnswersCollide(h, Pairs(f), i, j)
  {
    var x, y :| x in f && y in f && Collide(h, x.value, y.value);
    var i :| 0 <= i < |f| && f[i] == x;
    var j :| 0 <= j < |f| && f[j] == y;
    assert AnswersCollide(h, Pairs(f), i, j);
  }

  /** If the guest rejects what was validly recorded, two recorded values are a hash collision. */
  lemma RejectionShowsCollision(h: Hashes, ps: seq<(Key, Bytes)>, limit: nat)
    requires AllValid(h, ps) && !AllAccepted(h, Finalized(Recorded(ps), limit, true))
    ensures exists i: nat, j: nat :: AnswersCollide(h, ps, i, j)
  {
    RecordedStore(h, ps);
    RevalidatesIffSingleValued(h, Recorded(ps), limit);
    SingleValuedOrCollision(h, Recorded(ps));
    CollisionOfPairs(h, Flat(Recorded(ps)));
  }

  lemma PlaceInReverse(s: Store, frame: Shard) returns (k: nat)
    requires frame in Reverse(s)
    ensures k < |s| && s[k] == frame
  {
    var i :| 0 <= i < |s| && Reverse(s)[i] == frame;
    k := |s| - 1 - i;
  }

  lemma FrameAccepted(h: Hashes, qs: seq<(Key, Bytes)>, limit: nat, frame: Shard)
    requires AllValid(h, qs) && frame in Reverse(Finalized(Recorded(qs), limit, false))
    ensures AllAccepted(h, [frame])
  {
    var stream := Finalized(Recorded(qs), limit, false);
    RecordedStore(h, qs);
    var k := PlaceInReverse(stream, frame);
    ShardsAcceptedAlone(h, Recorded(qs), limit, k);
  }

  /** The streamed oracle: every frame is accepted on its own, and an oracle over the frames answers as recorded. */
  lemma StreamedReplays(h: Hashes, qs: seq<(Key, Bytes)>, limit: nat)
    requires AllValid(h, qs)
    ensures var frames := Reverse(Finalized(Recorded(qs), limit, false));
            && (forall f :: f in frames ==> AllAccepted(h, [f]))
            && Replays(Reverse(frames) + [], qs)
  {
    var stream := Finalized(Recorded(qs), limit, false);
    forall f | f in Reverse(stream) ensures AllAccepted(h, [f]) {
      FrameAccepted(h, qs, limit, f);
    }
    RecordedReplays(h, qs, limit, false);
    ReverseTwice(stream);
    assert stream + [] == stream;
  }

  /** A guest oracle over the streamed frames answers the recorded accesses in order and ends empty. */
  method ReplayStreamed(o: Oracle, ghost qs: seq<(Key, Bytes)>, ghost limit: nat, keys: seq<Key>)
    returns (values: Option<seq<Bytes>>)
    requires AllValid(o.h, qs) && keys == KeysOf(qs)
    requires o.guest && o.preimages == [] && o.queue == [] && o.frames == Reverse(Finalized(Recorded(qs), limit, false))
    modifies o
    ensures values == Some(ValuesOf(qs)) && o.queue == [] && Flat(o.Readable()) == []
  {
    StreamedReplays(o.h, qs, limit);
    NothingQueued(o.Readable(), keys);
    values := o.GetAll(keys);
  }

  lemma HeldInMemory(o: Oracle)
    requires o.frames == []
    ensures o.Readable() == o.preimages && o.Streamable()
  {
    assert [] + o.preimages == o.preimages;
  }

  /** A host or guest oracle that holds the preloaded store answers the recorded accesses in order and ends empty. */
  method ReplayPreloaded(o: Oracle, ghost ps: seq<(Key, Bytes)>, ghost limit: nat, keys: seq<Key>)
    returns (values: Option<seq<Bytes>>)
    requires AllValid(o.h, ps) && keys == KeysOf(ps)
    requires o.frames == [] && o.queue == [] && o.preimages == Finalized(Recorded(ps), limit, true)
    modifies o
    ensures values == Some(ValuesOf(ps)) && o.queue == [] && Flat(o.Readable()) == []
  {
    RecordedReplays(o.h, ps, limit, true);
    HeldInMemory(o);
    NothingQueued(o.Readable(), keys);
    values := o.GetAll(keys);
  }
}
