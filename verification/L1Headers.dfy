/** The L1 header cache of the derivation client (crates/kona/src/kona.rs). */
module L1Headers {
  import opened Common

  datatype Header = Header(parentHash: B256, number: nat, timestamp: nat)

  /** A header together with its hash. */
  datatype Sealed = Sealed(hash: B256, header: Header)

  datatype BlockInfo = BlockInfo(hash: B256, number: nat, parentHash: B256, timestamp: nat)

  /** A block, a number past the head, a header that could not be fetched, or a provider without any header. */
  datatype Lookup = Found(info: BlockInfo) | PastHead(number: nat, head: nat) | FetchFailed | Panic

  /** What the oracle resolves a header hash to; no header stands for a failed request or decoding. */
  type Oracle = B256 -> Option<Header>

  function Info(s: Sealed): BlockInfo {
    BlockInfo(s.hash, s.header.number, s.header.parentHash, s.header.timestamp)
  }

  function Resolve(oracle: Oracle, hash: B256): Option<Sealed> {
    if oracle(hash).Some? then Some(Sealed(hash, oracle(hash).value)) else None
  }

  /** Walk so many parents back without any cache. */
  function Ancestor(oracle: Oracle, s: Sealed, steps: nat): Option<Sealed>
    decreases steps
  {
    if steps == 0 then Some(s)
    else
      var parent := Resolve(oracle, s.header.parentHash);
      if parent.None? then None else Ancestor(oracle, parent.value, steps - 1)
  }

  function UncachedLookup(oracle: Oracle, head: Option<Sealed>, number: nat): Lookup {
    if head.None? then Panic
    else if number > head.value.header.number then PastHead(number, head.value.header.number)
    else
      var block := Ancestor(oracle, head.value, head.value.header.number - number);
      if block.None? then FetchFailed else Found(Info(block.value))
  }

  /** Every block but the first one is one above its parent. */
  ghost predicate WellNumbered(oracle: Oracle) {
    forall hash: B256 :: Numbered(oracle, hash)
  }

  ghost predicate Numbered(oracle: Oracle, hash: B256) {
    oracle(hash).Some? && oracle(hash).value.number > 0 && oracle(oracle(hash).value.parentHash).Some? ==>
      oracle(oracle(hash).value.parentHash).value.number + 1 == oracle(hash).value.number
  }

  lemma {:induction false} AncestorSteps(oracle: Oracle, s: Sealed, steps: nat)
    ensures Ancestor(oracle, s, steps + 1)
         == (if Ancestor(oracle, s, steps).None? then None
             else Resolve(oracle, Ancestor(oracle, s, steps).value.header.parentHash))
    decreases steps
  {
    if steps > 0 {
      var parent := Resolve(oracle, s.header.parentHash);
      if parent.Some? {
        AncestorSteps(oracle, parent.value, steps - 1);
      }
    }
  }

  lemma {:induction false} AncestorFails(oracle: Oracle, s: Sealed, steps: nat, more: nat)
    requires Ancestor(oracle, s, steps).None? && steps <= more
    ensures Ancestor(oracle, s, more).None?
    decreases steps
  {
    if steps > 0 {
      var parent := Resolve(oracle, s.header.parentHash);
      if parent.Some? {
        AncestorFails(oracle, parent.value, steps - 1, more - 1);
      }
    }
  }

  /** The block found at a number is the ancestor of the head with that number, authenticated by its hash. */
  lemma {:induction false} AncestorNumber(oracle: Oracle, s: Sealed, steps: nat)
    requires WellNumbered(oracle) && oracle(s.hash) == Some(s.header) && steps <= s.header.number
    requires Ancestor(oracle, s, steps).Some?
    ensures var a := Ancestor(oracle, s, steps).value;
            a.header.number == s.header.number - steps && oracle(a.hash) == Some(a.header)
    decreases steps
  {
    if steps > 0 {
      assert Numbered(oracle, s.hash);
      AncestorNumber(oracle, Resolve(oracle, s.header.parentHash).value, steps - 1);
    }
  }

  lemma LookupFindsNumber(oracle: Oracle, head: Sealed, number: nat)
    requires WellNumbered(oracle) && oracle(head.hash) == Some(head.header)
    requires UncachedLookup(oracle, Some(head), number).Found?
    ensures var info := UncachedLookup(oracle, Some(head), number).info;
            info.number == number && oracle(info.hash) == Some(Header(info.parentHash, number, info.timestamp))
  {
    AncestorNumber(oracle, head, head.header.number - number);
  }

  /** The headers follow one another from child to parent. */
  ghost predicate Ancestry(oracle: Oracle, path: seq<Sealed>) {
    forall i :: 0 < i < |path| ==> Resolve(oracle, path[i - 1].header.parentHash) == Some(path[i])
  }

  lemma {:induction false} AncestryOf(oracle: Oracle, s: Sealed, steps: nat) returns (path: seq<Sealed>)
    requires Ancestor(oracle, s, steps).Some?
    ensures Ancestry(oracle, path) && |path| == steps + 1 && path[0] == s
    ensures path[steps] == Ancestor(oracle, s, steps).value
    decreases steps
  {
    path := [s];
    if steps > 0 {
      var rest := AncestryOf(oracle, Resolve(oracle, s.header.parentHash).value, steps - 1);
      path := [s] + rest;
      forall i | 0 < i < |path| ensures Resolve(oracle, path[i - 1].header.parentHash) == Some(path[i]) {
        if i > 1 {
          assert Resolve(oracle, rest[i - 2].header.parentHash) == Some(rest[i - 1]);
        }
      }
    }
  }

  lemma {:induction false} AncestryLeads(oracle: Oracle, path: seq<Sealed>)
    requires path != [] && Ancestry(oracle, path)
    ensures Ancestor(oracle, path[0], |path| - 1) == Some(path[|path| - 1])
    decreases |path|
  {
    if |path| > 1 {
      assert Resolve(oracle, path[0].header.parentHash) == Some(path[1]);
      forall i | 0 < i < |path[1..]| ensures Resolve(oracle, path[1..][i - 1].header.parentHash) == Some(path[1..][i]) {
        assert Resolve(oracle, path[i].header.parentHash) == Some(path[i + 1]);
      }
      AncestryLeads(oracle, path[1..]);
    }
  }

  /** A block is found exactly if its number is not above the head's and all headers from the head to it can be had; it
      is then the last of them. */
  lemma FoundIff(oracle: Oracle, head: Sealed, number: nat, info: BlockInfo)
    ensures UncachedLookup(oracle, Some(head), number) == Found(info) <==>
            number <= head.header.number &&
            exists path: seq<Sealed> ::
              && Ancestry(oracle, path) && |path| == head.header.number - number + 1
              && path[0] == head && info == Info(path[|path| - 1])
    ensures UncachedLookup(oracle, Some(head), number).PastHead? <==> number > head.header.number
    ensures !UncachedLookup(oracle, Some(head), number).Panic?
  {
    if number <= head.header.number {
      var steps := head.header.number - number;
      if Ancestor(oracle, head, steps).Some? {
        var path := AncestryOf(oracle, head, steps);
      }
      forall path: seq<Sealed> | Ancestry(oracle, path) && |path| == steps + 1 && path[0] == head
        ensures Ancestor(oracle, head, steps) == Some(path[steps])
      {
        AncestryLeads(oracle, path);
      }
    }
  }

  class L1ChainProvider {
    const oracle: Oracle
    var headers: seq<Sealed>
    var headersMap: map<B256, nat>
    /** Every hash that was requested from the oracle, in order. */
    ghost var requests: seq<B256>

    /** The headers are the chain back from the head, and the map is exactly their inverse index. */
    ghost predicate Valid()
      reads this
    {
      && WellNumbered(oracle)
      && Chain(oracle, headers) && Index(headers, headersMap)
    }

    function Head(): Option<Sealed>
      reads this
    {
      if headers == [] then None else Some(headers[0])
    }

    /** A provider that holds the head, or one without headers. */
    constructor (oracle: Oracle, head: Option<Sealed>)
      requires WellNumbered(oracle) && (head.Some? ==> Resolve(oracle, head.value.hash) == head)
      ensures this.oracle == oracle && Valid() && Head() == head
      ensures requests == if head.None? then [] else [head.value.hash]
    {
      this.oracle := oracle;
      headers := if head.None? then [] else [head.value];
      headersMap := if head.None? then map[] else map[head.value.hash := 0];
      requests := if head.None? then [] else [head.value.hash];
    }

    /** At a zero hash there is no header; otherwise the head is fetched, and no provider stands for its error. */
    static method New(oracle: Oracle, l1Head: B256) returns (r: Option<L1ChainProvider>)
      requires WellNumbered(oracle)
      ensures r.None? <==> l1Head != ZERO && oracle(l1Head).None?
      ensures r.Some? ==> fresh(r.value) && r.value.oracle == oracle && r.value.Valid()
      ensures r.Some? ==> r.value.Head() == if l1Head == ZERO then None else Resolve(oracle, l1Head)
    {
      if l1Head == ZERO {
        var provider := new L1ChainProvider(oracle, None);
        return Some(provider);
      }
      var header := oracle(l1Head);
      if header.None? {
        return None;
      }
      var provider := new L1ChainProvider(oracle, Some(Sealed(l1Head, header.value)));
      r := Some(provider);
    }

    /** Cached or not, the answer is the oracle's; only an uncached hash is requested. */
    method HeaderByHash(hash: B256) returns (r: Option<Header>)
      requires Valid()
      modifies this`requests
      ensures Valid() && r == oracle(hash)
      ensures requests == if hash in headersMap then old(requests) else old(requests) + [hash]
    {
      if hash in headersMap {
        IndexIsInverse(headers, headersMap);
        ChainAt(oracle, headers, headersMap[hash]);
        return Some(headers[headersMap[hash]].header);
      }
      requests := requests + [hash];
      r := oracle(hash);
    }

    /** One step of the walk: requests the parent of the oldest header, and appends it if there is one. */
    method CacheParent() returns (ok: bool)
      requires Valid() && headers != [] && |headers| <= headers[0].header.number
      modifies this
      ensures Valid() && requests == old(requests) + [old(headers)[|old(headers)| - 1].header.parentHash]
      ensures var parent := Resolve(oracle, old(headers)[|old(headers)| - 1].header.parentHash);
              && ok == parent.Some?
              && headers == if ok then old(headers) + [parent.value] else old(headers)
    {
      IndexSize(headers, headersMap);
      var headerHash := headers[|headersMap| - 1].header.parentHash;
      ParentIsNew(oracle, headers, headersMap);
      var header := HeaderByHash(headerHash);
      if header.None? {
        return false;
      }
      Extends(oracle, headers, headersMap, Sealed(headerHash, header.value));
      headersMap := headersMap[headerHash := |headers|];
      headers := headers + [Sealed(headerHash, header.value)];
      ok := true;
    }

    /** The lookup answers as the uncached one does, and requests each header that it adds to the chain once. */
    method BlockInfoByNumber(blockNumber: nat) returns (r: Lookup)
      requires Valid()
      modifies this
      ensures Valid() && Head() == old(Head()) && old(headers) <= headers
      ensures r == UncachedLookup(oracle, Head(), blockNumber)
      ensures if r.FetchFailed? then AskedInVain(old(requests), requests, headers, |old(headers)|)
              else Asked(old(requests), requests, headers, |old(headers)|)
    {
      if |headers| == 0 {
        return Panic;
      }
      if blockNumber > headers[0].header.number {
        return PastHead(blockNumber, headers[0].header.number);
      }
      ghost var before := headers;
      IndexSize(headers, headersMap);
      var headerIndex := headers[0].header.number - blockNumber;
      while |headersMap| <= headerIndex
        invariant Valid() && |headers| >= 1 && headers[0] == before[0] && before <= headers
        invariant Asked(old(requests), requests, headers, |before|)
        invariant |headersMap| == |headers|
        decreases headerIndex - |headers|
      {
        ghost var current, asked := headers, requests;
        var ok := CacheParent();
        if !ok {
          AskedStep(old(requests), asked, current, |before|, current[|current| - 1].header.parentHash);
          WalkFails(oracle, current, blockNumber);
          return FetchFailed;
        }
        IndexSize(headers, headersMap);
        AskedMore(old(requests), asked, current, |before|, headers[|current|]);
      }
      WalkEnds(oracle, headers, blockNumber);
      r := Found(Info(headers[headerIndex]));
    }
  }

  /** Since the headers were n, exactly those added were requested, in order. */
  predicate Asked(before: seq<B256>, after: seq<B256>, headers: seq<Sealed>, n: nat)
    decreases |headers|
  {
    if |headers| <= n then |headers| == n && after == before
    else
      && after != [] && after[|after| - 1] == headers[|headers| - 1].hash
      && Asked(before, after[..|after| - 1], headers[..|headers| - 1], n)
  }

  /** The same, and then the parent of the last one, which could not be had. */
  predicate AskedInVain(before: seq<B256>, after: seq<B256>, headers: seq<Sealed>, n: nat) {
    && after != [] && headers != [] && after[|after| - 1] == headers[|headers| - 1].header.parentHash
    && Asked(before, after[..|after| - 1], headers, n)
  }

  lemma AskedStep(before: seq<B256>, asked: seq<B256>, headers: seq<Sealed>, n: nat, hash: B256)
    requires headers != [] && Asked(before, asked, headers, n) && hash == headers[|headers| - 1].header.parentHash
    ensures AskedInVain(before, asked + [hash], headers, n)
  {
    assert (asked + [hash])[..|asked|] == asked;
  }

  lemma AskedMore(before: seq<B256>, asked: seq<B256>, headers: seq<Sealed>, n: nat, s: Sealed)
    requires n <= |headers| && Asked(before, asked, headers, n)
    ensures Asked(before, asked + [s.hash], headers + [s], n)
  {
    assert (asked + [s.hash])[..|asked|] == asked;
    assert (headers + [s])[..|headers|] == headers;
  }

  /** Each header is what its hash resolves to, and the parent of the one before it. */
  ghost predicate Chain(oracle: Oracle, headers: seq<Sealed>)
    decreases |headers|
  {
    headers == [] ||
    (var n := |headers| - 1;
     && Resolve(oracle, headers[n].hash) == Some(headers[n])
     && (n > 0 ==> headers[n].hash == headers[n - 1].header.parentHash)
     && (n > 0 ==> headers[n].header.number + 1 == headers[n - 1].header.number)
     && Chain(oracle, headers[..n]))
  }

  /** The map holds the position of every header under its hash, and nothing else. */
  predicate Index(headers: seq<Sealed>, index: map<B256, nat>)
    decreases |headers|
  {
    if headers == [] then index == map[]
    else
      var n := |headers| - 1;
      headers[n].hash in index && index[headers[n].hash] == n && Index(headers[..n], index - {headers[n].hash})
  }

  predicate Indexed(headers: seq<Sealed>, index: map<B256, nat>, hash: B256) {
    hash in index && index[hash] < |headers| && headers[index[hash]].hash == hash
  }

  lemma {:induction false} IndexSize(headers: seq<Sealed>, index: map<B256, nat>)
    requires Index(headers, index)
    ensures |index| == |headers|
    decreases |headers|
  {
    if headers != [] {
      var n := |headers| - 1;
      IndexSize(headers[..n], index - {headers[n].hash});
      assert index == (index - {headers[n].hash})[headers[n].hash := n];
    }
  }

  /** The index is the exact inverse of the chain. */
  lemma {:induction false} IndexIsInverse(headers: seq<Sealed>, index: map<B256, nat>)
    requires Index(headers, index)
    ensures forall i :: 0 <= i < |headers| ==> headers[i].hash in index && index[headers[i].hash] == i
    ensures forall hash: B256 :: hash in index ==> Indexed(headers, index, hash)
    decreases |headers|
  {
    if headers != [] {
      var n := |headers| - 1;
      var rest := index - {headers[n].hash};
      IndexIsInverse(headers[..n], rest);
      forall i | 0 <= i < |headers| ensures headers[i].hash in index && index[headers[i].hash] == i {
        if i < n {
          assert headers[..n][i].hash in rest;
        }
      }
      forall hash: B256 | hash in index ensures Indexed(headers, index, hash) {
        if hash != headers[n].hash {
          assert Indexed(headers[..n], rest, hash);
        }
      }
    }
  }

  /** Where in the chain a header stands is how far its block is from the head. */
  lemma {:induction false} ChainAt(oracle: Oracle, headers: seq<Sealed>, i: nat)
    requires i < |headers| && Chain(oracle, headers)
    ensures Resolve(oracle, headers[i].hash) == Some(headers[i])
    ensures headers[i].header.number == headers[0].header.number - i
    ensures Ancestor(oracle, headers[0], i) == Some(headers[i])
    decreases |headers|
  {
    var n := |headers| - 1;
    if i < n {
      ChainAt(oracle, headers[..n], i);
    } else if i > 0 {
      ChainAt(oracle, headers[..n], i - 1);
      AncestorSteps(oracle, headers[0], i - 1);
    }
  }

  lemma WalkFails(oracle: Oracle, headers: seq<Sealed>, number: nat)
    requires headers != [] && Chain(oracle, headers) && number + |headers| <= headers[0].header.number
    requires Resolve(oracle, headers[|headers| - 1].header.parentHash).None?
    ensures UncachedLookup(oracle, Some(headers[0]), number) == FetchFailed
  {
    var n := |headers| - 1;
    ChainAt(oracle, headers, n);
    AncestorSteps(oracle, headers[0], n);
    AncestorFails(oracle, headers[0], n + 1, headers[0].header.number - number);
  }

  lemma WalkEnds(oracle: Oracle, headers: seq<Sealed>, number: nat)
    requires headers != [] && Chain(oracle, headers) && 0 <= headers[0].header.number - number < |headers|
    ensures UncachedLookup(oracle, Some(headers[0]), number) == Found(Info(headers[headers[0].header.number - number]))
  {
    ChainAt(oracle, headers, headers[0].header.number - number);
  }

  /** The parent of the oldest header is not cached, as its number is below all others. */
  lemma ParentIsNew(oracle: Oracle, headers: seq<Sealed>, index: map<B256, nat>)
    requires WellNumbered(oracle) && headers != [] && |headers| <= headers[0].header.number
    requires Chain(oracle, headers) && Index(headers, index)
    ensures var hash := headers[|headers| - 1].header.parentHash;
            && hash !in index
            && (oracle(hash).Some? ==> oracle(hash).value.number + 1 == headers[|headers| - 1].header.number)
  {
    var last := headers[|headers| - 1];
    ChainAt(oracle, headers, |headers| - 1);
    assert Numbered(oracle, last.hash);
    IndexIsInverse(headers, index);
    if last.header.parentHash in index {
      ChainAt(oracle, headers, index[last.header.parentHash]);
    }
  }

  lemma Extends(oracle: Oracle, headers: seq<Sealed>, index: map<B256, nat>, s: Sealed)
    requires headers != [] && Chain(oracle, headers) && Index(headers, index)
    requires s.hash == headers[|headers| - 1].header.parentHash && Resolve(oracle, s.hash) == Some(s)
    requires s.hash !in index && s.header.number + 1 == headers[|headers| - 1].header.number
    ensures Chain(oracle, headers + [s]) && Index(headers + [s], index[s.hash := |headers|])
  {
    assert (headers + [s])[..|headers|] == headers;
    assert index[s.hash := |headers|] - {s.hash} == index;
  }
}
