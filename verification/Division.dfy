/** Dividing a range into consecutive spans: what both proof schedulers keep. */
module Division {
  import opened Common

  /** The blocks lo + 1, ..., hi. */
  datatype Span = Span(lo: nat, hi: nat)

  /** Non-empty spans, each starting where the one before ends, from a to c. */
  ghost predicate Linked(t: seq<Span>, a: nat, c: nat) {
    if t == [] then a == c
    else t[0].lo == a && t[0].lo < t[0].hi && Linked(t[1..], t[0].hi, c)
  }

  /** The spans, in whatever order, can be arranged to cover everything from a to c exactly once. */
  ghost predicate Tiles(bag: multiset<Span>, a: nat, c: nat) {
    exists t :: Linked(t, a, c) && multiset(t) == bag
  }

  lemma {:induction false} LinkedConcat(s: seq<Span>, t: seq<Span>, a: nat, b: nat, c: nat)
    requires Linked(s, a, b) && Linked(t, b, c)
    ensures Linked(s + t, a, c)
  {
    if s == [] {
      assert s + t == t;
    } else {
      LinkedConcat(s[1..], t, s[0].hi, b, c);
      assert (s + t)[1..] == s[1..] + t;
    }
  }

  lemma {:induction false} LinkedSplitsAt(t: seq<Span>, k: nat, a: nat, c: nat)
    requires Linked(t, a, c) && k < |t|
    ensures t[k].lo < t[k].hi && Linked(t[..k], a, t[k].lo) && Linked(t[k + 1..], t[k].hi, c)
  {
    if k > 0 {
      LinkedSplitsAt(t[1..], k - 1, t[0].hi, c);
      assert t[..k][1..] == t[1..][..k - 1];
      assert t[1..][k..] == t[k + 1..];
    }
  }

  lemma {:induction false} LinkedBounds(t: seq<Span>, a: nat, c: nat)
    requires Linked(t, a, c)
    ensures a <= c && forall x :: x in t ==> a <= x.lo < x.hi <= c
  {
    if t != [] {
      LinkedBounds(t[1..], t[0].hi, c);
    }
  }

  lemma LinkedCut(t: seq<Span>, k: nat, mid: nat, a: nat, c: nat)
    requires Linked(t, a, c) && k < |t| && t[k].lo < mid < t[k].hi
    ensures Linked(t[..k] + [Span(t[k].lo, mid), Span(mid, t[k].hi)] + t[k + 1..], a, c)
  {
    var x := t[k];
    LinkedSplitsAt(t, k, a, c);
    var halves := [Span(x.lo, mid), Span(mid, x.hi)];
    assert Linked(halves[1..], mid, x.hi);
    LinkedConcat(t[..k], halves, a, x.lo, x.hi);
    LinkedConcat(t[..k] + halves, t[k + 1..], a, x.hi, c);
  }

  lemma BagOfCut<T>(before: seq<T>, x: T, after: seq<T>, halves: seq<T>, bag: multiset<T>)
    requires multiset(before + [x] + after) == bag + multiset{x}
    ensures multiset(before + halves + after) == bag + multiset(halves)
  {
    assert multiset(before + [x] + after) == multiset(before) + multiset{x} + multiset(after);
    assert multiset(before) + multiset(after) == bag + multiset{x} - multiset{x};
    assert bag + multiset{x} - multiset{x} == bag;
  }

  lemma TilesBy(t: seq<Span>, bag: multiset<Span>, a: nat, c: nat)
    requires Linked(t, a, c) && multiset(t) == bag
    ensures Tiles(bag, a, c)
  {
  }

  lemma FindSpan(t: seq<Span>, x: Span) returns (k: nat)
    requires x in multiset(t)
    ensures k < |t| && t[k] == x && t == t[..k] + [x] + t[k + 1..]
  {
    k :| k < |t| && t[k] == x;
  }

  /** Cutting one span in two keeps the tiling. */
  lemma TilesSplit(bag: multiset<Span>, x: Span, mid: nat, a: nat, c: nat)
    requires Tiles(bag + multiset{x}, a, c) && x.lo < mid < x.hi
    ensures Tiles(bag + multiset([Span(x.lo, mid), Span(mid, x.hi)]), a, c)
  {
    var t :| Linked(t, a, c) && multiset(t) == bag + multiset{x};
    var k := FindSpan(t, x);
    var halves := [Span(x.lo, mid), Span(mid, x.hi)];
    LinkedCut(t, k, mid, a, c);
    BagOfCut(t[..k], x, t[k + 1..], halves, bag);
    TilesBy(t[..k] + halves + t[k + 1..], bag + multiset(halves), a, c);
  }

  ghost predicate AscendingEnds(s: seq<Span>) {
    forall i, j :: 0 <= i < j < |s| ==> s[i].hi <= s[j].hi
  }

  /** Sorting a tiling by the ends of its spans puts it into its one linked order. */
  lemma {:induction false} SortedTilesLinked(s: seq<Span>, a: nat, c: nat)
    requires Tiles(multiset(s), a, c) && AscendingEnds(s)
    ensures Linked(s, a, c)
  {
    var t :| Linked(t, a, c) && multiset(t) == multiset(s);
    SortedIsUnique(s, t, a, c);
  }

  lemma {:induction false} SortedIsUnique(s: seq<Span>, t: seq<Span>, a: nat, c: nat)
    requires Linked(t, a, c) && multiset(t) == multiset(s) && AscendingEnds(s)
    ensures s == t
  {
    if t == [] {
      assert |multiset(s)| == 0;
    } else {
      assert t == [t[0]] + t[1..];
      assert |s| == |multiset(s)| == |multiset(t)| > 0;
      assert s == [s[0]] + s[1..];
      LinkedBounds(t[1..], t[0].hi, c);
      assert s[0] in multiset(t) && t[0] in multiset(s);
      assert s[0] == t[0];
      assert multiset(s[1..]) == multiset(s) - multiset{s[0]};
      assert multiset(t[1..]) == multiset(t) - multiset{t[0]};
      SortedIsUnique(s[1..], t[1..], t[0].hi, c);
    }
  }

  // ---------------------------------------------------------------------------------------------
  // Work
  // ---------------------------------------------------------------------------------------------

  /** The most results that proving n blocks can take when failing attempts are split. */
  function Weight(x: Span): nat {
    if x.lo < x.hi then 2 * (x.hi - x.lo) - 1 else 1
  }

  function Work(s: seq<Span>): nat {
    if s == [] then 0 else Weight(s[0]) + Work(s[1..])
  }

  lemma {:induction false} WorkConcat(s: seq<Span>, t: seq<Span>)
    ensures Work(s + t) == Work(s) + Work(t)
  {
    if s == [] {
      assert s + t == t;
    } else {
      WorkConcat(s[1..], t);
      assert (s + t)[1..] == s[1..] + t;
    }
  }

  // ---------------------------------------------------------------------------------------------
  // Jobs that stand for spans
  // ---------------------------------------------------------------------------------------------

  ghost predicate Covered<T>(span: T -> Span, jobs: seq<T>, a: nat, c: nat) {
    Tiles(multiset(Map(span, jobs)), a, c)
  }

  lemma CoveredSame<T>(span: T -> Span, s: seq<T>, t: seq<T>, a: nat, c: nat)
    requires Covered(span, s, a, c) && multiset(s) == multiset(t)
    ensures Covered(span, t, a, c)
  {
    MapBag(span, s, t);
  }

  lemma MapConcat<T, U>(f: T -> U, s: seq<T>, t: seq<T>)
    ensures Map(f, s + t) == Map(f, s) + Map(f, t)
  {
  }

  /** Replacing a job by two jobs for the two parts of its span keeps the cover. */
  lemma CoveredSplit<T>(span: T -> Span, others: seq<T>, job: T, lower: T, upper: T, a: nat, c: nat)
    requires Covered(span, others + [job], a, c)
    requires span(lower).lo == span(job).lo && span(lower).hi == span(upper).lo && span(upper).hi == span(job).hi
    requires span(lower).lo < span(lower).hi < span(upper).hi
    ensures Covered(span, others + [lower, upper], a, c)
  {
    MapConcat(span, others, [job]);
    MapConcat(span, others, [lower, upper]);
    assert Map(span, [job]) == [span(job)];
    assert Map(span, [lower, upper]) == [Span(span(job).lo, span(lower).hi), Span(span(lower).hi, span(job).hi)];
    TilesSplit(multiset(Map(span, others)), span(job), span(lower).hi, a, c);
  }

  /** Jobs that cover a range are in linked order once their spans are in ascending order. */
  lemma CoveredAscending<T>(span: T -> Span, jobs: seq<T>, sorted: seq<T>, a: nat, c: nat)
    requires Covered(span, jobs, a, c) && multiset(sorted) == multiset(jobs) && AscendingEnds(Map(span, sorted))
    ensures Linked(Map(span, sorted), a, c)
  {
    MapBag(span, sorted, jobs);
    SortedTilesLinked(Map(span, sorted), a, c);
  }

  /** The work of jobs is the weight of any one of them and the work of the others. */
  lemma WorkRemoved<T>(span: T -> Span, jobs: seq<T>, i: nat)
    requires i < |jobs|
    ensures Work(Map(span, jobs)) == Weight(span(jobs[i])) + Work(Map(span, RemoveAt(jobs, i)))
  {
    var before, after := jobs[..i], jobs[i + 1..];
    assert jobs == before + ([jobs[i]] + after);
    MapConcat(span, before, [jobs[i]] + after);
    MapConcat(span, [jobs[i]], after);
    MapConcat(span, before, after);
    WorkConcat(Map(span, before), Map(span, [jobs[i]] + after));
    WorkConcat(Map(span, [jobs[i]]), Map(span, after));
    WorkConcat(Map(span, before), Map(span, after));
    assert Map(span, [jobs[i]]) == [span(jobs[i])];
  }
}
