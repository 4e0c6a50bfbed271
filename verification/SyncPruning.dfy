/** Exactly what pruning forgets (crates/sync/src/agent.rs). */
module SyncPruning {
  import opened Common
  import opened Proposals
  import opened SyncState
  import opened SyncHistory

  lemma {:induction false} RetainConcat(a: seq<nat>, b: seq<nat>, from: nat)
    ensures Retain(a + b, from) == Retain(a, from) + Retain(b, from)
  {
    if a == [] {
      assert a + b == b;
    } else {
      var kept := if a[0] >= from then [a[0]] else [];
      assert (a + b)[0] == a[0] && (a + b)[1..] == a[1..] + b;
      RetainConcat(a[1..], b, from);
      Reassociate(kept, Retain(a[1..], from), Retain(b, from));
    }
  }

  /** Of a list of indices exactly those are retained that are not below a bound, in order and as often. */
  lemma RetainedIff(before: seq<nat>, index: nat, after: seq<nat>, from: nat)
    ensures Retain(before + [index] + after, from) ==
            Retain(before, from) + (if index >= from then [index] else []) + Retain(after, from)
  {
    RetainConcat(before + [index], after, from);
    RetainConcat(before, [index], from);
  }

  /** The block that is so many spans before another. */
  function SpansBefore(earliest: nat, span: nat, i: nat): nat {
    SaturatingSub(earliest, i * span)
  }

  /** All outputs at spans before the earliest one are stored, from the first up to this one. */
  ghost predicate FreedAt(outputs: map<nat, B256>, earliest: nat, span: nat, first: nat, i: nat, n: nat) {
    && first <= i <= earliest && n == SpansBefore(earliest, span, i)
    && forall j: nat :: first <= j <= i ==> SpansBefore(earliest, span, j) in outputs
  }

  ghost predicate Freed(outputs: map<nat, B256>, earliest: nat, span: nat, first: nat, n: nat) {
    exists i: nat :: FreedAt(outputs, earliest, span, first, i, n)
  }

  lemma SpansFall(earliest: nat, span: nat, i: nat, j: nat)
    requires span > 0 && i < j && SpansBefore(earliest, span, i) == SpansBefore(earliest, span, j)
    ensures forall k: nat :: k >= j ==> SpansBefore(earliest, span, k) == SpansBefore(earliest, span, i)
  {
    Scaled(i + 1, j, span);
    forall k: nat | k >= j ensures SpansBefore(earliest, span, k) == SpansBefore(earliest, span, i) {
      Scaled(j, k, span);
    }
  }

  /** Outputs are freed going back span by span, until one is not stored. */
  lemma {:induction false} FreedIff(outputs: map<nat, B256>, earliest: nat, span: nat, first: nat, n: nat)
    requires span > 0
    ensures n in FreeOutputs(outputs, earliest, span, first) <==> n in outputs && !Freed(outputs, earliest, span, first, n)
    decreases earliest + 1 - first
  {
    var x := SpansBefore(earliest, span, first);
    if first <= earliest && x in outputs {
      FreedIff(outputs - {x}, earliest, span, first + 1, n);
      if n == x {
        assert FreedAt(outputs, earliest, span, first, first, n);
      } else {
        FreedOnward(outputs, earliest, span, first, n);
      }
    } else {
      assert forall i: nat :: !FreedAt(outputs, earliest, span, first, i, n);
    }
  }

  lemma FreedOnward(outputs: map<nat, B256>, earliest: nat, span: nat, first: nat, n: nat)
    requires span > 0 && first <= earliest && SpansBefore(earliest, span, first) in outputs
    requires n != SpansBefore(earliest, span, first)
    ensures Freed(outputs, earliest, span, first, n) <==>
            Freed(outputs - {SpansBefore(earliest, span, first)}, earliest, span, first + 1, n)
  {
    var x := SpansBefore(earliest, span, first);
    var rest, second := outputs - {x}, first + 1;
    if i: nat :| FreedAt(rest, earliest, span, second, i, n) {
      assert FreedAt(outputs, earliest, span, first, i, n);
    }
    if i: nat :| FreedAt(outputs, earliest, span, first, i, n) {
      forall j: nat | second <= j <= i ensures SpansBefore(earliest, span, j) in rest {
        if SpansBefore(earliest, span, j) == x {
          SpansFall(earliest, span, first, j);
        }
      }
      assert FreedAt(rest, earliest, span, second, i, n);
    }
  }

  /** What pruning leaves: the proposals and delayed games from the last resolved one on, and all outputs but those that
      lie at spans before its first one, as far back as they are stored. */
  lemma PruneLeaves(s: State, d: Deployment, games: nat -> Game, chain: seq<nat>, i: nat, n: nat)
    requires Inv(s, d, games, chain) && s.proposals != map[] && d.span > 0
    ensures s.cursor.lastResolved in s.proposals
    ensures var t, last := Prune(s, d), s.cursor.lastResolved;
            && (i in t.proposals <==> i in s.proposals && i >= last)
            && (i in t.proposals ==> t.proposals[i] == s.proposals[i])
            && t.cursor == s.cursor.(delayed := Retain(s.cursor.delayed, last))
            && (n in t.outputs <==>
                  n in s.outputs && !Freed(s.outputs, EarliestOutput(d, s.proposals[last]), d.span, 1, n))
  {
    ChainAt(s.proposals, d, chain, PositionOf(chain, s.cursor.lastResolved));
    FreedIff(s.outputs, EarliestOutput(d, s.proposals[s.cursor.lastResolved]), d.span, 1, n);
  }
}
