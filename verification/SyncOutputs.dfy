/** The known outputs of L2 blocks, and fetching those of a range (crates/sync/src/agent.rs). */
module SyncOutputs {
  import opened Common

  ghost predicate TrueOutputs(outputs: map<nat, B256>, output: nat -> B256) {
    forall n: nat :: n in outputs ==> outputs[n] == output(n)
  }

  /** The outputs in memory are persisted, and all are true. */
  ghost predicate Persisted(outputs: map<nat, B256>, db: map<nat, B256>, output: nat -> B256) {
    TrueOutputs(outputs, output) && TrueOutputs(db, output) && outputs.Keys <= db.Keys
  }

  /** Every step-th block of a range. */
  function Grid(start: nat, end: nat, step: nat): seq<nat>
    requires step > 0
    decreases end + 1 - start
  {
    if start > end then [] else [start] + Grid(start + step, end, step)
  }

  /** The outputs of the given blocks are known. */
  function Learned(outputs: map<nat, B256>, output: nat -> B256, blocks: seq<nat>): map<nat, B256>
    decreases |blocks|
  {
    if blocks == [] then outputs
    else
      var n := |blocks| - 1;
      Learned(outputs, output, blocks[..n])[blocks[n] := output(blocks[n])]
  }

  /** The last known block is the highest one met. */
  function Latest(last: nat, blocks: seq<nat>): nat
    decreases |blocks|
  {
    if blocks == [] then last
    else
      var n := |blocks| - 1;
      var before := Latest(last, blocks[..n]);
      if before < blocks[n] then blocks[n] else before
  }

  /** The blocks among those given whose output is in the map. */
  function Present(blocks: seq<nat>, outputs: map<nat, B256>): seq<nat>
    decreases |blocks|
  {
    if blocks == [] then []
    else
      var n := |blocks| - 1;
      Present(blocks[..n], outputs) + if blocks[n] in outputs then [blocks[n]] else []
  }

  /** The blocks among those given whose output is not in the map. */
  function Absent(blocks: seq<nat>, outputs: map<nat, B256>): seq<nat>
    decreases |blocks|
  {
    if blocks == [] then []
    else
      var n := |blocks| - 1;
      Absent(blocks[..n], outputs) + if blocks[n] in outputs then [] else [blocks[n]]
  }

  lemma {:induction false} PresentIs(blocks: seq<nat>, outputs: map<nat, B256>)
    ensures forall n :: n in Present(blocks, outputs) <==> n in blocks && n in outputs
    ensures forall n :: n in Absent(blocks, outputs) <==> n in blocks && n !in outputs
    decreases |blocks|
  {
    if blocks != [] {
      var n := |blocks| - 1;
      PresentIs(blocks[..n], outputs);
      assert blocks == blocks[..n] + [blocks[n]];
    }
  }

  lemma {:induction false} LearnedIs(outputs: map<nat, B256>, output: nat -> B256, blocks: seq<nat>)
    requires TrueOutputs(outputs, output)
    ensures TrueOutputs(Learned(outputs, output, blocks), output)
    ensures forall n: nat :: n in Learned(outputs, output, blocks) <==> n in outputs || n in blocks
    decreases |blocks|
  {
    if blocks != [] {
      var n := |blocks| - 1;
      LearnedIs(outputs, output, blocks[..n]);
      assert blocks == blocks[..n] + [blocks[n]];
    }
  }

  lemma {:induction false} LatestIs(last: nat, blocks: seq<nat>)
    ensures last <= Latest(last, blocks) && forall n :: n in blocks ==> n <= Latest(last, blocks)
    ensures Latest(last, blocks) == last || Latest(last, blocks) in blocks
    decreases |blocks|
  {
    if blocks != [] {
      var n := |blocks| - 1;
      LatestIs(last, blocks[..n]);
      assert blocks == blocks[..n] + [blocks[n]];
    }
  }

  /** One more block of a batch is looked at: its output is learned if it is persisted. */
  lemma PresentStep(
      outputs: map<nat, B256>, output: nat -> B256, last: nat, blocks: seq<nat>, db: map<nat, B256>, i: nat)
    requires i < |blocks|
    ensures var before, after, n := Present(blocks[..i], db), Present(blocks[..i + 1], db), blocks[i];
            if n in db then
              && Learned(outputs, output, after) == Learned(outputs, output, before)[n := output(n)]
              && Latest(last, after) == if Latest(last, before) < n then n else Latest(last, before)
            else after == before
  {
    var before, n := Present(blocks[..i], db), blocks[i];
    assert blocks[..i + 1][..i] == blocks[..i];
    if n in db {
      LearnedStep(outputs, output, last, before + [n], |before|);
      assert (before + [n])[..|before|] == before && (before + [n])[..|before| + 1] == before + [n];
    } else {
      assert before + [] == before;
    }
  }

  lemma LearnedStep(outputs: map<nat, B256>, output: nat -> B256, last: nat, blocks: seq<nat>, i: nat)
    requires i < |blocks|
    ensures Learned(outputs, output, blocks[..i + 1]) == Learned(outputs, output, blocks[..i])[blocks[i] := output(blocks[i])]
    ensures var before := Latest(last, blocks[..i]);
            Latest(last, blocks[..i + 1]) == if before < blocks[i] then blocks[i] else before
  {
    assert blocks[..i + 1][..i] == blocks[..i];
  }

  lemma {:induction false} LearnedConcat(outputs: map<nat, B256>, output: nat -> B256, a: seq<nat>, b: seq<nat>)
    ensures Learned(outputs, output, a + b) == Learned(Learned(outputs, output, a), output, b)
    decreases |b|
  {
    if b == [] {
      assert a + b == a;
    } else {
      assert (a + b)[..|a + b| - 1] == a + b[..|b| - 1];
      LearnedConcat(outputs, output, a, b[..|b| - 1]);
    }
  }

  lemma {:induction false} LatestConcat(last: nat, a: seq<nat>, b: seq<nat>)
    ensures Latest(last, a + b) == Latest(Latest(last, a), b)
    decreases |b|
  {
    if b == [] {
      assert a + b == a;
    } else {
      assert (a + b)[..|a + b| - 1] == a + b[..|b| - 1];
      LatestConcat(last, a, b[..|b| - 1]);
    }
  }

  lemma LatestSame(last: nat, a: seq<nat>, b: seq<nat>, all: seq<nat>)
    requires forall n :: n in all <==> n in a || n in b
    ensures Latest(Latest(last, a), b) == Latest(last, all)
  {
    LatestIs(last, a);
    LatestIs(Latest(last, a), b);
    LatestIs(last, all);
  }

  lemma LearnedSame(outputs: map<nat, B256>, output: nat -> B256, a: seq<nat>, b: seq<nat>, all: seq<nat>)
    requires TrueOutputs(outputs, output) && forall n :: n in all <==> n in a || n in b
    ensures Learned(Learned(outputs, output, a), output, b) == Learned(outputs, output, all)
  {
    LearnedIs(outputs, output, a);
    LearnedIs(Learned(outputs, output, a), output, b);
    LearnedIs(outputs, output, all);
  }

  /** What is not loaded is exactly what is not persisted. */
  lemma BatchDivides(outputs: map<nat, B256>, db: map<nat, B256>, output: nat -> B256, blocks: seq<nat>)
    requires TrueOutputs(outputs, output) && outputs.Keys <= db.Keys
    ensures var present := Present(blocks, db);
            var missing := Absent(blocks, Learned(outputs, output, present));
            forall n :: n in blocks <==> n in present || n in missing
  {
    var present := Present(blocks, db);
    PresentIs(blocks, db);
    LearnedIs(outputs, output, present);
    PresentIs(blocks, Learned(outputs, output, present));
  }

  /** Loading the persisted outputs of a batch and then fetching the missing ones is learning the whole batch. */
  lemma BatchLearned(outputs: map<nat, B256>, db: map<nat, B256>, output: nat -> B256, blocks: seq<nat>, last: nat)
    requires TrueOutputs(outputs, output) && outputs.Keys <= db.Keys
    ensures var loaded := Learned(outputs, output, Present(blocks, db));
            var missing := Absent(blocks, loaded);
            && Learned(loaded, output, missing) == Learned(outputs, output, blocks)
            && Latest(Latest(last, Present(blocks, db)), missing) == Latest(last, blocks)
  {
    var present := Present(blocks, db);
    var missing := Absent(blocks, Learned(outputs, output, present));
    BatchDivides(outputs, db, output, blocks);
    LatestSame(last, present, missing, blocks);
    LearnedSame(outputs, output, present, missing, blocks);
  }

  /** A range is its first k + 1 blocks and what follows them. */
  lemma {:induction false} GridSplit(start: nat, k: nat, end: nat, step: nat)
    requires step > 0 && start + k * step <= end
    ensures Grid(start, end, step) == Grid(start, start + k * step, step) + Grid(start + k * step + step, end, step)
    decreases k
  {
    var next := start + step;
    if k == 0 {
      assert Grid(next, start, step) == [];
    } else {
      assert next + (k - 1) * step == start + k * step;
      Scaled(0, k - 1, step);
      GridSplit(next, k - 1, end, step);
    }
  }

  /** The batches of the loop, whether or not the last one ends with a step. */
  lemma BatchEnds(start: nat, end: nat, step: nat)
    requires step > 0 && start <= end
    ensures var batchEnd := Min(end, start + 128 * step);
            Grid(start, end, step) == Grid(start, batchEnd, step) + Grid(batchEnd + step, end, step)
  {
    if start + 128 * step <= end {
      GridSplit(start, 128, end, step);
    } else {
      assert Grid(end + step, end, step) == [];
    }
  }

  /** The blocks that are done are known, and the others are left. */
  ghost predicate DoneSoFar(start: map<nat, B256>, output: nat -> B256, last: nat, all: seq<nat>, done: seq<nat>,
                            left: seq<nat>, outputs: map<nat, B256>, latest: nat)
  {
    all == done + left && outputs == Learned(start, output, done) && latest == Latest(last, done)
  }

  /** The next batch. */
  lemma BatchDone(start: map<nat, B256>, output: nat -> B256, last: nat, all: seq<nat>, done: seq<nat>,
                  next: nat, end: nat, step: nat, outputs: map<nat, B256>, latest: nat)
    requires step > 0 && next <= end
    requires DoneSoFar(start, output, last, all, done, Grid(next, end, step), outputs, latest)
    ensures var batchEnd := Min(end, next + 128 * step);
            var blocks := Grid(next, batchEnd, step);
            DoneSoFar(start, output, last, all, done + blocks, Grid(batchEnd + step, end, step),
                      Learned(outputs, output, blocks), Latest(latest, blocks))
  {
    var batchEnd := Min(end, next + 128 * step);
    var blocks := Grid(next, batchEnd, step);
    BatchEnds(next, end, step);
    Reassociate(done, blocks, Grid(batchEnd + step, end, step));
    LearnedConcat(start, output, done, blocks);
    LatestConcat(last, done, blocks);
  }

  lemma AllDone(start: map<nat, B256>, output: nat -> B256, last: nat, all: seq<nat>, done: seq<nat>,
                next: nat, end: nat, step: nat, outputs: map<nat, B256>, latest: nat)
    requires step > 0 && next > end
    requires DoneSoFar(start, output, last, all, done, Grid(next, end, step), outputs, latest)
    ensures outputs == Learned(start, output, all) && latest == Latest(last, all)
  {
    assert done + [] == done;
  }

  lemma NothingDone(start: map<nat, B256>, output: nat -> B256, last: nat, all: seq<nat>)
    ensures DoneSoFar(start, output, last, all, [], all, start, last)
  {
    assert [] + all == all;
  }

  lemma {:induction false} GridHas(start: nat, k: nat, end: nat, step: nat)
    requires step > 0 && start + k * step <= end
    ensures start + k * step in Grid(start, end, step)
    decreases k
  {
    if k > 0 {
      assert start + step + (k - 1) * step == start + k * step;
      GridHas(start + step, k - 1, end, step);
    }
  }

  /** After fetching a range the output of every step-th block of it is known, and true. */
  lemma FetchCovers(outputs: map<nat, B256>, output: nat -> B256, start: nat, end: nat, step: nat, k: nat)
    requires step > 0 && start + k * step <= end && TrueOutputs(outputs, output)
    ensures var known := Learned(outputs, output, Grid(start, end, step));
            start + k * step in known && known[start + k * step] == output(start + k * step)
  {
    GridHas(start, k, end, step);
    LearnedIs(outputs, output, Grid(start, end, step));
  }
}
