/** Block execution behind a cache of proven executions (crates/kona/src/executor.rs, crates/kona/src/client/core.rs). */
module CachedExecution {
  import opened Common
  import opened Executions

  /** The wrapped executor: a deterministic machine over states S. No artifacts or root stands for an error. */
  datatype Inner<!S> = Inner(
    execute: (S, Attributes) -> (Option<Artifacts>, S),
    update: (S, Header) -> S,
    root: S -> Option<B256>)

  datatype Call = Execute(attributes: Attributes) | Update(header: Header) | Root

  datatype Reply = Executed(result: Option<Artifacts>) | Updated | RootIs(root: Option<B256>)

  /** The whole state of a cached executor. The cache is used from its end. */
  datatype Snapshot<S> = Snapshot(state: S, cache: seq<Execution>, collected: Option<seq<Execution>>)

  predicate Hit(cache: seq<Execution>, agreed: B256, attributes: Attributes) {
    cache != [] && cache[|cache| - 1].agreedOutput == agreed && cache[|cache| - 1].attributes == attributes
  }

  function StepExecute<S>(inner: Inner<S>, x: Snapshot<S>, attributes: Attributes): (Snapshot<S>, Option<Artifacts>) {
    var root := inner.root(x.state);
    if root.None? then (x, None)
    else if Hit(x.cache, root.value, attributes) then
      var artifacts := x.cache[|x.cache| - 1].artifacts;
      (x.(cache := x.cache[..|x.cache| - 1], state := inner.update(x.state, artifacts.header)), Some(artifacts))
    else
      var (result, state) := inner.execute(x.state, attributes);
      if result.Some? && x.collected.Some? then
        var e := Execution(root.value, attributes, result.value, ZERO);
        (x.(state := state, collected := Some(x.collected.value + [e])), result)
      else (x.(state := state), result)
  }

  class CachedExecutor<S> {
    const inner: Inner<S>
    var state: S
    var cache: seq<Execution>
    var collected: Option<seq<Execution>>

    constructor (inner: Inner<S>, state: S, cache: seq<Execution>, collected: Option<seq<Execution>>)
      ensures this.inner == inner && Snap() == Snapshot(state, cache, collected)
    {
      this.inner, this.state, this.cache, this.collected := inner, state, cache, collected;
    }

    function Snap(): Snapshot<S>
      reads this
    {
      Snapshot(state, cache, collected)
    }

    method UpdateSafeHead(header: Header)
      modifies this`state
      ensures state == inner.update(old(state), header)
    {
      state := inner.update(state, header);
    }

    method ComputeOutputRoot() returns (root: Option<B256>)
      ensures root == inner.root(state)
    {
      root := inner.root(state);
    }

    method ExecutePayload(attributes: Attributes) returns (result: Option<Artifacts>)
      modifies this
      ensures (Snap(), result) == StepExecute(inner, old(Snap()), attributes)
    {
      var agreedOutput := ComputeOutputRoot();
      if agreedOutput.None? {
        return None;
      }
      if |cache| > 0 && cache[|cache| - 1].agreedOutput == agreedOutput.value
         && cache[|cache| - 1].attributes == attributes {
        var artifacts := cache[|cache| - 1].artifacts;
        cache := cache[..|cache| - 1];
        UpdateSafeHead(artifacts.header);
        return Some(artifacts);
      }
      var executed := inner.execute(state, attributes);
      state := executed.1;
      if executed.0.Some? && collected.Some? {
        collected := Some(collected.value + [Execution(agreedOutput.value, attributes, executed.0.value, ZERO)]);
      }
      result := executed.0;
    }
  }

  function Step<S>(inner: Inner<S>, x: Snapshot<S>, call: Call): (Snapshot<S>, Reply) {
    match call
    case Execute(attributes) => var r := StepExecute(inner, x, attributes); (r.0, Executed(r.1))
    case Update(header) => (x.(state := inner.update(x.state, header)), Updated)
    case Root => (x, RootIs(inner.root(x.state)))
  }

  function Run<S>(inner: Inner<S>, x: Snapshot<S>, calls: seq<Call>): (Snapshot<S>, seq<Reply>)
    decreases |calls|
  {
    if calls == [] then (x, [])
    else
      var first := Step(inner, x, calls[0]);
      var rest := Run(inner, first.0, calls[1..]);
      (rest.0, [first.1] + rest.1)
  }

  // ---------------------------------------------------------------------------------------------
  // Transparency
  // ---------------------------------------------------------------------------------------------

  /** A successful execution leaves the executor at the block it built: moving the head there has no other effect. */
  ghost predicate Coherent<S(!new)>(inner: Inner<S>) {
    forall s: S, a ::
      var r := inner.execute(s, a);
      r.0.Some? ==> r.1 == inner.update(s, r.0.value.header) && inner.update(r.1, r.0.value.header) == r.1
  }

  /** An output root commits to all the state that execution depends on. */
  ghost predicate Committed<S(!new)>(inner: Inner<S>) {
    forall s: S, t: S, a :: SameRoot(inner, s, t) ==> SameOutcome(inner, s, t, a)
  }

  ghost predicate SameRoot<S(!new)>(inner: Inner<S>, s: S, t: S) {
    inner.root(s).Some? && inner.root(s) == inner.root(t)
  }

  ghost predicate SameOutcome<S(!new)>(inner: Inner<S>, s: S, t: S, a: Attributes) {
    && inner.execute(s, a).0 == inner.execute(t, a).0
    && (inner.execute(s, a).0.Some? ==> inner.root(inner.execute(s, a).1) == inner.root(inner.execute(t, a).1))
  }

  /** Wherever the execution applies, the executor would produce its artifacts. */
  ghost predicate TrueExecution<S(!new)>(inner: Inner<S>, e: Execution) {
    forall s: S :: inner.root(s) == Some(e.agreedOutput) ==> inner.execute(s, e.attributes).0 == Some(e.artifacts)
  }

  ghost predicate AllTrue<S(!new)>(inner: Inner<S>, cache: seq<Execution>) {
    forall i :: 0 <= i < |cache| ==> TrueExecution(inner, cache[i])
  }

  lemma StepTransparent<S(!new)>(inner: Inner<S>, x: Snapshot<S>, y: Snapshot<S>, call: Call)
    requires Coherent(inner) && AllTrue(inner, x.cache) && x.state == y.state && y.cache == []
    ensures var (a, b) := (Step(inner, x, call), Step(inner, y, call));
            && a.1 == b.1 && a.0.state == b.0.state
            && AllTrue(inner, a.0.cache) && b.0.cache == []
  {
    if call.Execute? && inner.root(x.state).Some? && Hit(x.cache, inner.root(x.state).value, call.attributes) {
      assert TrueExecution(inner, x.cache[|x.cache| - 1]);
    }
  }

  /** With any cache of true executions, every sequence of calls gets the same replies and ends in the same state. */
  lemma {:induction false} CacheIsTransparent<S(!new)>(
      inner: Inner<S>, x: Snapshot<S>, y: Snapshot<S>, calls: seq<Call>)
    requires Coherent(inner) && AllTrue(inner, x.cache) && x.state == y.state && y.cache == []
    ensures Run(inner, x, calls).1 == Run(inner, y, calls).1
    ensures Run(inner, x, calls).0.state == Run(inner, y, calls).0.state
    decreases |calls|
  {
    if calls != [] {
      StepTransparent(inner, x, y, calls[0]);
      CacheIsTransparent(inner, Step(inner, x, calls[0]).0, Step(inner, y, calls[0]).0, calls[1..]);
    }
  }

  // ---------------------------------------------------------------------------------------------
  // Recording and replaying
  // ---------------------------------------------------------------------------------------------

  function Bare<S>(s: S): Snapshot<S> {
    Snapshot(s, [], None)
  }

  /** What a run without a cache records. */
  function Recording<S>(inner: Inner<S>, s: S, calls: seq<Call>): seq<Execution>
    decreases |calls|
  {
    if calls == [] then []
    else
      var step := Step(inner, Bare(s), calls[0]);
      var rest := Recording(inner, step.0.state, calls[1..]);
      if calls[0].Execute? && step.1.result.Some? then
        [Execution(inner.root(s).value, calls[0].attributes, step.1.result.value, ZERO)] + rest
      else rest
  }

  /** The collection target receives exactly the recording. */
  lemma {:induction false} CollectsRecording<S>(inner: Inner<S>, s: S, before: seq<Execution>, calls: seq<Call>)
    ensures var r := Run(inner, Snapshot(s, [], Some(before)), calls);
            && r.0.collected == Some(before + Recording(inner, s, calls)) && r.0.cache == []
            && r.0.state == Run(inner, Bare(s), calls).0.state && r.1 == Run(inner, Bare(s), calls).1
    decreases |calls|
  {
    if calls == [] {
      assert before + [] == before;
    } else {
      var x := Snapshot(s, [], Some(before));
      var first := Step(inner, x, calls[0]);
      CollectsRecording(inner, first.0.state, first.0.collected.value, calls[1..]);
      if calls[0].Execute? && first.1.result.Some? {
        var e := Execution(inner.root(s).value, calls[0].attributes, first.1.result.value, ZERO);
        assert before + [e] + Recording(inner, first.0.state, calls[1..]) == before + Recording(inner, s, calls);
      }
    }
  }

  /** The two traces differ at most in the claimed outputs. */
  predicate SameButClaims(s: seq<Execution>, t: seq<Execution>) {
    |s| == |t| && forall i :: 0 <= i < |s| ==> s[i].(claimedOutput := ZERO) == t[i].(claimedOutput := ZERO)
  }

  lemma {:induction false} RecordingIsTrue<S(!new)>(inner: Inner<S>, s: S, calls: seq<Call>)
    requires Committed(inner)
    ensures AllTrue(inner, Recording(inner, s, calls))
    decreases |calls|
  {
    if calls != [] {
      var step := Step(inner, Bare(s), calls[0]);
      RecordingIsTrue(inner, step.0.state, calls[1..]);
      if calls[0].Execute? && step.1.result.Some? {
        RecordedIsTrue(inner, s, calls[0].attributes);
      }
    }
  }

  lemma RecordedIsTrue<S(!new)>(inner: Inner<S>, s: S, a: Attributes)
    requires Committed(inner) && inner.root(s).Some? && inner.execute(s, a).0.Some?
    ensures TrueExecution(inner, Execution(inner.root(s).value, a, inner.execute(s, a).0.value, ZERO))
  {
    forall t | inner.root(t) == inner.root(s) ensures inner.execute(t, a).0 == inner.execute(s, a).0 {
      assert SameRoot(inner, s, t);
      assert SameOutcome(inner, s, t, a);
    }
  }

  /** A call that fails where a recording follows does not match the first recorded execution. */
  lemma FailureMisses<S(!new)>(inner: Inner<S>, s: S, a: Attributes, trace: seq<Execution>, recording: seq<Execution>)
    requires inner.root(s).Some? && inner.execute(s, a).0.None?
    requires AllTrue(inner, recording) && SameButClaims(trace, recording)
    ensures !Hit(Reverse(trace), inner.root(s).value, a)
  {
    if trace != [] {
      assert Reverse(trace)[|trace| - 1] == trace[0];
      assert trace[0].(claimedOutput := ZERO) == recording[0].(claimedOutput := ZERO);
      assert TrueExecution(inner, recording[0]);
    }
  }

  /**
   * Replaying the calls of a recorded run on its trace: the same replies and final state, the cache is emptied, and
   * nothing more is collected, so every call that succeeded is served from the cache.
   */
  lemma {:induction false} ReplayHitsAlways<S(!new)>(
      inner: Inner<S>, s: S, calls: seq<Call>, trace: seq<Execution>, target: Option<seq<Execution>>)
    requires Coherent(inner) && Committed(inner) && SameButClaims(trace, Recording(inner, s, calls))
    ensures var bare, r := Run(inner, Bare(s), calls), Run(inner, Snapshot(s, Reverse(trace), target), calls);
            r.1 == bare.1 && r.0 == Snapshot(bare.0.state, [], target)
    decreases |calls|
  {
    if calls != [] {
      var first := Step(inner, Bare(s), calls[0]);
      var recording := Recording(inner, s, calls);
      if calls[0].Execute? && first.1.result.Some? {
        assert trace[0].(claimedOutput := ZERO) == recording[0].(claimedOutput := ZERO);
        assert Reverse(trace) == Reverse(trace[1..]) + [trace[0]];
        assert Reverse(trace)[..|trace| - 1] == Reverse(trace[1..]);
        assert SameButClaims(trace[1..], recording[1..]);
        ReplayHitsAlways(inner, first.0.state, calls[1..], trace[1..], target);
      } else {
        if calls[0].Execute? && inner.root(s).Some? {
          RecordingIsTrue(inner, s, calls);
          FailureMisses(inner, s, calls[0].attributes, trace, recording);
        }
        ReplayHitsAlways(inner, first.0.state, calls[1..], trace, target);
      }
    }
  }

  // ---------------------------------------------------------------------------------------------
  // Recovering the trace
  // ---------------------------------------------------------------------------------------------

  /** Each claimed output becomes the next agreed one, the last becomes the claim. */
  function Recovered(executions: seq<Execution>, claim: B256): (r: seq<Execution>)
    ensures |r| == |executions| && SameButClaims(r, executions)
  {
    seq(|executions|, i requires 0 <= i < |executions| =>
      executions[i].(claimedOutput := if i + 1 < |executions| then executions[i + 1].agreedOutput else claim))
  }

  function ClaimAt(target: seq<Execution>, n: nat, i: nat): Execution
    requires i < |target|
  {
    if i < n && i + 1 < |target| then target[i].(claimedOutput := target[i + 1].agreedOutput) else target[i]
  }

  /** The claims are set up to position n. */
  predicate ClaimsSet(target: seq<Execution>, r: seq<Execution>, n: nat) {
    |r| == |target| && forall i :: 0 <= i < |r| ==> r[i] == ClaimAt(target, n, i)
  }

  lemma ClaimSet(target: seq<Execution>, r: seq<Execution>, n: nat)
    requires ClaimsSet(target, r, n) && n + 1 < |r|
    ensures ClaimsSet(target, r[n := r[n].(claimedOutput := r[n + 1].agreedOutput)], n + 1)
  {
  }

  lemma LastClaimSet(target: seq<Execution>, r: seq<Execution>, claim: B256)
    requires r != [] && ClaimsSet(target, r, |r| - 1)
    ensures r[|r| - 1 := r[|r| - 1].(claimedOutput := claim)] == Recovered(target, claim)
  {
  }

  method RecoverCollectedExecutions(target: seq<Execution>, claim: B256) returns (executions: seq<Execution>)
    ensures executions == Recovered(target, claim)
  {
    executions := target;
    if |executions| == 0 {
      return;
    }
    for i := 1 to |executions|
      invariant ClaimsSet(target, executions, i - 1)
    {
      ClaimSet(target, executions, i - 1);
      executions := executions[i - 1 := executions[i - 1].(claimedOutput := executions[i].agreedOutput)];
    }
    var last := |executions| - 1;
    LastClaimSet(target, executions, claim);
    executions := executions[last := executions[last].(claimedOutput := claim)];
  }

  /** A run recorded from scratch, recovered and loaded as the cache, is replayed from the cache alone. */
  lemma RecoveredReplays<S(!new)>(inner: Inner<S>, s: S, calls: seq<Call>, claim: B256)
    requires Coherent(inner) && Committed(inner)
    ensures Run(inner, Snapshot(s, [], Some([])), calls).0.collected.Some?
    ensures var recorded := Run(inner, Snapshot(s, [], Some([])), calls);
            var cache := Reverse(Recovered(recorded.0.collected.value, claim));
            var replayed := Run(inner, Snapshot(s, cache, Some([])), calls);
            replayed.1 == recorded.1 && replayed.0 == Snapshot(recorded.0.state, [], Some([]))
  {
    CollectsRecording(inner, s, [], calls);
    var recording := Recording(inner, s, calls);
    assert [] + recording == recording;
    ReplayHitsAlways(inner, s, calls, Recovered(recording, claim), Some([]));
  }

  // ---------------------------------------------------------------------------------------------
  // The execution-only check
  // ---------------------------------------------------------------------------------------------

  /** The check ends with the last root, with an execution error, or by a failed assertion. */
  datatype Verification = Verified(root: B256) | Failed | Panicked

  function VerifyFrom<S>(inner: Inner<S>, s: S, latest: B256, trace: seq<Execution>): Verification
    decreases |trace|
  {
    if trace == [] then Verified(latest)
    else
      var e := trace[0];
      if e.agreedOutput != latest then Panicked
      else
        var executed := inner.execute(s, e.attributes);
        if executed.0.None? then Failed
        else if executed.0.value != e.artifacts then Panicked
        else
          var next := inner.update(executed.1, e.artifacts.header);
          var root := inner.root(next);
          if root.None? then Failed
          else if e.claimedOutput != root.value then Panicked
          else VerifyFrom(inner, next, root.value, trace[1..])
  }

  function Verify<S>(inner: Inner<S>, s: S, agreed: B256, safeNumber: U64, claimedNumber: U64, trace: seq<Execution>):
    Verification
    requires safeNumber <= claimedNumber
  {
    if claimedNumber - safeNumber != |trace| then Panicked
    else if trace == [] then Panicked
    else if Number(trace[|trace| - 1]) != claimedNumber then Panicked
    else VerifyFrom(inner, s, agreed, trace)
  }

  /** Execution without derivation: re-executes the trace from the agreed root. */
  method VerifyTrace<S>(
      inner: Inner<S>, safeState: S, agreed: B256, safeNumber: U64, claimedNumber: U64, trace: seq<Execution>)
    returns (r: Verification)
    requires safeNumber <= claimedNumber
    ensures r == Verify(inner, safeState, agreed, safeNumber, claimedNumber, trace)
  {
    if claimedNumber - safeNumber != |trace| || |trace| == 0 {
      return Panicked;
    }
    if Number(trace[|trace| - 1]) != claimedNumber {
      return Panicked;
    }
    var state, latest := safeState, agreed;
    ghost var whole := VerifyFrom(inner, safeState, agreed, trace);
    for i := 0 to |trace|
      invariant VerifyFrom(inner, state, latest, trace[i..]) == whole
    {
      var e := trace[i];
      assert trace[i..][0] == e && trace[i..][1..] == trace[i + 1..];
      if e.agreedOutput != latest {
        return Panicked;
      }
      var executed := inner.execute(state, e.attributes);
      if executed.0.None? {
        return Failed;
      }
      if e.artifacts.header != executed.0.value.header || e.artifacts.result != executed.0.value.result {
        return Panicked;
      }
      state := inner.update(executed.1, e.artifacts.header);
      var root := inner.root(state);
      if root.None? {
        return Failed;
      }
      latest := root.value;
      if e.claimedOutput != latest {
        return Panicked;
      }
    }
    r := Verified(latest);
  }

  /** The states between the blocks of a trace: each block starts at the root that the one before it claims, and its
      execution has the recorded outcome and the claimed root. */
  ghost predicate Replays<S>(inner: Inner<S>, states: seq<S>, agreed: B256, trace: seq<Execution>) {
    && |states| == |trace| + 1
    && forall i :: 0 <= i < |trace| ==> ReplaysAt(inner, states[i], if i == 0 then agreed else trace[i - 1].claimedOutput,
                                                  trace[i], states[i + 1])
  }

  ghost predicate ReplaysAt<S>(inner: Inner<S>, s: S, agreed: B256, e: Execution, t: S) {
    && e.agreedOutput == agreed
    && inner.execute(s, e.attributes).0 == Some(e.artifacts)
    && t == inner.update(inner.execute(s, e.attributes).1, e.artifacts.header)
    && inner.root(t) == Some(e.claimedOutput)
  }

  lemma {:induction false} VerifiedReplays<S>(inner: Inner<S>, s: S, agreed: B256, trace: seq<Execution>)
    returns (states: seq<S>)
    requires VerifyFrom(inner, s, agreed, trace).Verified?
    ensures Replays(inner, states, agreed, trace) && states[0] == s
    ensures VerifyFrom(inner, s, agreed, trace).root == if trace == [] then agreed else trace[|trace| - 1].claimedOutput
    decreases |trace|
  {
    if trace == [] {
      states := [s];
    } else {
      var e := trace[0];
      var t := inner.update(inner.execute(s, e.attributes).1, e.artifacts.header);
      var rest := VerifiedReplays(inner, t, e.claimedOutput, trace[1..]);
      states := [s] + rest;
      forall i | 0 <= i < |trace|
        ensures ReplaysAt(inner, states[i], if i == 0 then agreed else trace[i - 1].claimedOutput, trace[i], states[i + 1])
      {
        if i > 0 {
          assert ReplaysAt(inner, rest[i - 1], if i == 1 then e.claimedOutput else trace[1..][i - 2].claimedOutput,
                           trace[1..][i - 1], rest[i]);
        }
      }
    }
  }

  lemma {:induction false} ReplaysVerified<S>(inner: Inner<S>, states: seq<S>, agreed: B256, trace: seq<Execution>)
    requires Replays(inner, states, agreed, trace)
    ensures VerifyFrom(inner, states[0], agreed, trace) ==
            Verified(if trace == [] then agreed else trace[|trace| - 1].claimedOutput)
    decreases |trace|
  {
    if trace != [] {
      assert ReplaysAt(inner, states[0], agreed, trace[0], states[1]);
      forall i | 0 <= i < |trace[1..]|
        ensures ReplaysAt(inner, states[1..][i], if i == 0 then trace[0].claimedOutput else trace[1..][i - 1].claimedOutput,
                          trace[1..][i], states[1..][i + 1])
      {
        assert ReplaysAt(inner, states[i + 1], trace[i].claimedOutput, trace[i + 1], states[i + 2]);
      }
      ReplaysVerified(inner, states[1..], trace[0].claimedOutput, trace[1..]);
    }
  }

  /** A trace is accepted exactly if it has a block for each number up to the claimed one and replays from the agreed
      root, with the true root as the claim of every block; the last of these is the result. */
  lemma VerifiedIff<S(!new)>(
      inner: Inner<S>, s: S, agreed: B256, safeNumber: U64, claimedNumber: U64, trace: seq<Execution>, root: B256)
    requires safeNumber <= claimedNumber
    ensures Verify(inner, s, agreed, safeNumber, claimedNumber, trace) == Verified(root) <==>
            && trace != [] && |trace| == claimedNumber - safeNumber
            && Number(trace[|trace| - 1]) == claimedNumber && trace[|trace| - 1].claimedOutput == root
            && exists states: seq<S> :: Replays(inner, states, agreed, trace) && states[0] == s
  {
    if Verify(inner, s, agreed, safeNumber, claimedNumber, trace) == Verified(root) {
      var states := VerifiedReplays(inner, s, agreed, trace);
    }
    forall states: seq<S> | Replays(inner, states, agreed, trace) && states[0] == s
      ensures VerifyFrom(inner, s, agreed, trace) == Verified(if trace == [] then agreed else trace[|trace| - 1].claimedOutput)
    {
      ReplaysVerified(inner, states, agreed, trace);
    }
  }

  /** Every payload is executed on top of the block built last; returns the root of the last block, if so. */
  function LinearTip<S>(inner: Inner<S>, s: S, tip: B256, calls: seq<Call>): Option<B256>
    decreases |calls|
  {
    if calls == [] then Some(tip)
    else
      var step := Step(inner, Bare(s), calls[0]);
      if !calls[0].Execute? then LinearTip(inner, step.0.state, tip, calls[1..])
      else if inner.root(s) != Some(tip) then None
      else if step.1.result.None? then LinearTip(inner, step.0.state, tip, calls[1..])
      else if inner.root(step.0.state).None? then None
      else LinearTip(inner, step.0.state, inner.root(step.0.state).value, calls[1..])
  }

  /** The first recorded execution starts at the tip, and without one the tip stays. */
  lemma {:induction false} RecordingStartsAtTip<S>(inner: Inner<S>, s: S, tip: B256, calls: seq<Call>)
    requires LinearTip(inner, s, tip, calls).Some?
    ensures var recording := Recording(inner, s, calls);
            if recording == [] then LinearTip(inner, s, tip, calls) == Some(tip) else recording[0].agreedOutput == tip
    decreases |calls|
  {
    if calls != [] {
      var step := Step(inner, Bare(s), calls[0]);
      if !(calls[0].Execute? && step.1.result.Some?) {
        RecordingStartsAtTip(inner, step.0.state, tip, calls[1..]);
      }
    }
  }

  lemma RecoveredTail(executions: seq<Execution>, claim: B256)
    requires executions != []
    ensures Recovered(executions, claim)[1..] == Recovered(executions[1..], claim)
  {
  }

  /** Re-execution from any state with the right root goes through the recovered trace and ends at the tip. */
  lemma {:induction false} LinearRunVerifies<S(!new)>(inner: Inner<S>, s: S, v: S, tip: B256, calls: seq<Call>)
    requires Coherent(inner) && Committed(inner) && inner.root(v) == Some(tip)
    requires LinearTip(inner, s, tip, calls).Some?
    ensures var last := LinearTip(inner, s, tip, calls).value;
            VerifyFrom(inner, v, tip, Recovered(Recording(inner, s, calls), last)) == Verified(last)
    decreases |calls|
  {
    if calls != [] {
      var step := Step(inner, Bare(s), calls[0]);
      var last := LinearTip(inner, s, tip, calls).value;
      if calls[0].Execute? && step.1.result.Some? {
        var a := calls[0].attributes;
        assert SameRoot(inner, s, v);
        assert SameOutcome(inner, s, v, a);
        var next, root := inner.execute(v, a).1, inner.root(step.0.state).value;
        LinearRunVerifies(inner, step.0.state, next, root, calls[1..]);
        RecordingStartsAtTip(inner, step.0.state, root, calls[1..]);
        RecoveredTail(Recording(inner, s, calls), last);
        assert Recording(inner, s, calls)[1..] == Recording(inner, step.0.state, calls[1..]);
      } else {
        LinearRunVerifies(inner, step.0.state, v, tip, calls[1..]);
      }
    }
  }

  /** The trace recovered from a recorded linear run passes the execution-only check. */
  lemma RecoveredTracePasses<S(!new)>(
      inner: Inner<S>, s: S, v: S, agreed: B256, calls: seq<Call>, safeNumber: U64, claimedNumber: U64)
    requires Coherent(inner) && Committed(inner) && inner.root(v) == Some(agreed)
    requires LinearTip(inner, s, agreed, calls).Some?
    requires var recording := Recording(inner, s, calls);
             && recording != [] && claimedNumber == safeNumber + |recording|
             && Number(recording[|recording| - 1]) == claimedNumber
    ensures var claim := LinearTip(inner, s, agreed, calls).value;
            Verify(inner, v, agreed, safeNumber, claimedNumber, Recovered(Recording(inner, s, calls), claim))
            == Verified(claim)
  {
    LinearRunVerifies(inner, s, v, agreed, calls);
  }

  /** An accepted trace consists of true executions: as a cache it is transparent. */
  lemma {:induction false} VerifiedIsTrue<S(!new)>(inner: Inner<S>, v: S, latest: B256, trace: seq<Execution>)
    requires Committed(inner) && inner.root(v) == Some(latest) && VerifyFrom(inner, v, latest, trace).Verified?
    ensures AllTrue(inner, trace)
    decreases |trace|
  {
    if trace != [] {
      var e := trace[0];
      var next := inner.update(inner.execute(v, e.attributes).1, e.artifacts.header);
      VerifiedIsTrue(inner, next, inner.root(next).value, trace[1..]);
      RecordedIsTrue(inner, v, e.attributes);
      forall s | inner.root(s) == Some(e.agreedOutput) ensures inner.execute(s, e.attributes).0 == Some(e.artifacts) {
        assert SameRoot(inner, v, s);
        assert SameOutcome(inner, v, s, e.attributes);
      }
    }
  }

  /** Deriving with a trace that passed the execution-only check gives what deriving without any cache gives. */
  lemma VerifiedCacheIsTransparent<S(!new)>(
      inner: Inner<S>, v: S, latest: B256, trace: seq<Execution>, s: S, calls: seq<Call>)
    requires Coherent(inner) && Committed(inner)
    requires inner.root(v) == Some(latest) && VerifyFrom(inner, v, latest, trace).Verified?
    ensures Run(inner, Snapshot(s, Reverse(trace), None), calls).1 == Run(inner, Bare(s), calls).1
  {
    VerifiedIsTrue(inner, v, latest, trace);
    assert forall i :: 0 <= i < |trace| ==> Reverse(trace)[i] == trace[|trace| - 1 - i];
    CacheIsTransparent(inner, Snapshot(s, Reverse(trace), None), Bare(s), calls);
  }
}
