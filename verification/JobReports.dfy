/** Exactly what a proving job reports, in terms of what its attempts meet (crates/prover/src/tasks.rs). */
module JobReports {
  import opened Common
  import opened Executions
  import opened Attempts
  import ExecutionTasks
  import Prover

  /** The witness was recorded, and the prover gets it. */
  predicate Recorded(l: Limits, a: Answer, forced: bool) {
    a.recordingFails.None? && (forced || (a.size <= l.size && |a.executed| <= l.executions))
  }

  predicate TooBig(l: Limits, a: Answer) {
    a.recordingFails.None? && a.size > l.size
  }

  /** The proof is there: from an earlier run, or made now. */
  predicate Made(l: Limits, a: Answer, forced: bool) {
    a.saved || (Recorded(l, a, forced) && a.backend.Proves?)
  }

  /** An attempt that seeks a proof, outcome by outcome. */
  ghost predicate SoughtMeans(l: Limits, a: Answer, forced: bool, r: Attempted) {
    && (r.Proven? <==> !l.skipAwait && a.readable && Made(l, a, forced))
    && (r == Failed(NotAwaitingProof) <==> l.skipAwait && (a.saved || (Recorded(l, a, forced) && !a.backend.Breaks?)))
    && (r == Failed(ExecutionError) <==>
          !l.skipAwait && !a.saved && Recorded(l, a, forced) && a.backend.ZkvmFails?)
    && (r == Failed(WitnessSizeError(a.executed)) <==> !a.saved && !forced && TooBig(l, a))
    && (r == Failed(BlockCountError(a.executed)) <==> !a.saved && !forced && Exceeds(l, a))
    && (forall b :: r == Failed(OtherError(b)) <==> OtherwiseFails(l, a, forced, b))
    && (r.Failed? && r.error.WitnessSizeError? ==> r.error.executed == a.executed)
    && (r.Failed? && r.error.BlockCountError? ==> r.error.executed == a.executed)
    && !(r.Failed? && (r.error.NotSeekingProof? || r.error.DerivationProofError?))
  }

  lemma SoughtExactly(l: Limits, a: Answer, forced: bool)
    ensures SoughtMeans(l, a, forced, Attempt(l, a, true, forced))
  {
  }

  /** Recording or proving broke, or a proof that is there cannot be read. */
  predicate OtherwiseFails(l: Limits, a: Answer, forced: bool, insufficient: bool) {
    || (!a.saved && a.recordingFails == Some(insufficient))
    || (!a.saved && Recorded(l, a, forced) && a.backend == Breaks(insufficient))
    || (!insufficient && !l.skipAwait && Made(l, a, forced) && !a.readable)
  }

  /** A run that seeks no proof, outcome by outcome. */
  ghost predicate UnsoughtMeans(l: Limits, a: Answer, forced: bool, r: Attempted) {
    && r.Failed?
    && (r.error == NotSeekingProof(a.size, a.executed) <==> Recorded(l, a, forced))
    && (r.error == WitnessSizeError(a.executed) <==> !forced && TooBig(l, a))
    && (r.error == BlockCountError(a.executed) <==> !forced && Exceeds(l, a))
    && (forall b :: r.error == OtherError(b) <==> a.recordingFails == Some(b))
    && (r.error.NotSeekingProof? ==> r.error == NotSeekingProof(a.size, a.executed))
    && (r.error.WitnessSizeError? ==> r.error.executed == a.executed)
    && (r.error.BlockCountError? ==> r.error.executed == a.executed)
    && (r.error.NotSeekingProof? || r.error.WitnessSizeError? || r.error.BlockCountError? || r.error.OtherError?)
  }

  lemma UnsoughtExactly(l: Limits, a: Answer, forced: bool)
    ensures UnsoughtMeans(l, a, forced, Attempt(l, a, false, forced))
  {
  }

  // ---------------------------------------------------------------------------------------------
  // Jobs
  // ---------------------------------------------------------------------------------------------

  /** The complete attempt leaves the work to be divided: it is too much at once, or no proof of it is sought. */
  predicate TooMuch(l: Limits, stitchingOnly: bool, whole: Answer) {
    if l.skipDerivation then whole.recordingFails.None?
    else !whole.saved && !stitchingOnly && (TooBig(l, whole) || Exceeds(l, whole))
  }

  lemma TooMuchIff(l: Limits, stitchingOnly: bool, whole: Answer)
    ensures Divisible(Attempt(l, whole, !l.skipDerivation, stitchingOnly)) <==> TooMuch(l, stitchingOnly, whole)
  {
    SoughtExactly(l, whole, stitchingOnly);
    UnsoughtExactly(l, whole, stitchingOnly);
  }

  /** The job gets as far as proving executions. */
  predicate Divided(l: Limits, stitchingOnly: bool, whole: Answer, derivation: Answer) {
    TooMuch(l, stitchingOnly, whole) && l.executions > 0 && (!l.skipDerivation ==> Fits(l, derivation))
  }

  /** What is known of the three attempts, of what the nested scheduler may return, and of the report. */
  ghost predicate StageFacts(
      l: Limits, env: ExecutionTasks.Env, stitchingOnly: bool, whole: Answer, derivation: Answer,
      nested: ExecutionTasks.RunResult, final: Answer, report: Report, w: Attempted, d: Attempted, f: Attempted)
  {
    && (if l.skipDerivation then UnsoughtMeans(l, whole, stitchingOnly, w) else SoughtMeans(l, whole, stitchingOnly, w))
    && UnsoughtMeans(l, derivation, false, d) && SoughtMeans(l, final, true, f)
    && (Divided(l, stitchingOnly, whole, derivation) ==> NestedMayReturn(l, env, nested))
    && (report ==
          if !TooMuch(l, stitchingOnly, whole) then Reported(w)
          else if l.executions == 0 then Reported(Failed(OtherError(false)))
          else if !l.skipDerivation && !Fits(l, derivation) then Reported(d)
          else AfterTasks(nested, f))
  }

  lemma Stages(l: Limits, env: ExecutionTasks.Env, stitchingOnly: bool, whole: Answer, derivation: Answer,
               nested: ExecutionTasks.RunResult, final: Answer)
    returns (w: Attempted, d: Attempted, f: Attempted)
    requires env.maxExecutions == l.executions
    requires Divided(l, stitchingOnly, whole, derivation) ==> NestedOf(l, env, nested)
    ensures StageFacts(l, env, stitchingOnly, whole, derivation, nested, final,
                       FpvmProof(l, stitchingOnly, whole, derivation, nested, final), w, d, f)
  {
    w := Attempt(l, whole, !l.skipDerivation, stitchingOnly);
    d, f := Attempt(l, derivation, false, false), Attempt(l, final, true, true);
    TooMuchIff(l, stitchingOnly, whole);
    SoughtExactly(l, whole, stitchingOnly);
    UnsoughtExactly(l, whole, stitchingOnly);
    UnsoughtExactly(l, derivation, false);
    UnsoughtReports(l, derivation);
    SoughtExactly(l, final, true);
    if Divided(l, stitchingOnly, whole, derivation) {
      NestedReports(l, env, nested);
    }
  }

  predicate Reports(report: Report, r: Attempted) {
    report == Reported(r)
  }

  /** A job reports a proof exactly if its complete attempt makes one, or all its tasks do and then the final attempt. */
  lemma ProvenIff(l: Limits, env: ExecutionTasks.Env, stitchingOnly: bool, whole: Answer, derivation: Answer,
                  nested: ExecutionTasks.RunResult, final: Answer)
    requires env.maxExecutions == l.executions
    requires Divided(l, stitchingOnly, whole, derivation) ==> NestedOf(l, env, nested)
    ensures Reports(FpvmProof(l, stitchingOnly, whole, derivation, nested, final), Proven) <==>
              && !l.skipAwait && !l.skipDerivation
              && if Divided(l, stitchingOnly, whole, derivation) then
                   nested.Stitch? && final.readable && Made(l, final, true)
                 else whole.readable && Made(l, whole, stitchingOnly)
  {
    var w, d, f := Stages(l, env, stitchingOnly, whole, derivation, nested, final);
    ProvenIffOn(l, env, stitchingOnly, whole, derivation, nested, final,
                FpvmProof(l, stitchingOnly, whole, derivation, nested, final), w, d, f);
  }

  lemma ProvenIffOn(l: Limits, env: ExecutionTasks.Env, stitchingOnly: bool, whole: Answer, derivation: Answer,
                    nested: ExecutionTasks.RunResult, final: Answer, report: Report, w: Attempted, d: Attempted,
                    f: Attempted)
    requires env.maxExecutions == l.executions
    requires StageFacts(l, env, stitchingOnly, whole, derivation, nested, final, report, w, d, f)
    ensures Reports(report, Proven) <==>
              && !l.skipAwait && !l.skipDerivation
              && if Divided(l, stitchingOnly, whole, derivation) then
                   nested.Stitch? && final.readable && Made(l, final, true)
                 else whole.readable && Made(l, whole, stitchingOnly)
  {
  }

  /** A job reports that no proof is awaited exactly if it submitted one, or got as far with its tasks. */
  lemma NotAwaitedIff(l: Limits, env: ExecutionTasks.Env, stitchingOnly: bool, whole: Answer, derivation: Answer,
                      nested: ExecutionTasks.RunResult, final: Answer)
    requires env.maxExecutions == l.executions
    requires Divided(l, stitchingOnly, whole, derivation) ==> NestedOf(l, env, nested)
    ensures Reports(FpvmProof(l, stitchingOnly, whole, derivation, nested, final), Failed(NotAwaitingProof)) <==>
              && l.skipAwait
              && if Divided(l, stitchingOnly, whole, derivation) then nested.NotAwaited?
                 else !l.skipDerivation && (whole.saved || (Recorded(l, whole, stitchingOnly) && !whole.backend.Breaks?))
  {
    var w, d, f := Stages(l, env, stitchingOnly, whole, derivation, nested, final);
    NotAwaitedIffOn(l, env, stitchingOnly, whole, derivation, nested, final,
                    FpvmProof(l, stitchingOnly, whole, derivation, nested, final), w, d, f);
  }

  lemma NotAwaitedIffOn(l: Limits, env: ExecutionTasks.Env, stitchingOnly: bool, whole: Answer, derivation: Answer,
                        nested: ExecutionTasks.RunResult, final: Answer, report: Report, w: Attempted, d: Attempted,
                        f: Attempted)
    requires env.maxExecutions == l.executions
    requires StageFacts(l, env, stitchingOnly, whole, derivation, nested, final, report, w, d, f)
    ensures Reports(report, Failed(NotAwaitingProof)) <==>
              && l.skipAwait
              && if Divided(l, stitchingOnly, whole, derivation) then nested.NotAwaited?
                 else !l.skipDerivation && (whole.saved || (Recorded(l, whole, stitchingOnly) && !whole.backend.Breaks?))
  {
  }

  /** A job reports execution proofs exactly if it got all of them and derivation is skipped. */
  lemma DerivationSkippedIff(l: Limits, env: ExecutionTasks.Env, stitchingOnly: bool, whole: Answer,
                             derivation: Answer, nested: ExecutionTasks.RunResult, final: Answer, count: nat)
    requires env.maxExecutions == l.executions
    requires Divided(l, stitchingOnly, whole, derivation) ==> NestedOf(l, env, nested)
    ensures Reports(FpvmProof(l, stitchingOnly, whole, derivation, nested, final), Failed(DerivationProofError(count)))
       <==> Divided(l, stitchingOnly, whole, derivation) && nested == ExecutionTasks.ProvenWithoutDerivation(count)
  {
    var w, d, f := Stages(l, env, stitchingOnly, whole, derivation, nested, final);
    DerivationSkippedIffOn(l, env, stitchingOnly, whole, derivation, nested, final, count,
                           FpvmProof(l, stitchingOnly, whole, derivation, nested, final), w, d, f);
  }

  lemma DerivationSkippedIffOn(l: Limits, env: ExecutionTasks.Env, stitchingOnly: bool, whole: Answer,
                               derivation: Answer, nested: ExecutionTasks.RunResult, final: Answer, count: nat,
                               report: Report, w: Attempted, d: Attempted, f: Attempted)
    requires env.maxExecutions == l.executions
    requires StageFacts(l, env, stitchingOnly, whole, derivation, nested, final, report, w, d, f)
    ensures Reports(report, Failed(DerivationProofError(count)))
       <==> Divided(l, stitchingOnly, whole, derivation) && nested == ExecutionTasks.ProvenWithoutDerivation(count)
  {
  }

  /** A job reports a failed execution exactly if one of its proving stages does. */
  lemma ExecutionErrorIff(l: Limits, env: ExecutionTasks.Env, stitchingOnly: bool, whole: Answer, derivation: Answer,
                          nested: ExecutionTasks.RunResult, final: Answer)
    requires env.maxExecutions == l.executions
    requires Divided(l, stitchingOnly, whole, derivation) ==> NestedOf(l, env, nested)
    ensures Reports(FpvmProof(l, stitchingOnly, whole, derivation, nested, final), Failed(ExecutionError)) <==>
              && !l.skipAwait
              && if Divided(l, stitchingOnly, whole, derivation) then
                   || nested == ExecutionTasks.Exited(ExecutionTasks.Failed(ExecutionTasks.ExecutionError))
                   || (nested.Stitch? && !final.saved && final.recordingFails.None? && final.backend.ZkvmFails?)
                 else
                   !l.skipDerivation && !whole.saved && Recorded(l, whole, stitchingOnly) && whole.backend.ZkvmFails?
  {
    var w, d, f := Stages(l, env, stitchingOnly, whole, derivation, nested, final);
    ExecutionErrorIffOn(l, env, stitchingOnly, whole, derivation, nested, final,
                        FpvmProof(l, stitchingOnly, whole, derivation, nested, final), w, d, f);
  }

  lemma ExecutionErrorIffOn(l: Limits, env: ExecutionTasks.Env, stitchingOnly: bool, whole: Answer,
                            derivation: Answer, nested: ExecutionTasks.RunResult, final: Answer, report: Report,
                            w: Attempted, d: Attempted, f: Attempted)
    requires env.maxExecutions == l.executions
    requires StageFacts(l, env, stitchingOnly, whole, derivation, nested, final, report, w, d, f)
    ensures Reports(report, Failed(ExecutionError)) <==>
              && !l.skipAwait
              && if Divided(l, stitchingOnly, whole, derivation) then
                   || nested == ExecutionTasks.Exited(ExecutionTasks.Failed(ExecutionTasks.ExecutionError))
                   || (nested.Stitch? && !final.saved && final.recordingFails.None? && final.backend.ZkvmFails?)
                 else
                   !l.skipDerivation && !whole.saved && Recorded(l, whole, stitchingOnly) && whole.backend.ZkvmFails?
  {
  }

  /** A job reports a witness that is too big exactly if that of its derivation-only run is. */
  lemma WitnessSizeIff(l: Limits, env: ExecutionTasks.Env, stitchingOnly: bool, whole: Answer, derivation: Answer,
                       nested: ExecutionTasks.RunResult, final: Answer)
    requires env.maxExecutions == l.executions
    requires Divided(l, stitchingOnly, whole, derivation) ==> NestedOf(l, env, nested)
    ensures var report := FpvmProof(l, stitchingOnly, whole, derivation, nested, final);
            report.Reported? && report.r.Failed? && report.r.error.WitnessSizeError? <==>
              TooMuch(l, stitchingOnly, whole) && l.executions > 0 && !l.skipDerivation && TooBig(l, derivation)
  {
    var w, d, f := Stages(l, env, stitchingOnly, whole, derivation, nested, final);
    WitnessSizeIffOn(l, env, stitchingOnly, whole, derivation, nested, final,
                     FpvmProof(l, stitchingOnly, whole, derivation, nested, final), w, d, f);
  }

  lemma WitnessSizeIffOn(l: Limits, env: ExecutionTasks.Env, stitchingOnly: bool, whole: Answer, derivation: Answer,
                         nested: ExecutionTasks.RunResult, final: Answer, report: Report, w: Attempted, d: Attempted,
                         f: Attempted)
    requires env.maxExecutions == l.executions
    requires StageFacts(l, env, stitchingOnly, whole, derivation, nested, final, report, w, d, f)
    ensures report.Reported? && report.r.Failed? && report.r.error.WitnessSizeError? <==>
              TooMuch(l, stitchingOnly, whole) && l.executions > 0 && !l.skipDerivation && TooBig(l, derivation)
  {
  }

  /** A job reports any other error exactly if the stage that it got to met it, or division is disabled. */
  lemma OtherErrorIff(l: Limits, env: ExecutionTasks.Env, stitchingOnly: bool, whole: Answer, derivation: Answer,
                      nested: ExecutionTasks.RunResult, final: Answer, insufficient: bool)
    requires env.maxExecutions == l.executions
    requires Divided(l, stitchingOnly, whole, derivation) ==> NestedOf(l, env, nested)
    ensures Reports(FpvmProof(l, stitchingOnly, whole, derivation, nested, final), Failed(OtherError(insufficient))) <==>
              if !TooMuch(l, stitchingOnly, whole) then
                if l.skipDerivation then whole.recordingFails == Some(insufficient)
                else OtherwiseFails(l, whole, stitchingOnly, insufficient)
              else if l.executions == 0 then !insufficient
              else if !l.skipDerivation && derivation.recordingFails.Some? then derivation.recordingFails == Some(insufficient)
              else
                Divided(l, stitchingOnly, whole, derivation) &&
                (|| nested == ExecutionTasks.Exited(ExecutionTasks.Failed(ExecutionTasks.OtherError(insufficient)))
                 || (nested.Stitch? && OtherwiseFails(l, final, true, insufficient)))
  {
    var w, d, f := Stages(l, env, stitchingOnly, whole, derivation, nested, final);
    OtherErrorIffOn(l, env, stitchingOnly, whole, derivation, nested, final, insufficient,
                    FpvmProof(l, stitchingOnly, whole, derivation, nested, final), w, d, f);
  }

  lemma OtherErrorIffOn(l: Limits, env: ExecutionTasks.Env, stitchingOnly: bool, whole: Answer, derivation: Answer,
                        nested: ExecutionTasks.RunResult, final: Answer, insufficient: bool, report: Report,
                        w: Attempted, d: Attempted, f: Attempted)
    requires env.maxExecutions == l.executions
    requires StageFacts(l, env, stitchingOnly, whole, derivation, nested, final, report, w, d, f)
    ensures Reports(report, Failed(OtherError(insufficient))) <==>
              if !TooMuch(l, stitchingOnly, whole) then
                if l.skipDerivation then whole.recordingFails == Some(insufficient)
                else OtherwiseFails(l, whole, stitchingOnly, insufficient)
              else if l.executions == 0 then !insufficient
              else if !l.skipDerivation && derivation.recordingFails.Some? then derivation.recordingFails == Some(insufficient)
              else
                Divided(l, stitchingOnly, whole, derivation) &&
                (|| nested == ExecutionTasks.Exited(ExecutionTasks.Failed(ExecutionTasks.OtherError(insufficient)))
                 || (nested.Stitch? && OtherwiseFails(l, final, true, insufficient)))
  {
  }

  /** What the nested scheduler returns on the arrivals of its tasks: the proven tasks in order, or what was skipped. */
  lemma NestedReturns(l: Limits, env: ExecutionTasks.Env, nested: ExecutionTasks.RunResult,
                      tape: seq<ExecutionTasks.Event>)
    requires env.maxExecutions > 0 && env.cache != [] && ExecutionTasks.Recorded(env) && ExecutionTasks.Initial(env).Some?
    requires NestedOn(l, env, nested, tape)
    ensures var last := ExecutionTasks.Wait(env, ExecutionTasks.Initial(env).value, tape);
            last.Some? &&
            match last.value
            case Stopped(exit) => nested == ExecutionTasks.Exited(exit)
            case Running(s) =>
              if l.skipAwait then nested.NotAwaited?
              else if l.skipDerivation then nested == ExecutionTasks.ProvenWithoutDerivation(|s.results|)
              else nested.Stitch? && s.dropped == [] && ExecutionTasks.Handed(env, s, nested.tasks)
  {
    var init := ExecutionTasks.Initial(env).value;
    ExecutionTasks.InitialInv(env);
    PossibleRun(l, env, init, tape, ExecutionTasks.ChunkTasks(env, 0).value.1);
    var last := ExecutionTasks.Wait(env, init, tape).value;
    if last.Running? && !l.skipAwait && !l.skipDerivation {
      ExecutionTasks.HandedInOrder(env, tape, last.s, l.skipAwait, l.skipDerivation);
    }
  }
}
