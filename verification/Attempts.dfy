/** What one proving job does, from single attempts to the nested scheduler, and what it can report to the outer one
    (crates/prover/src/tasks.rs, crates/prover/src/client/proving.rs). */
module Attempts {
  import opened Common
  import opened Executions
  import opened Journal
  import Stitching
  import CachedExecution
  import ExecutionTasks
  import Prover

  datatype ProvingError =
    | DerivationProofError(proofs: nat)
    | NotSeekingProof(size: nat, executed: seq<Execution>)
    | NotAwaitingProof
    | BlockCountError(executed: seq<Execution>)
    | WitnessSizeError(executed: seq<Execution>)
    | ExecutionError
    | OtherError(insufficientL1Head: bool)

  /** What the flags of the program allow and skip. */
  datatype Limits = Limits(size: nat, executions: nat, skipAwait: bool, skipDerivation: bool)

  datatype Backend = Proves | ZkvmFails | Breaks(insufficientL1Head: bool)

  /** What an attempt meets: whether its proof is on disk already and can be read, whether recording the witness fails
      and with what kind of error, the size of the witness, the executions that were not cached, and the prover. */
  datatype Answer = Answer(saved: bool, readable: bool, recordingFails: Option<bool>,
                           size: nat, executed: seq<Execution>, backend: Backend)

  /** The proof is there, or an error. */
  datatype Attempted = Proven | Failed(error: ProvingError)

  /** Whether the recorded witness is handed to the prover. */
  function ProcessWitness(l: Limits, a: Answer, seek: bool, forced: bool): Option<ProvingError> {
    if a.size > l.size && !forced then Some(WitnessSizeError(a.executed))
    else if |a.executed| > l.executions && !forced then Some(BlockCountError(a.executed))
    else if !seek then Some(NotSeekingProof(a.size, a.executed))
    else None
  }

  function SeekProof(l: Limits, backend: Backend): Option<ProvingError> {
    match backend
    case Breaks(insufficient) => Some(OtherError(insufficient))
    case _ => if l.skipAwait then Some(NotAwaitingProof) else if backend.ZkvmFails? then Some(ExecutionError) else None
  }

  function RunClient(l: Limits, a: Answer, seek: bool, forced: bool): Option<ProvingError> {
    if a.recordingFails.Some? then Some(OtherError(a.recordingFails.value))
    else
      var refused := ProcessWitness(l, a, seek, forced);
      if refused.Some? then refused else SeekProof(l, a.backend)
  }

  /** One attempt: a saved proof is not computed again. */
  function Attempt(l: Limits, a: Answer, seek: bool, forced: bool): Attempted {
    var error := if a.saved && seek then None else RunClient(l, a, seek, forced);
    if error.Some? then Failed(error.value)
    else if l.skipAwait then Failed(NotAwaitingProof)
    else if !a.readable then Failed(OtherError(false))
    else Proven
  }

  // ---------------------------------------------------------------------------------------------
  // Tasks of the nested scheduler
  // ---------------------------------------------------------------------------------------------

  function TaskOutcome(r: Attempted): ExecutionTasks.Outcome {
    match r
    case Proven => ExecutionTasks.Proof
    case Failed(DerivationProofError(_)) => ExecutionTasks.DerivationProofError
    case Failed(NotSeekingProof(_, _)) => ExecutionTasks.NotSeekingProof
    case Failed(NotAwaitingProof) => ExecutionTasks.NotAwaitingProof
    case Failed(BlockCountError(_)) => ExecutionTasks.BlockCountError
    case Failed(WitnessSizeError(_)) => ExecutionTasks.WitnessSizeError
    case Failed(ExecutionError) => ExecutionTasks.ExecutionError
    case Failed(OtherError(insufficient)) => ExecutionTasks.OtherError(insufficient)
  }

  /** A task always seeks its proof, and an execution-only client collects no executions. */
  function TaskReport(l: Limits, a: Answer, forced: bool): ExecutionTasks.Outcome {
    TaskOutcome(Attempt(l, a.(executed := []), true, forced))
  }

  predicate TaskMayReport(l: Limits, forced: bool, outcome: ExecutionTasks.Outcome) {
    match outcome
    case Proof => !l.skipAwait
    case ExecutionError => !l.skipAwait
    case NotAwaitingProof => l.skipAwait
    case WitnessSizeError => !forced
    case OtherError(_) => true
    case _ => false
  }

  /** Some answer to a task with a given outcome. */
  function AnswerWith(l: Limits, outcome: ExecutionTasks.Outcome): Answer {
    match outcome
    case WitnessSizeError => Answer(false, true, None, l.size + 1, [], Proves)
    case ExecutionError => Answer(false, true, None, 0, [], ZkvmFails)
    case OtherError(insufficient) => Answer(false, true, Some(insufficient), 0, [], Proves)
    case _ => Answer(true, true, None, 0, [], Proves)
  }

  /** Exactly which outcomes the nested loop can receive from a task. */
  lemma TaskReportsExactly(l: Limits, forced: bool, outcome: ExecutionTasks.Outcome)
    ensures TaskMayReport(l, forced, outcome) <==> exists a :: TaskReport(l, a, forced) == outcome
  {
    if TaskMayReport(l, forced, outcome) {
      assert TaskReport(l, AnswerWith(l, outcome), forced) == outcome;
    }
  }

  /** Every arrival is one that the task in question may report. */
  ghost predicate Possible(
      l: Limits, env: ExecutionTasks.Env, s: ExecutionTasks.Sched, tape: seq<ExecutionTasks.Event>)
    decreases |tape|
  {
    ExecutionTasks.Complete(s) || tape == [] || s.inFlight == [] ||
    (var i := tape[0].0 % |s.inFlight|;
     && TaskMayReport(l, s.inFlight[i].forceAttempt, tape[0].1)
     && var next := ExecutionTasks.Receive(env, s, i, tape[0].1);
        next.Running? ==> Possible(l, env, next.s, tape[1..]))
  }

  ghost predicate OneKind(l: Limits, s: ExecutionTasks.Sched) {
    if l.skipAwait then s.results == [] else s.dropped == []
  }

  predicate StopsWithError(l: Limits, next: ExecutionTasks.Next) {
    next.Stopped? ==> next.exit.Failed? && StopsTasks(l, next.exit.outcome)
  }

  predicate StopsTasks(l: Limits, outcome: ExecutionTasks.Outcome) {
    outcome.OtherError? || (outcome.ExecutionError? && !l.skipAwait)
  }

  lemma ArrivalPossible(l: Limits, env: ExecutionTasks.Env, s: ExecutionTasks.Sched, i: nat,
                        outcome: ExecutionTasks.Outcome)
    requires ExecutionTasks.Recorded(env) && i < |s.inFlight| && ExecutionTasks.Honest(env, s.inFlight[i])
    requires TaskMayReport(l, s.inFlight[i].forceAttempt, outcome) && OneKind(l, s)
    ensures var next := ExecutionTasks.Receive(env, s, i, outcome);
            StopsWithError(l, next) && (next.Running? ==> OneKind(l, next.s))
  {
    var x := ExecutionTasks.TaskSpan(env, s.inFlight[i]);
    ExecutionTasks.ReceiveHonest(env, s, i, outcome);
    if x.hi - x.lo > 1 {
      ExecutionTasks.HalvesOf(env, x.lo, x.hi);
    }
  }

  /**
   * The nested loop never panics on what tasks report: none of its unreachable arms is taken, no midpoint is missing,
   * and no forced attempt fails for the size of its witness.
   */
  lemma {:induction false} PossibleRun(
      l: Limits, env: ExecutionTasks.Env, s: ExecutionTasks.Sched, tape: seq<ExecutionTasks.Event>, c: nat)
    requires ExecutionTasks.Recorded(env) && ExecutionTasks.Inv(env, s, c) && OneKind(l, s) && Possible(l, env, s, tape)
    ensures var last := ExecutionTasks.Wait(env, s, tape);
            last.Some? && StopsWithError(l, last.value) && (last.value.Running? ==> OneKind(l, last.value.s))
    decreases |tape|
  {
    ExecutionTasks.WaitKeeps(env, s, tape, c);
    if !ExecutionTasks.Complete(s) && tape != [] {
      var i := tape[0].0 % |s.inFlight|;
      assert s.inFlight[i] in ExecutionTasks.AllTasks(s);
      ArrivalPossible(l, env, s, i, tape[0].1);
      if ExecutionTasks.Receive(env, s, i, tape[0].1).Running? {
        ExecutionTasks.ReceiveKeeps(env, s, i, tape[0].1, c);
        PossibleRun(l, env, ExecutionTasks.Receive(env, s, i, tape[0].1).s, tape[1..], c);
      }
    }
  }

  // ---------------------------------------------------------------------------------------------
  // Jobs of the outer scheduler
  // ---------------------------------------------------------------------------------------------

  /** A job reports a proof or an error, or panics and reports nothing. */
  datatype Report = Reported(r: Attempted) | Silent

  function ErrorOf(outcome: ExecutionTasks.Outcome): ProvingError {
    match outcome
    case OtherError(insufficient) => OtherError(insufficient)
    case WitnessSizeError => WitnessSizeError([])
    case BlockCountError => BlockCountError([])
    case NotSeekingProof => NotSeekingProof(0, [])
    case DerivationProofError => DerivationProofError(0)
    case NotAwaitingProof => NotAwaitingProof
    case _ => ExecutionError
  }

  predicate Divisible(r: Attempted) {
    r.Failed? && (r.error.BlockCountError? || r.error.WitnessSizeError? || r.error.NotSeekingProof?)
  }

  /** What follows on the nested scheduler: its error, or the final attempt on the stitched executions. */
  function AfterTasks(nested: ExecutionTasks.RunResult, final: Attempted): Report {
    match nested
    case Disabled => Reported(Failed(OtherError(false)))
    case Exited(Panicked) => Silent
    case Exited(Failed(outcome)) => Reported(Failed(ErrorOf(outcome)))
    case NotAwaited => Reported(Failed(NotAwaitingProof))
    case ProvenWithoutDerivation(count) => Reported(Failed(DerivationProofError(count)))
    case Stitch(_) => Reported(final)
  }

  /** The complete attempt, the derivation-only run, the nested scheduler, and the final attempt. */
  function Combined(l: Limits, whole: Attempted, derivation: Attempted, nested: ExecutionTasks.RunResult,
                    final: Attempted): Report
  {
    if !Divisible(whole) then Reported(whole)
    else if l.executions == 0 then Reported(Failed(OtherError(false)))
    else if !l.skipDerivation && !(derivation.Failed? && derivation.error.NotSeekingProof?) then Reported(derivation)
    else AfterTasks(nested, final)
  }

  function FpvmProof(l: Limits, stitchingOnly: bool, whole: Answer, derivation: Answer,
                     nested: ExecutionTasks.RunResult, final: Answer): Report
  {
    Combined(l, Attempt(l, whole, !l.skipDerivation, stitchingOnly), Attempt(l, derivation, false, false), nested,
             Attempt(l, final, true, true))
  }

  /** The outcome that the outer loop receives; a proof is never missing from a success. */
  function JobOutcome(r: Attempted): Prover.Outcome {
    match r
    case Proven => Prover.Proof
    case Failed(DerivationProofError(_)) => Prover.DerivationProofError
    case Failed(NotSeekingProof(_, _)) => Prover.NotSeekingProof
    case Failed(NotAwaitingProof) => Prover.NotAwaitingProof
    case Failed(BlockCountError(_)) => Prover.BlockCountError
    case Failed(WitnessSizeError(_)) => Prover.WitnessSizeError
    case Failed(ExecutionError) => Prover.ExecutionError
    case Failed(OtherError(insufficient)) => Prover.OtherError(insufficient)
  }

  predicate JobMayReport(l: Limits, outcome: Prover.Outcome) {
    match outcome
    case Proof => !l.skipAwait && !l.skipDerivation
    case ExecutionError => !l.skipAwait
    case NotAwaitingProof => l.skipAwait
    case DerivationProofError => !l.skipAwait && l.skipDerivation
    case WitnessSizeError => !l.skipDerivation
    case OtherError(_) => true
    case _ => false
  }

  /** The nested scheduler returned this on the executed blocks, for some arrivals that its tasks may report. */
  ghost predicate NestedOf(l: Limits, env: ExecutionTasks.Env, nested: ExecutionTasks.RunResult) {
    if env.maxExecutions == 0 then nested.Disabled?
    else if env.cache == [] then nested == ExecutionTasks.Exited(ExecutionTasks.Panicked)
    else
      && ExecutionTasks.Recorded(env) && ExecutionTasks.Initial(env).Some?
      && exists tape :: NestedOn(l, env, nested, tape)
  }

  ghost predicate NestedOn(
      l: Limits, env: ExecutionTasks.Env, nested: ExecutionTasks.RunResult, tape: seq<ExecutionTasks.Event>)
    requires env.maxExecutions > 0 && env.cache != [] && ExecutionTasks.Initial(env).Some?
  {
    var init := ExecutionTasks.Initial(env).value;
    var last := ExecutionTasks.Wait(env, init, tape);
    && Possible(l, env, init, tape) && last.Some?
    && (last.value.Stopped? ==> nested == ExecutionTasks.Exited(last.value.exit))
    && (last.value.Running? ==>
          ExecutionTasks.Complete(last.value.s) &&
          nested == ExecutionTasks.Finish(last.value.s.results, l.skipAwait, l.skipDerivation))
  }

  /** The nested scheduler panics only on an empty trace, and otherwise stops only on what no split can help. */
  predicate NestedMayReturn(l: Limits, env: ExecutionTasks.Env, nested: ExecutionTasks.RunResult) {
    match nested
    case Disabled => env.maxExecutions == 0
    case Exited(Panicked) => env.maxExecutions > 0 && env.cache == []
    case Exited(Failed(outcome)) => env.maxExecutions > 0 && env.cache != [] && StopsTasks(l, outcome)
    case NotAwaited => env.maxExecutions > 0 && env.cache != [] && l.skipAwait
    case ProvenWithoutDerivation(_) => env.maxExecutions > 0 && env.cache != [] && !l.skipAwait && l.skipDerivation
    case Stitch(_) => env.maxExecutions > 0 && env.cache != [] && !l.skipAwait && !l.skipDerivation
  }

  lemma NestedReports(l: Limits, env: ExecutionTasks.Env, nested: ExecutionTasks.RunResult)
    requires NestedOf(l, env, nested)
    ensures NestedMayReturn(l, env, nested)
  {
    if env.maxExecutions > 0 && env.cache != [] {
      var tape :| NestedOn(l, env, nested, tape);
      ExecutionTasks.InitialInv(env);
      PossibleRun(l, env, ExecutionTasks.Initial(env).value, tape, ExecutionTasks.ChunkTasks(env, 0).value.1);
    }
  }

  predicate MayAttempt(l: Limits, r: Attempted, a: Answer, seek: bool, forced: bool) {
    match r
    case Proven => seek && !l.skipAwait
    case Failed(NotSeekingProof(_, _)) => !seek && (!forced ==> Fits(l, a))
    case Failed(BlockCountError(_)) => !forced && Exceeds(l, a)
    case Failed(WitnessSizeError(_)) => !forced
    case Failed(ExecutionError) => seek && !l.skipAwait
    case Failed(NotAwaitingProof) => seek && l.skipAwait
    case Failed(DerivationProofError(_)) => false
    case Failed(OtherError(_)) => true
  }

  /** The witness is recorded within the limits. */
  predicate Fits(l: Limits, a: Answer) {
    a.recordingFails.None? && a.size <= l.size && |a.executed| <= l.executions
  }

  /** The witness is recorded within its limit of bytes, but with too many executions that were not cached. */
  predicate Exceeds(l: Limits, a: Answer) {
    a.recordingFails.None? && a.size <= l.size && |a.executed| > l.executions
  }

  lemma AttemptReports(l: Limits, a: Answer, seek: bool, forced: bool)
    ensures MayAttempt(l, Attempt(l, a, seek, forced), a, seek, forced)
  {
  }

  lemma UnsoughtReports(l: Limits, a: Answer)
    ensures var r := Attempt(l, a, false, false);
            && r.Failed?
            && (r.error.NotSeekingProof? <==> Fits(l, a)) && (r.error.BlockCountError? <==> Exceeds(l, a))
  {
  }

  /** The job gets as far as the nested scheduler. */
  predicate DividesWork(l: Limits, stitchingOnly: bool, whole: Answer, derivation: Answer) {
    && Divisible(Attempt(l, whole, !l.skipDerivation, stitchingOnly))
    && l.executions > 0
    && (!l.skipDerivation ==> Fits(l, derivation))
  }

  /** A job reports nothing exactly if it divides its work although no block was executed. */
  lemma SilentIff(l: Limits, env: ExecutionTasks.Env, stitchingOnly: bool, whole: Answer, derivation: Answer,
                  nested: ExecutionTasks.RunResult, final: Answer)
    requires env.maxExecutions == l.executions
    requires DividesWork(l, stitchingOnly, whole, derivation) ==> NestedOf(l, env, nested)
    ensures FpvmProof(l, stitchingOnly, whole, derivation, nested, final).Silent?
       <==> DividesWork(l, stitchingOnly, whole, derivation) && env.cache == []
  {
    UnsoughtReports(l, derivation);
    if DividesWork(l, stitchingOnly, whole, derivation) {
      NestedReports(l, env, nested);
    }
  }

  /** Proving executions only, of a range in which nothing is executed. */
  lemma SilentJob(h: Hashing, args: Prover.Args, final: Answer)
    ensures var l, whole := Limits(0, 1, false, true), Answer(false, true, None, 0, [], Proves);
            var nested := ExecutionTasks.Exited(ExecutionTasks.Panicked);
            && NestedOf(l, TasksEnv(l, h, args, whole), nested)
            && FpvmProof(l, false, whole, whole, nested, final).Silent?
  {
  }

  lemma AfterTasksReports(l: Limits, env: ExecutionTasks.Env, nested: ExecutionTasks.RunResult, a: Answer,
                          final: Attempted)
    requires NestedMayReturn(l, env, nested) && MayAttempt(l, final, a, true, true)
    ensures var report := AfterTasks(nested, final);
            report.Reported? ==> JobMayReport(l, JobOutcome(report.r))
  {
  }

  /** The arm for a block count error in the outer loop is reached exactly if the derivation-only run misses its cache
      more often than the limit allows. */
  lemma BlockCountEscapesIff(l: Limits, env: ExecutionTasks.Env, stitchingOnly: bool, whole: Answer, derivation: Answer,
                             nested: ExecutionTasks.RunResult, final: Answer)
    requires env.maxExecutions == l.executions
    requires DividesWork(l, stitchingOnly, whole, derivation) ==> NestedOf(l, env, nested)
    ensures var report := FpvmProof(l, stitchingOnly, whole, derivation, nested, final);
            report.Reported? && JobOutcome(report.r).BlockCountError? <==>
              && Divisible(Attempt(l, whole, !l.skipDerivation, stitchingOnly))
              && l.executions > 0 && !l.skipDerivation && Exceeds(l, derivation)
  {
    UnsoughtReports(l, derivation);
    if DividesWork(l, stitchingOnly, whole, derivation) {
      NestedReports(l, env, nested);
      AttemptReports(l, final, true, true);
      AfterTasksReports(l, env, nested, final, Attempt(l, final, true, true));
    }
  }

  /** Two blocks where one may be executed, and a derivation-only run that executes both again. */
  lemma BlockCountEscapes(d: Execution, e: Execution, nested: ExecutionTasks.RunResult, final: Answer)
    ensures var l, whole := Limits(0, 1, false, false), Answer(false, true, None, 0, [d, e], Proves);
            FpvmProof(l, false, whole, whole, nested, final) == Reported(Failed(BlockCountError([d, e])))
  {
  }

  /** What a job reports if its derivation-only run is served from its cache within the limit. */
  lemma JobReports(l: Limits, env: ExecutionTasks.Env, stitchingOnly: bool, whole: Answer, derivation: Answer,
                   nested: ExecutionTasks.RunResult, final: Answer)
    requires env.maxExecutions == l.executions
    requires DividesWork(l, stitchingOnly, whole, derivation) ==> NestedOf(l, env, nested)
    requires |derivation.executed| <= l.executions
    ensures var report := FpvmProof(l, stitchingOnly, whole, derivation, nested, final);
            report.Reported? ==> JobMayReport(l, JobOutcome(report.r))
  {
    if DividesWork(l, stitchingOnly, whole, derivation) {
      NestedReports(l, env, nested);
      AttemptReports(l, final, true, true);
      AfterTasksReports(l, env, nested, final, Attempt(l, final, true, true));
    }
    AttemptReports(l, whole, !l.skipDerivation, stitchingOnly);
    AttemptReports(l, derivation, false, false);
    UnsoughtReports(l, derivation);
    CombinedReports(l, stitchingOnly, whole, derivation, Attempt(l, whole, !l.skipDerivation, stitchingOnly),
                    Attempt(l, derivation, false, false), nested, Attempt(l, final, true, true));
  }

  lemma CombinedReports(
      l: Limits, stitchingOnly: bool, a: Answer, b: Answer, whole: Attempted, derivation: Attempted,
      nested: ExecutionTasks.RunResult, final: Attempted)
    requires MayAttempt(l, whole, a, !l.skipDerivation, stitchingOnly) && MayAttempt(l, derivation, b, false, false)
    requires |b.executed| <= l.executions
    requires var report := AfterTasks(nested, final);
             Divisible(whole) && l.executions > 0 && (!l.skipDerivation ==> Fits(l, b)) && report.Reported? ==>
               JobMayReport(l, JobOutcome(report.r))
    ensures var report := Combined(l, whole, derivation, nested, final);
            report.Reported? ==> JobMayReport(l, JobOutcome(report.r))
  {
  }

  /** A derivation-only run that makes the calls of the recorded one misses its cache never. */
  lemma ReplayedRunFits<S(!new)>(l: Limits, inner: CachedExecution.Inner<S>, s: S, calls: seq<CachedExecution.Call>,
                                 recorded: seq<Execution>, claim: B256, derivation: Answer)
    requires CachedExecution.Coherent(inner) && CachedExecution.Committed(inner)
    requires CachedExecution.Run(inner, CachedExecution.Snapshot(s, [], Some([])), calls).0.collected == Some(recorded)
    requires var cache := Reverse(CachedExecution.Recovered(recorded, claim));
             CachedExecution.Run(inner, CachedExecution.Snapshot(s, cache, Some([])), calls).0.collected
             == Some(derivation.executed)
    ensures |derivation.executed| <= l.executions
  {
    CachedExecution.RecoveredReplays(inner, s, calls, claim);
  }

  /** Composing proofs on top of an instruction without blocks is never divided. */
  lemma StitchingIsOneAttempt(l: Limits, whole: Answer, derivation: Answer, nested: ExecutionTasks.RunResult,
                              final: Answer)
    requires !l.skipDerivation
    ensures FpvmProof(l, true, whole, derivation, nested, final) == Reported(Attempt(l, whole, true, true))
  {
    AttemptReports(l, whole, true, true);
  }

  /** The blocks that the complete attempt executed, as the nested scheduler gets them. */
  function TasksEnv(l: Limits, h: Hashing, args: Prover.Args, whole: Answer): ExecutionTasks.Env {
    ExecutionTasks.Env(h, args, l.executions, whole.executed)
  }

  ghost predicate PossibleTape(l: Limits, env: ExecutionTasks.Env, tape: nat -> ExecutionTasks.Event) {
    env.cache != [] && env.maxExecutions > 0 && ExecutionTasks.Initial(env).Some? ==>
      forall n: nat :: Possible(l, env, ExecutionTasks.Initial(env).value, Prefix(tape, n))
  }

  /** A whole job: its attempts, and between them the nested scheduler on any arrivals that its tasks may report; if it
      does not get there, the scheduler counts as disabled. */
  method ComputeFpvmProof(l: Limits, h: Hashing, args: Prover.Args, whole: Answer, derivation: Answer, final: Answer,
                          tape: nat -> ExecutionTasks.Event)
    returns (r: Report, nested: ExecutionTasks.RunResult)
    requires l.executions == 0 || whole.executed == [] || ExecutionTasks.Recorded(TasksEnv(l, h, args, whole))
    requires PossibleTape(l, TasksEnv(l, h, args, whole), tape)
    ensures var stitchingOnly := args.agreedOutput == args.claimedOutput;
            && r == FpvmProof(l, stitchingOnly, whole, derivation, nested, final)
            && (DividesWork(l, stitchingOnly, whole, derivation) ==> NestedOf(l, TasksEnv(l, h, args, whole), nested))
  {
    nested := ExecutionTasks.Disabled;
    var stitchingOnly := args.agreedOutput == args.claimedOutput;
    UnsoughtReports(l, derivation);
    var complete := Attempt(l, whole, !l.skipDerivation, stitchingOnly);
    if !Divisible(complete) {
      return Reported(complete), nested;
    }
    if l.executions == 0 {
      return Reported(Failed(OtherError(false))), nested;
    }
    if !l.skipDerivation {
      var derivationOnly := Attempt(l, derivation, false, false);
      if derivationOnly.Proven? || !derivationOnly.error.NotSeekingProof? {
        return Reported(derivationOnly), nested;
      }
    }
    ghost var env := TasksEnv(l, h, args, whole);
    var result, received :=
      ExecutionTasks.ProveExecutions(TasksEnv(l, h, args, whole), l.skipAwait, l.skipDerivation, tape);
    nested := result;
    if env.cache != [] {
      assert NestedOn(l, env, nested, Prefix(tape, received));
    }
    match result {
      case Disabled => r := Reported(Failed(OtherError(false)));
      case Exited(exit) =>
        r := if exit.Panicked? then Silent else Reported(Failed(ErrorOf(exit.outcome)));
      case NotAwaited => r := Reported(Failed(NotAwaitingProof));
      case ProvenWithoutDerivation(count) => r := Reported(Failed(DerivationProofError(count)));
      case Stitch(tasks) => r := Reported(Attempt(l, final, true, true));
    }
  }

  // ---------------------------------------------------------------------------------------------
  // Runs of the outer scheduler
  // ---------------------------------------------------------------------------------------------

  ghost predicate JobsReport(l: Limits, env: Prover.Env, tape: seq<Prover.Event>) {
    && env.skipStitching == (l.skipDerivation || l.skipAwait)
    && forall n :: 0 <= n < |tape| ==> JobMayReport(l, tape[n].1)
  }

  /** With proofs to stitch, nothing was dropped and every result is a proof; otherwise there is no result. */
  predicate AllOrNone(env: Prover.Env, s: Prover.Sched) {
    if env.skipStitching then s.results == []
    else s.dropped == [] && forall i :: 0 <= i < |s.results| ==> s.results[i].ok
  }

  /** The outer loop stops early only with an error, as no job is lost, panics only for want of a node to split with,
      and ends with a proof for every required job or with none at all. */
  lemma {:induction false} JobsRun(l: Limits, env: Prover.Env, s: Prover.Sched, tape: seq<Prover.Event>)
    requires JobsReport(l, env, tape) && AllOrNone(env, s) && Prover.Wait(env, s, tape).Some?
    ensures var last := Prover.Wait(env, s, tape).value;
            && (last.Stopped? && last.exit.Panicked? ==> !env.opNode)
            && (last.Running? ==> AllOrNone(env, last.s))
    decreases |tape|
  {
    if !Prover.Complete(s) && tape != [] {
      var d := Prover.Dispatch(s);
      var i := tape[0].0 % |d.inFlight|;
      var next := Prover.Receive(env, d, i, tape[0].1);
      if next.Running? {
        JobsRun(l, env, next.s, tape[1..]);
      }
    }
  }

  /** The arrivals are the reports of the jobs in question; a silent job never arrives. */
  ghost predicate Answered(env: Prover.Env, s: Prover.Sched, tape: seq<Prover.Event>, reports: Prover.Job -> Report)
    decreases |tape|
  {
    Prover.Complete(s) || tape == [] || Prover.Dispatch(s).inFlight == [] ||
    (var d := Prover.Dispatch(s);
     var i := tape[0].0 % |d.inFlight|;
     var report := reports(d.inFlight[i]);
     && report.Reported? && tape[0].1 == JobOutcome(report.r)
     && var next := Prover.Receive(env, d, i, tape[0].1);
        next.Running? ==> Answered(env, next.s, tape[1..], reports))
  }

  /** While a job is silent the loop does not get all its results: unless an error stops it, it waits forever. */
  lemma {:induction false} SilentJobBlocks(env: Prover.Env, s: Prover.Sched, tape: seq<Prover.Event>,
                                           reports: Prover.Job -> Report, job: Prover.Job)
    requires Prover.Coherent(env.chain) && Prover.Balanced(env, s) && Answered(env, s, tape, reports)
    requires job in Prover.Outstanding(s) && reports(job).Silent?
    ensures var last := Prover.Wait(env, s, tape);
            last.Some? && (last.value.Running? ==>
                             job in Prover.Outstanding(last.value.s) && !Prover.Complete(last.value.s))
    decreases |tape|
  {
    Prover.WaitKeeps(env, s, tape, 0, 0);
    if tape != [] {
      var d := Prover.Dispatch(s);
      Prover.DispatchKeeps(env, s);
      var i := tape[0].0 % |d.inFlight|;
      var next := Prover.Receive(env, d, i, tape[0].1);
      if next.Running? {
        StillOutstanding(env, d, i, tape[0].1, job);
        SilentJobBlocks(env, next.s, tape[1..], reports, job);
      }
    }
  }

  /** The arrival of another job's report leaves a job outstanding. */
  lemma StillOutstanding(env: Prover.Env, s: Prover.Sched, i: nat, outcome: Prover.Outcome, job: Prover.Job)
    requires Prover.Coherent(env.chain) && Prover.Balanced(env, s) && s.queue == [] && i < |s.inFlight|
    requires job in Prover.Outstanding(s) && s.inFlight[i] != job && Prover.Receive(env, s, i, outcome).Running?
    ensures var t := Prover.Receive(env, s, i, outcome).s;
            job in Prover.Outstanding(t) && Prover.Balanced(env, t)
  {
    Prover.ReceiveKeepsBalance(env, s, i, outcome);
    StillInFlight(s.inFlight, i, job);
  }

  lemma StillInFlight(jobs: seq<Prover.Job>, i: nat, job: Prover.Job)
    requires i < |jobs| && job in jobs && jobs[i] != job
    ensures job in RemoveAt(jobs, i)
  {
    assert jobs == jobs[..i] + [jobs[i]] + jobs[i + 1..];
  }

  /** The arrivals are reports, and with them the loop ends. */
  ghost predicate EndsOn(env: Prover.Env, s: Prover.Sched, tape: seq<Prover.Event>, reports: Prover.Job -> Report) {
    var last := Prover.Wait(env, s, tape);
    && Answered(env, s, tape, reports)
    && last.Some? && (last.value.Running? ==> Prover.Complete(last.value.s))
  }

  /** The arrival of the report of the i-th job in flight. */
  predicate ArrivesFrom(s: Prover.Sched, reports: Prover.Job -> Report, i: nat, e: Prover.Event) {
    var d := Prover.Dispatch(s);
    i < |d.inFlight| && e.0 == i && reports(d.inFlight[i]).Reported? && e.1 == JobOutcome(reports(d.inFlight[i]).r)
  }

  /** One arrival, and what follows on it. */
  lemma ArrivalFirst(env: Prover.Env, s: Prover.Sched, reports: Prover.Job -> Report, i: nat, e: Prover.Event,
                     next: Prover.Next, rest: seq<Prover.Event>)
    requires !Prover.Complete(s) && ArrivesFrom(s, reports, i, e)
    requires next == Prover.Receive(env, Prover.Dispatch(s), i, e.1)
    requires next.Running? ==> EndsOn(env, next.s, rest, reports)
    ensures EndsOn(env, s, [e] + rest, reports)
  {
    Slot(i, |Prover.Dispatch(s).inFlight|);
    WaitFirst(env, s, i, e, next, rest);
    AnsweredFirst(env, s, reports, i, e, next, rest);
  }

  lemma Slot(i: nat, n: nat)
    requires i < n
    ensures i % n == i
  {
  }

  lemma WaitFirst(env: Prover.Env, s: Prover.Sched, i: nat, e: Prover.Event, next: Prover.Next, rest: seq<Prover.Event>)
    requires !Prover.Complete(s) && i < |Prover.Dispatch(s).inFlight| && i == e.0 % |Prover.Dispatch(s).inFlight|
    requires next == Prover.Receive(env, Prover.Dispatch(s), i, e.1)
    ensures Prover.Wait(env, s, [e] + rest)
         == if next.Running? then Prover.Wait(env, next.s, rest) else Some(next)
  {
    assert ([e] + rest)[1..] == rest;
  }

  lemma AnsweredFirst(env: Prover.Env, s: Prover.Sched, reports: Prover.Job -> Report, i: nat, e: Prover.Event,
                      next: Prover.Next, rest: seq<Prover.Event>)
    requires ArrivesFrom(s, reports, i, e) && i == e.0 % |Prover.Dispatch(s).inFlight|
    requires next == Prover.Receive(env, Prover.Dispatch(s), i, e.1)
    requires next.Running? ==> Answered(env, next.s, rest, reports)
    ensures Answered(env, s, [e] + rest, reports)
  {
    assert ([e] + rest)[1..] == rest;
  }

  /** While the loop waits, whatever job in flight reports next, the loop ends or goes on with less work. */
  lemma NextArrival(env: Prover.Env, s: Prover.Sched, reports: Prover.Job -> Report)
    returns (e: Prover.Event, next: Prover.Next)
    requires Prover.Coherent(env.chain) && Prover.Balanced(env, s) && forall job :: reports(job).Reported?
    requires !Prover.Complete(s)
    ensures ArrivesFrom(s, reports, 0, e) && next == Prover.Receive(env, Prover.Dispatch(s), 0, e.1)
    ensures next.Running? ==> Prover.Balanced(env, next.s) && Prover.WorkLeft(env, next.s) < Prover.WorkLeft(env, s)
  {
    var d := Prover.Dispatch(s);
    Prover.DispatchKeeps(env, s);
    assert |d.inFlight| == |s.inFlight| + |s.queue|;
    e := (0, JobOutcome(reports(d.inFlight[0]).r));
    next := Prover.Receive(env, d, 0, e.1);
    if next.Running? {
      Prover.ReceiveKeepsBalance(env, d, 0, e.1);
    }
  }

  /** If every job reports, the reports end the loop. */
  lemma {:induction false} AllReportEnds(env: Prover.Env, s: Prover.Sched, reports: Prover.Job -> Report)
    returns (tape: seq<Prover.Event>)
    requires Prover.Coherent(env.chain) && Prover.Balanced(env, s) && forall job :: reports(job).Reported?
    ensures EndsOn(env, s, tape, reports)
    decreases Prover.WorkLeft(env, s)
  {
    tape := [];
    if !Prover.Complete(s) {
      var e, next := NextArrival(env, s, reports);
      var rest := [];
      if next.Running? {
        rest := AllReportEnds(env, next.s, reports);
      }
      ArrivalFirst(env, s, reports, 0, e, next, rest);
      tape := [e] + rest;
    }
  }

  /** For every run on what jobs report, if every proof delivered is a proof of its job: the whole range is proven. */
  lemma EveryJobsRunProvesRange(
      l: Limits, env: Prover.Env, proven: Stitching.Proven, k: nat, tape: seq<Prover.Event>, s: Prover.Sched)
    requires Prover.HonestStart(env) && Prover.Divides(env) && Prover.StopsAt(env, k) && !env.skipStitching
    requires env.args.claimedOutput == env.chain.output(env.args.claimedNumber)
    requires Prover.Distinct(env, Prover.Boundary(env, 0), env.args.claimedNumber)
    requires JobsReport(l, env, tape)
    requires Prover.Wait(env, Prover.Initial(env, k), tape) == Some(Prover.Running(s)) && Prover.Complete(s)
    requires forall i :: 0 <= i < |s.results| ==> proven(EncodePacked(Prover.JournalOf(env, s.results[i].job.args)))
    ensures match Prover.Finish(env, proven, s.results)
            case Composed(journal) => journal == Prover.JournalOf(env, env.args)
            case Alone(proofs) =>
              proofs == if Prover.Boundary(env, 0) == env.args.claimedNumber then []
                        else [BootInfoOf(Prover.JournalOf(env, env.args))]
            case _ => false
  {
    JobsRun(l, env, Prover.Initial(env, k), tape);
    Prover.EveryRunProvesRange(env, proven, k, tape, s);
  }
}
