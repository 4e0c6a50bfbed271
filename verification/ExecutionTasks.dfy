/** The nested scheduler over execution traces (crates/prover/src/tasks.rs). */
module ExecutionTasks {
  import opened Common
  import opened Journal
  import opened Stitching
  import opened Division
  import opened Sorting
  import opened Executions
  import Prover

  type Args = Prover.Args

  /** What the proving of one task reports. */
  datatype Outcome =
    | Proof
    | WitnessSizeError
    | ExecutionError
    | OtherError(insufficientL1Head: bool)
    | BlockCountError
    | NotSeekingProof
    | DerivationProofError
    | NotAwaitingProof

  /** An execution-only proving task: its arguments and the slice of the trace that it has to prove. */
  datatype Task = Task(args: Args, preconditionHash: B256, trace: seq<Execution>, forceAttempt: bool)

  /** The flattened trace of executed blocks that is divided, and the arguments of the surrounding proof. */
  datatype Env = Env(h: Hashing, args: Args, maxExecutions: nat, cache: seq<Execution>)

  // ---------------------------------------------------------------------------------------------
  // Creating tasks
  // ---------------------------------------------------------------------------------------------

  function FindAgreed(cache: seq<Execution>, root: B256): Option<Execution> {
    if cache == [] then None
    else if cache[0].agreedOutput == root then Some(cache[0])
    else FindAgreed(cache[1..], root)
  }

  function FindNumber(trace: seq<Execution>, number: nat): Option<Execution> {
    if trace == [] then None
    else if Number(trace[0]) == number then Some(trace[0])
    else FindNumber(trace[1..], number)
  }

  /** The executions of blocks after lo and up to hi. */
  function Between(cache: seq<Execution>, lo: int, hi: int): seq<Execution> {
    if cache == [] then []
    else (if lo < Number(cache[0]) <= hi then [cache[0]] else []) + Between(cache[1..], lo, hi)
  }

  /** No result stands for a panic: an unknown agreed output, or an underflow of block numbers. */
  function CreateTask(env: Env, args: Args): Option<Task> {
    match FindAgreed(env.cache, args.agreedOutput)
    case None => None
    case Some(first) =>
      var start := Number(first) - 1;
      if start < 0 || args.claimedNumber < start then None
      else
        var trace := Between(env.cache, start, args.claimedNumber);
        Some(Task(args, TraceHash(env.h, trace), trace, args.claimedNumber - start == 1))
  }

  /** A trace as the driver records it: consecutive blocks, each starting from the output of the one before. */
  ghost predicate Recorded(env: Env) {
    && env.maxExecutions > 0
    && env.cache != []
    && 1 <= Number(env.cache[0]) && Number(env.cache[0]) + |env.cache| <= TWO_64
    && (forall i :: 0 <= i < |env.cache| ==> Number(env.cache[i]) == Number(env.cache[0]) + i)
    && (forall i :: 0 < i < |env.cache| ==> env.cache[i].agreedOutput == env.cache[i - 1].claimedOutput)
    && (forall i, j :: 0 <= i < j < |env.cache| ==> env.cache[i].agreedOutput != env.cache[j].agreedOutput)
    && env.args.agreedOutput == env.cache[0].agreedOutput
    && env.args.claimedOutput == env.cache[|env.cache| - 1].claimedOutput
  }

  /** The block hash from which the task for a position starts. */
  function HashAt(env: Env, lo: nat): B256
    requires lo <= |env.cache|
  {
    if lo == 0 then env.args.agreedHash else env.cache[lo - 1].artifacts.header.hash
  }

  function ArgsFor(env: Env, lo: nat, hi: nat): Args
    requires lo < hi <= |env.cache|
  {
    env.args.(l1Head := ZERO, agreedOutput := env.cache[lo].agreedOutput, agreedHash := HashAt(env, lo),
              claimedOutput := env.cache[hi - 1].claimedOutput, claimedNumber := Number(env.cache[hi - 1]))
  }

  /** The task for positions lo to hi of the trace. */
  function TaskFor(env: Env, lo: nat, hi: nat): Task
    requires lo < hi <= |env.cache|
  {
    Task(ArgsFor(env, lo, hi), TraceHash(env.h, env.cache[lo..hi]), env.cache[lo..hi], hi - lo == 1)
  }

  lemma {:induction false} FindAgreedAt(cache: seq<Execution>, lo: nat)
    requires lo < |cache|
    requires forall i, j :: 0 <= i < j < |cache| ==> cache[i].agreedOutput != cache[j].agreedOutput
    ensures FindAgreed(cache, cache[lo].agreedOutput) == Some(cache[lo])
  {
    if lo > 0 {
      FindAgreedAt(cache[1..], lo - 1);
    }
  }

  /** The executions are those of the blocks after base, in order. */
  predicate Consecutive(cache: seq<Execution>, base: int) {
    forall i :: 0 <= i < |cache| ==> Number(cache[i]) == base + i + 1
  }

  lemma ConsecutiveRest(cache: seq<Execution>, base: int)
    requires cache != [] && Consecutive(cache, base)
    ensures Number(cache[0]) == base + 1 && Consecutive(cache[1..], base + 1)
  {
  }

  lemma {:induction false} BetweenIsPrefix(cache: seq<Execution>, base: int, hi: nat)
    requires hi <= |cache| && Consecutive(cache, base)
    ensures Between(cache, base, base + hi) == cache[..hi]
  {
    if hi == 0 {
      BetweenNothing(cache, base, base);
    } else {
      ConsecutiveRest(cache, base);
      BetweenIsPrefix(cache[1..], base + 1, hi - 1);
      BetweenFrom(cache[1..], base, base + hi);
      assert [cache[0]] + cache[1..][..hi - 1] == cache[..hi];
    }
  }

  lemma {:induction false} BetweenIsSlice(cache: seq<Execution>, base: int, lo: nat, hi: nat)
    requires lo <= hi <= |cache| && Consecutive(cache, base)
    ensures Between(cache, base + lo, base + hi) == cache[lo..hi]
  {
    if lo == 0 {
      BetweenIsPrefix(cache, base, hi);
    } else {
      ConsecutiveRest(cache, base);
      BetweenIsSlice(cache[1..], base + 1, lo - 1, hi - 1);
      BetweenRest(cache, base + lo, base + hi);
      SliceOfRest(cache, lo, hi);
    }
  }

  lemma BetweenRest(cache: seq<Execution>, lo: int, hi: int)
    requires cache != [] && Number(cache[0]) <= lo
    ensures Between(cache, lo, hi) == Between(cache[1..], lo, hi)
  {
  }

  lemma SliceOfRest<T>(s: seq<T>, lo: nat, hi: nat)
    requires 0 < lo <= hi <= |s|
    ensures s[1..][lo - 1..hi - 1] == s[lo..hi]
  {
  }

  lemma {:induction false} BetweenFrom(cache: seq<Execution>, lo: int, hi: int)
    requires forall i :: 0 <= i < |cache| ==> Number(cache[i]) != lo + 1
    ensures Between(cache, lo, hi) == Between(cache, lo + 1, hi)
  {
    if cache != [] {
      assert Number(cache[0]) != lo + 1;
      BetweenFrom(cache[1..], lo, hi);
    }
  }

  lemma {:induction false} BetweenNothing(cache: seq<Execution>, lo: int, hi: int)
    requires hi <= lo
    ensures Between(cache, lo, hi) == []
  {
    if cache != [] {
      BetweenNothing(cache[1..], lo, hi);
    }
  }

  lemma {:induction false} FindNumberAt(trace: seq<Execution>, k: nat)
    requires k < |trace| && forall i, j :: 0 <= i < j < |trace| ==> Number(trace[i]) != Number(trace[j])
    ensures FindNumber(trace, Number(trace[k])) == Some(trace[k])
  {
    if k > 0 {
      FindNumberAt(trace[1..], k - 1);
    }
  }

  /** For a recorded trace, a task is cut out exactly between its agreed output and its claimed block. */
  lemma CreatedTask(env: Env, lo: nat, hi: nat)
    requires Recorded(env) && lo < hi <= |env.cache|
    ensures CreateTask(env, ArgsFor(env, lo, hi)) == Some(TaskFor(env, lo, hi))
  {
    FindAgreedAt(env.cache, lo);
    BetweenIsSlice(env.cache, Number(env.cache[0]) - 1, lo, hi);
  }

  // ---------------------------------------------------------------------------------------------
  // The chunk loop
  // ---------------------------------------------------------------------------------------------

  /** The agreed output with which the loop arrives at a position. */
  function RootAt(env: Env, lo: nat): B256
    requires lo <= |env.cache|
  {
    if lo == 0 then env.args.agreedOutput else env.cache[lo - 1].claimedOutput
  }

  function ChunkArgs(env: Env, lo: nat, hi: nat): Args
    requires lo < hi <= |env.cache|
  {
    ArgsFor(env, lo, hi).(agreedOutput := RootAt(env, lo))
  }

  /** The tasks queued from a position on, and the position where the loop ends. */
  function ChunkTasks(env: Env, lo: nat): Option<(seq<Task>, nat)>
    requires lo < |env.cache| && env.maxExecutions > 0
    decreases |env.cache| - lo
  {
    if RootAt(env, lo) == env.args.claimedOutput then Some(([], lo))
    else
      var hi := Min(lo + env.maxExecutions, |env.cache|);
      match CreateTask(env, ChunkArgs(env, lo, hi))
      case None => None
      case Some(task) =>
        if hi == |env.cache| then Some(([task], hi))
        else
          match ChunkTasks(env, hi)
          case None => None
          case Some((tasks, end)) => Some(([task] + tasks, end))
  }

  function TaskSpan(env: Env, t: Task): Span {
    if env.cache == [] || t.trace == [] || Number(t.trace[0]) < Number(env.cache[0]) then Span(0, 0)
    else
      var lo: nat := Number(t.trace[0]) - Number(env.cache[0]);
      Span(lo, lo + |t.trace|)
  }

  function Spanner(env: Env): Task -> Span {
    t => TaskSpan(env, t)
  }

  /** The task is the one for its span of the trace. */
  ghost predicate Honest(env: Env, t: Task) {
    var x := TaskSpan(env, t);
    x.lo < x.hi <= |env.cache| && t == TaskFor(env, x.lo, x.hi)
  }

  lemma TaskForIsHonest(env: Env, lo: nat, hi: nat)
    requires Recorded(env) && lo < hi <= |env.cache|
    ensures Honest(env, TaskFor(env, lo, hi)) && TaskSpan(env, TaskFor(env, lo, hi)) == Span(lo, hi)
  {
  }

  lemma ChunkCreated(env: Env, lo: nat, hi: nat)
    requires Recorded(env) && lo < hi <= |env.cache|
    ensures CreateTask(env, ChunkArgs(env, lo, hi)) == Some(TaskFor(env, lo, hi))
    ensures Honest(env, TaskFor(env, lo, hi)) && TaskSpan(env, TaskFor(env, lo, hi)) == Span(lo, hi)
  {
    assert ChunkArgs(env, lo, hi) == ArgsFor(env, lo, hi);
    CreatedTask(env, lo, hi);
    TaskForIsHonest(env, lo, hi);
  }

  /** Honest tasks for consecutive spans between two positions. */
  ghost predicate ChunksFrom(env: Env, lo: nat, tasks: seq<Task>, end: nat) {
    && lo <= end <= |env.cache|
    && Linked(Map(Spanner(env), tasks), lo, end)
    && forall t :: t in tasks ==> Honest(env, t)
  }

  lemma ChunksCons(env: Env, lo: nat, hi: nat, task: Task, tasks: seq<Task>, end: nat)
    requires lo < hi && Honest(env, task) && TaskSpan(env, task) == Span(lo, hi)
    requires ChunksFrom(env, hi, tasks, end)
    ensures ChunksFrom(env, lo, [task] + tasks, end)
  {
    assert Map(Spanner(env), [task] + tasks)[1..] == Map(Spanner(env), tasks);
  }

  lemma ChunkTasksCons(env: Env, lo: nat, task: Task)
    requires lo < |env.cache| && env.maxExecutions > 0 && RootAt(env, lo) != env.args.claimedOutput
    requires CreateTask(env, ChunkArgs(env, lo, Min(lo + env.maxExecutions, |env.cache|))) == Some(task)
    ensures var hi := Min(lo + env.maxExecutions, |env.cache|);
            ChunkTasks(env, lo) ==
              if hi == |env.cache| then Some(([task], hi))
              else if ChunkTasks(env, hi).None? then None
              else Some(([task] + ChunkTasks(env, hi).value.0, ChunkTasks(env, hi).value.1))
  {
  }

  lemma ChunkTasksStep(env: Env, lo: nat)
    requires Recorded(env) && lo < |env.cache| && RootAt(env, lo) != env.args.claimedOutput
    ensures var hi := Min(lo + env.maxExecutions, |env.cache|);
            ChunkTasks(env, lo) ==
              if hi == |env.cache| then Some(([TaskFor(env, lo, hi)], hi))
              else if ChunkTasks(env, hi).None? then None
              else Some(([TaskFor(env, lo, hi)] + ChunkTasks(env, hi).value.0, ChunkTasks(env, hi).value.1))
  {
    var hi := Min(lo + env.maxExecutions, |env.cache|);
    ChunkCreated(env, lo, hi);
    ChunkTasksCons(env, lo, TaskFor(env, lo, hi));
  }

  lemma {:induction false} ChunksCover(env: Env, lo: nat)
    requires Recorded(env) && lo < |env.cache|
    ensures ChunkTasks(env, lo).Some?
    ensures ChunksFrom(env, lo, ChunkTasks(env, lo).value.0, ChunkTasks(env, lo).value.1)
    decreases |env.cache| - lo
  {
    if RootAt(env, lo) != env.args.claimedOutput {
      var hi := Min(lo + env.maxExecutions, |env.cache|);
      ChunkTasksStep(env, lo);
      ChunkCreated(env, lo, hi);
      if hi < |env.cache| {
        ChunksCover(env, hi);
        ChunksCons(env, lo, hi, TaskFor(env, lo, hi), ChunkTasks(env, hi).value.0, ChunkTasks(env, hi).value.1);
      } else {
        LastChunk(env, lo, hi, TaskFor(env, lo, hi));
      }
    } else {
      assert ChunkTasks(env, lo) == Some(([], lo));
    }
  }

  lemma LastChunk(env: Env, lo: nat, hi: nat, task: Task)
    requires lo < hi <= |env.cache| && Honest(env, task) && TaskSpan(env, task) == Span(lo, hi)
    ensures ChunksFrom(env, lo, [task], hi)
  {
    assert Map(Spanner(env), [task])[1..] == [];
  }

  /** The positions before which the loop compares its agreed output with the claimed output. */
  ghost predicate IsBoundary(env: Env, lo: nat, p: nat)
    requires env.maxExecutions > 0
    decreases |env.cache| - lo
  {
    lo < |env.cache| && (p == lo || IsBoundary(env, Min(lo + env.maxExecutions, |env.cache|), p))
  }

  /** The tasks reach the end of the trace iff no boundary before it carries the claimed output. */
  lemma {:induction false} ChunksReachEndIff(env: Env, lo: nat)
    requires Recorded(env) && lo < |env.cache|
    ensures ChunkTasks(env, lo).Some?
    ensures ChunkTasks(env, lo).value.1 == |env.cache|
       <==> forall p: nat :: p < |env.cache| && IsBoundary(env, lo, p) ==> RootAt(env, p) != env.args.claimedOutput
    decreases |env.cache| - lo
  {
    ChunksCover(env, lo);
    var hi := Min(lo + env.maxExecutions, |env.cache|);
    UnclaimedStep(env, lo);
    if RootAt(env, lo) != env.args.claimedOutput {
      ChunkTasksStep(env, lo);
      if hi < |env.cache| {
        ChunksReachEndIff(env, hi);
        assert ChunkTasks(env, lo).value.1 == |env.cache| <==> Unclaimed(env, hi);
      }
    }
  }

  /** No boundary from here on carries the claimed output. */
  ghost predicate Unclaimed(env: Env, lo: nat)
    requires env.maxExecutions > 0
  {
    forall p: nat :: p < |env.cache| && IsBoundary(env, lo, p) ==> RootAt(env, p) != env.args.claimedOutput
  }

  lemma UnclaimedStep(env: Env, lo: nat)
    requires env.maxExecutions > 0 && lo < |env.cache|
    ensures Unclaimed(env, lo) <==>
              && RootAt(env, lo) != env.args.claimedOutput
              && Unclaimed(env, Min(lo + env.maxExecutions, |env.cache|))
  {
    var hi: nat := Min(lo + env.maxExecutions, |env.cache|);
    assert IsBoundary(env, lo, lo);
    assert forall p: nat :: IsBoundary(env, lo, p) <==> p == lo || IsBoundary(env, hi, p);
  }

  /** Distinct agreed outputs alone do not suffice: of three blocks, the last of which leads back to the output after
      the first, only the first gets a task. */
  lemma ReturningTraceGetsOneTask(h: Hashing, result: BlockResult, attributes: Attributes)
    ensures var e1 := Execution(5, attributes, Artifacts(Header(11, 1, 0, 0), result), 6);
            var e2 := Execution(6, attributes, Artifacts(Header(12, 2, 0, 0), result), 7);
            var e3 := Execution(7, attributes, Artifacts(Header(13, 3, 0, 0), result), 6);
            var env := Env(h, Prover.Args.Args(1, 5, 10, 6, 3), 1, [e1, e2, e3]);
            Recorded(env) && ChunkTasks(env, 0) == Some(([TaskFor(env, 0, 1)], 1))
  {
    var e1 := Execution(5, attributes, Artifacts(Header(11, 1, 0, 0), result), 6);
    var e2 := Execution(6, attributes, Artifacts(Header(12, 2, 0, 0), result), 7);
    var e3 := Execution(7, attributes, Artifacts(Header(13, 3, 0, 0), result), 6);
    var env := Env(h, Prover.Args.Args(1, 5, 10, 6, 3), 1, [e1, e2, e3]);
    ChunkCreated(env, 0, 1);
    assert ChunkTasks(env, 1) == Some(([], 1));
    assert [TaskFor(env, 0, 1)] + [] == [TaskFor(env, 0, 1)];
  }

  // ---------------------------------------------------------------------------------------------
  // Waiting for results
  // ---------------------------------------------------------------------------------------------

  /** Every queued task is in flight; results are those that brought a proof. */
  datatype Sched = Sched(numProofs: int, inFlight: seq<Task>, results: seq<Task>, dropped: seq<Task>)

  datatype Exit = Failed(outcome: Outcome) | Panicked

  datatype Next = Running(s: Sched) | Stopped(exit: Exit)

  /** Both halves of a task, cut at the midpoint of its blocks; no result stands for a panic. */
  function Halves(env: Env, task: Task): Option<(Task, Task)>
    requires task.trace != []
  {
    var agreed := Number(task.trace[0]) - 1;
    var mid := agreed + (task.args.claimedNumber - agreed) / 2;
    if mid < 0 then None
    else
      match FindNumber(task.trace, mid)
      case None => None
      case Some(e) =>
        var lower := CreateTask(env, task.args.(claimedOutput := e.claimedOutput, claimedNumber := Number(e)));
        var upper := CreateTask(env, task.args.(agreedOutput := e.claimedOutput, agreedHash := e.artifacts.header.hash));
        if lower.None? || upper.None? then None else Some((lower.value, upper.value))
  }

  /** The result of the i-th task in flight arrives; a failure first adds one required proof. */
  function Receive(env: Env, s: Sched, i: nat, outcome: Outcome): Next
    requires i < |s.inFlight|
  {
    var task := s.inFlight[i];
    var s' := s.(inFlight := RemoveAt(s.inFlight, i));
    if outcome.Proof? then Running(s'.(results := s.results + [task]))
    else if task.trace == [] || Number(task.trace[0]) == 0 || task.args.claimedNumber < Number(task.trace[0]) - 1 then
      Stopped(Panicked)
    else
      var forced := task.args.claimedNumber - (Number(task.trace[0]) - 1) == 1;
      match outcome
      case OtherError(_) => Stopped(Failed(outcome))
      case NotAwaitingProof => Running(s'.(numProofs := s.numProofs + 1 - 2, dropped := s.dropped + [task]))
      case WitnessSizeError => if forced then Stopped(Failed(outcome)) else SplitTask(env, s', task)
      case ExecutionError => if forced then Stopped(Failed(outcome)) else SplitTask(env, s', task)
      case _ => Stopped(Panicked)
  }

  function SplitTask(env: Env, s: Sched, task: Task): Next
    requires task.trace != []
  {
    match Halves(env, task)
    case None => Stopped(Panicked)
    case Some((lower, upper)) => Running(s.(numProofs := s.numProofs + 1, inFlight := s.inFlight + [lower, upper]))
  }

  type Event = (nat, Outcome)

  predicate Complete(s: Sched) {
    |s.results| >= s.numProofs
  }

  /** The waiting loop on a sequence of arrivals; without a result it would wait forever. */
  function Wait(env: Env, s: Sched, tape: seq<Event>): Option<Next>
    decreases |tape|
  {
    if Complete(s) || tape == [] then Some(Running(s))
    else if s.inFlight == [] then None
    else
      match Receive(env, s, tape[0].0 % |s.inFlight|, tape[0].1)
      case Running(s') => Wait(env, s', tape[1..])
      case Stopped(exit) => Some(Stopped(exit))
  }

  function AllTasks(s: Sched): seq<Task> {
    s.inFlight + s.results + s.dropped
  }

  ghost predicate AllHonest(env: Env, tasks: seq<Task>) {
    forall t :: t in tasks ==> Honest(env, t)
  }

  /** The counter is balanced, and all tasks together are honest tasks for the trace up to c, each part once. */
  ghost predicate Inv(env: Env, s: Sched, c: nat) {
    && s.numProofs == |s.inFlight| + |s.results|
    && AllHonest(env, AllTasks(s))
    && Covered(Spanner(env), AllTasks(s), 0, c)
  }

  ghost function WorkLeft(env: Env, s: Sched): nat {
    Work(Map(Spanner(env), s.inFlight))
  }

  lemma TaskForUnforced(env: Env, lo: nat, hi: nat)
    requires Recorded(env) && lo < hi <= |env.cache|
    ensures var t := TaskFor(env, lo, hi);
            && t.trace != [] && Number(t.trace[0]) == Number(env.cache[0]) + lo
            && t.args.claimedNumber - (Number(t.trace[0]) - 1) == hi - lo
  {
  }

  lemma MidExecution(env: Env, lo: nat, mid: nat, hi: nat)
    requires Recorded(env) && lo < mid < hi <= |env.cache|
    ensures FindNumber(env.cache[lo..hi], Number(env.cache[mid - 1])) == Some(env.cache[mid - 1])
  {
    assert env.cache[lo..hi][mid - 1 - lo] == env.cache[mid - 1];
    FindNumberAt(env.cache[lo..hi], mid - 1 - lo);
  }

  lemma HalfArgs(env: Env, lo: nat, mid: nat, hi: nat)
    requires Recorded(env) && lo < mid < hi <= |env.cache|
    ensures var args, e := ArgsFor(env, lo, hi), env.cache[mid - 1];
            && args.(claimedOutput := e.claimedOutput, claimedNumber := Number(e)) == ArgsFor(env, lo, mid)
            && args.(agreedOutput := e.claimedOutput, agreedHash := e.artifacts.header.hash) == ArgsFor(env, mid, hi)
  {
  }

  /** The halves of an honest task of several blocks are the honest tasks for both sides of the midpoint. */
  lemma HalvesOf(env: Env, lo: nat, hi: nat)
    requires Recorded(env) && lo + 1 < hi <= |env.cache|
    ensures var mid := lo + (hi - lo) / 2;
            lo < mid < hi && Halves(env, TaskFor(env, lo, hi)) == Some((TaskFor(env, lo, mid), TaskFor(env, mid, hi)))
  {
    var mid := lo + (hi - lo) / 2;
    TaskForUnforced(env, lo, hi);
    MidExecution(env, lo, mid, hi);
    HalfArgs(env, lo, mid, hi);
    CreatedTask(env, lo, mid);
    CreatedTask(env, mid, hi);
    HalvesAt(env, TaskFor(env, lo, hi), env.cache[mid - 1], TaskFor(env, lo, mid), TaskFor(env, mid, hi));
  }

  lemma HalvesAt(env: Env, task: Task, e: Execution, lower: Task, upper: Task)
    requires task.trace != []
    requires Number(e) == Number(task.trace[0]) - 1 + (task.args.claimedNumber - (Number(task.trace[0]) - 1)) / 2
    requires FindNumber(task.trace, Number(e)) == Some(e)
    requires CreateTask(env, task.args.(claimedOutput := e.claimedOutput, claimedNumber := Number(e))) == Some(lower)
    requires CreateTask(env, task.args.(agreedOutput := e.claimedOutput, agreedHash := e.artifacts.header.hash)) == Some(upper)
    ensures Halves(env, task) == Some((lower, upper))
  {
  }

  /** An honest task in flight never panics the loop; what its failure does depends on its number of blocks. */
  lemma ReceiveHonest(env: Env, s: Sched, i: nat, outcome: Outcome)
    requires Recorded(env) && i < |s.inFlight| && Honest(env, s.inFlight[i])
    ensures var task, x := s.inFlight[i], TaskSpan(env, s.inFlight[i]);
            var s' := s.(inFlight := RemoveAt(s.inFlight, i));
            Receive(env, s, i, outcome) ==
              match outcome
              case Proof => Running(s'.(results := s.results + [task]))
              case OtherError(_) => Stopped(Failed(outcome))
              case NotAwaitingProof => Running(s'.(numProofs := s.numProofs - 1, dropped := s.dropped + [task]))
              case WitnessSizeError =>
                if x.hi - x.lo == 1 then Stopped(Failed(outcome)) else SplitTask(env, s', task)
              case ExecutionError =>
                if x.hi - x.lo == 1 then Stopped(Failed(outcome)) else SplitTask(env, s', task)
              case _ => Stopped(Panicked)
  {
    var x := TaskSpan(env, s.inFlight[i]);
    TaskForUnforced(env, x.lo, x.hi);
  }

  lemma MembersOfBag<T>(s: seq<T>, t: seq<T>)
    requires multiset(s) == multiset(t)
    ensures forall x :: x in s <==> x in t
  {
    assert forall x :: x in s <==> x in multiset(s);
  }

  lemma SameTasksInv(env: Env, s: Sched, t: Sched, c: nat)
    requires Inv(env, s, c) && multiset(AllTasks(t)) == multiset(AllTasks(s))
    requires t.numProofs == |t.inFlight| + |t.results|
    ensures Inv(env, t, c)
  {
    MembersOfBag(AllTasks(s), AllTasks(t));
    CoveredSame(Spanner(env), AllTasks(s), AllTasks(t), 0, c);
  }

  lemma SplitTaskInv(env: Env, s: Sched, t: Sched, others: seq<Task>, task: Task, lower: Task, upper: Task, c: nat)
    requires Recorded(env) && Inv(env, s, c) && t.numProofs == |t.inFlight| + |t.results|
    requires multiset(AllTasks(s)) == multiset(others + [task])
    requires multiset(AllTasks(t)) == multiset(others + [lower, upper])
    requires Honest(env, lower) && Honest(env, upper)
    requires var x, l, u := TaskSpan(env, task), TaskSpan(env, lower), TaskSpan(env, upper);
             l.lo == x.lo && l.hi == u.lo && u.hi == x.hi
    ensures Inv(env, t, c)
  {
    MembersOfBag(AllTasks(s), others + [task]);
    MembersOfBag(AllTasks(t), others + [lower, upper]);
    CoveredSame(Spanner(env), AllTasks(s), others + [task], 0, c);
    CoveredSplit(Spanner(env), others, task, lower, upper, 0, c);
    CoveredSame(Spanner(env), others + [lower, upper], AllTasks(t), 0, c);
  }

  lemma WithoutTask(s: Sched, i: nat)
    requires i < |s.inFlight|
    ensures multiset(AllTasks(s)) == multiset(RemoveAt(s.inFlight, i) + s.results + s.dropped + [s.inFlight[i]])
  {
  }

  lemma SplitKeepsWith(env: Env, s: Sched, t: Sched, i: nat, lower: Task, upper: Task, c: nat)
    requires Recorded(env) && Inv(env, s, c) && i < |s.inFlight|
    requires Honest(env, lower) && Honest(env, upper)
    requires var x, l, u := TaskSpan(env, s.inFlight[i]), TaskSpan(env, lower), TaskSpan(env, upper);
             l.lo == x.lo < l.hi == u.lo < u.hi == x.hi
    requires t.numProofs == s.numProofs + 1 && t.inFlight == RemoveAt(s.inFlight, i) + [lower, upper]
    requires t.results == s.results && t.dropped == s.dropped
    ensures Inv(env, t, c) && WorkLeft(env, t) < WorkLeft(env, s)
  {
    var others := RemoveAt(s.inFlight, i) + s.results + s.dropped;
    WithoutTask(s, i);
    assert multiset(AllTasks(t)) == multiset(others + [lower, upper]);
    SplitTaskInv(env, s, t, others, s.inFlight[i], lower, upper, c);
    SplitTaskWork(env, s.inFlight, i, lower, upper);
  }

  lemma HalvesHonest(env: Env, lo: nat, mid: nat, hi: nat)
    requires Recorded(env) && lo < mid < hi <= |env.cache|
    ensures Honest(env, TaskFor(env, lo, mid)) && Honest(env, TaskFor(env, mid, hi))
    ensures TaskSpan(env, TaskFor(env, lo, hi)) == Span(lo, hi)
    ensures TaskSpan(env, TaskFor(env, lo, mid)) == Span(lo, mid)
    ensures TaskSpan(env, TaskFor(env, mid, hi)) == Span(mid, hi)
  {
    TaskForIsHonest(env, lo, hi);
    TaskForIsHonest(env, lo, mid);
    TaskForIsHonest(env, mid, hi);
  }

  /** The state after a task was replaced by its halves. */
  function Halved(s: Sched, i: nat, lower: Task, upper: Task): Sched
    requires i < |s.inFlight|
  {
    s.(numProofs := s.numProofs + 1, inFlight := RemoveAt(s.inFlight, i) + [lower, upper])
  }

  lemma SplitTaskWork(env: Env, tasks: seq<Task>, i: nat, lower: Task, upper: Task)
    requires i < |tasks|
    requires var x, l, u := TaskSpan(env, tasks[i]), TaskSpan(env, lower), TaskSpan(env, upper);
             l.lo == x.lo < l.hi == u.lo < u.hi == x.hi
    ensures Work(Map(Spanner(env), RemoveAt(tasks, i) + [lower, upper])) < Work(Map(Spanner(env), tasks))
  {
    var rest := RemoveAt(tasks, i);
    WorkRemoved(Spanner(env), tasks, i);
    MapConcat(Spanner(env), rest, [lower, upper]);
    WorkConcat(Map(Spanner(env), rest), Map(Spanner(env), [lower, upper]));
    assert Map(Spanner(env), [lower, upper])[1..] == [TaskSpan(env, upper)];
    assert Work([TaskSpan(env, upper)]) == Weight(TaskSpan(env, upper)) + Work([TaskSpan(env, upper)][1..]);
  }

  predicate Splits(outcome: Outcome) {
    outcome.WitnessSizeError? || outcome.ExecutionError?
  }

  lemma FailureSplits(env: Env, s: Sched, i: nat, outcome: Outcome, lo: nat, hi: nat)
    requires Recorded(env) && i < |s.inFlight| && lo < hi <= |env.cache| && s.inFlight[i] == TaskFor(env, lo, hi)
    requires Splits(outcome)
    ensures Receive(env, s, i, outcome) ==
            if hi - lo == 1 then Stopped(Failed(outcome))
            else SplitTask(env, s.(inFlight := RemoveAt(s.inFlight, i)), s.inFlight[i])
  {
    TaskForUnforced(env, lo, hi);
  }

  lemma SplitIsHalved(env: Env, s: Sched, i: nat, lo: nat, mid: nat, hi: nat)
    requires Recorded(env) && i < |s.inFlight| && lo + 1 < hi <= |env.cache| && s.inFlight[i] == TaskFor(env, lo, hi)
    requires mid == lo + (hi - lo) / 2
    ensures lo < mid < hi
    ensures SplitTask(env, s.(inFlight := RemoveAt(s.inFlight, i)), s.inFlight[i])
         == Running(Halved(s, i, TaskFor(env, lo, mid), TaskFor(env, mid, hi)))
  {
    HalvesOf(env, lo, hi);
  }

  /** A failure of a task of several blocks keeps the loop running, on the tasks for the two halves of its blocks. */
  lemma FailedTaskHalved(env: Env, s: Sched, i: nat, outcome: Outcome, lo: nat, hi: nat)
    requires Recorded(env) && i < |s.inFlight| && lo + 1 < hi <= |env.cache| && s.inFlight[i] == TaskFor(env, lo, hi)
    requires Splits(outcome)
    ensures var mid := lo + (hi - lo) / 2;
            && lo < mid < hi
            && Receive(env, s, i, outcome)
               == Running(s.(numProofs := s.numProofs + 1,
                             inFlight := RemoveAt(s.inFlight, i) + [TaskFor(env, lo, mid), TaskFor(env, mid, hi)]))
  {
    FailureSplits(env, s, i, outcome, lo, hi);
    SplitIsHalved(env, s, i, lo, lo + (hi - lo) / 2, hi);
  }

  /** Exactly these reports of an honest task stop the loop: an error beyond division, or an outcome that cannot be. */
  lemma TaskStopsIff(env: Env, s: Sched, i: nat, outcome: Outcome)
    requires Recorded(env) && i < |s.inFlight| && Honest(env, s.inFlight[i])
    ensures var next, x := Receive(env, s, i, outcome), TaskSpan(env, s.inFlight[i]);
            && (next.Stopped? <==>
                  || outcome.OtherError? || outcome.BlockCountError? || outcome.NotSeekingProof?
                  || outcome.DerivationProofError? || (Splits(outcome) && x.lo + 1 == x.hi))
            && (next.Stopped? ==>
                  next.exit == if outcome.OtherError? || Splits(outcome) then Failed(outcome) else Panicked)
  {
    ReceiveHonest(env, s, i, outcome);
    var x := TaskSpan(env, s.inFlight[i]);
    if Splits(outcome) && x.lo + 1 < x.hi {
      FailedTaskHalved(env, s, i, outcome, x.lo, x.hi);
    }
  }

  /** As many blocks as allowed, or fewer up to the end of the trace. */
  predicate FullOrLast(env: Env, x: Span) {
    x.lo < x.hi <= |env.cache| && (x.hi == x.lo + env.maxExecutions || x.hi == |env.cache| < x.lo + env.maxExecutions)
  }

  /** The tasks from a boundary on that does not carry the claimed output. */
  ghost predicate TasksFollow(env: Env, lo: nat, hi: nat, tasks: seq<Task>)
    requires Recorded(env) && lo < hi <= |env.cache|
  {
    if hi == |env.cache| then tasks == [TaskFor(env, lo, hi)]
    else ChunkTasks(env, hi).Some? && tasks == [TaskFor(env, lo, hi)] + ChunkTasks(env, hi).value.0
  }

  lemma TasksFromHere(env: Env, lo: nat)
    requires Recorded(env) && lo < |env.cache| && ChunkTasks(env, lo).Some? && ChunkTasks(env, lo).value.0 != []
    ensures TasksFollow(env, lo, Min(lo + env.maxExecutions, |env.cache|), ChunkTasks(env, lo).value.0)
  {
    assert RootAt(env, lo) != env.args.claimedOutput;
    ChunkTasksStep(env, lo);
  }

  /** Every task that is queued has as many blocks as allowed, but for the last one of the trace. */
  lemma {:induction false} ChunkTaskSizes(env: Env, lo: nat)
    requires Recorded(env) && lo < |env.cache| && ChunkTasks(env, lo).Some?
    ensures forall t :: t in ChunkTasks(env, lo).value.0 ==> FullOrLast(env, TaskSpan(env, t))
    decreases |env.cache| - lo
  {
    var hi, tasks := Min(lo + env.maxExecutions, |env.cache|), ChunkTasks(env, lo).value.0;
    if tasks != [] {
      TasksFromHere(env, lo);
      TaskForIsHonest(env, lo, hi);
      assert FullOrLast(env, TaskSpan(env, TaskFor(env, lo, hi)));
      if hi < |env.cache| {
        ChunkTaskSizes(env, hi);
      }
    }
  }

  lemma ReceiveIsSplit(env: Env, s: Sched, i: nat, outcome: Outcome, lo: nat, mid: nat, hi: nat)
    requires Recorded(env) && i < |s.inFlight| && lo < hi <= |env.cache| && s.inFlight[i] == TaskFor(env, lo, hi)
    requires Splits(outcome) && Receive(env, s, i, outcome).Running? && mid == lo + (hi - lo) / 2
    ensures lo < mid < hi
    ensures Receive(env, s, i, outcome) == Running(Halved(s, i, TaskFor(env, lo, mid), TaskFor(env, mid, hi)))
  {
    FailureSplits(env, s, i, outcome, lo, hi);
    SplitIsHalved(env, s, i, lo, mid, hi);
  }

  lemma SplitArrivalKeeps(env: Env, s: Sched, i: nat, outcome: Outcome, lo: nat, mid: nat, hi: nat, c: nat)
    requires Recorded(env) && Inv(env, s, c)
    requires i < |s.inFlight| && lo < hi <= |env.cache| && s.inFlight[i] == TaskFor(env, lo, hi)
    requires Splits(outcome) && Receive(env, s, i, outcome).Running? && mid == lo + (hi - lo) / 2
    ensures Inv(env, Receive(env, s, i, outcome).s, c)
    ensures WorkLeft(env, Receive(env, s, i, outcome).s) < WorkLeft(env, s)
  {
    ReceiveIsSplit(env, s, i, outcome, lo, mid, hi);
    HalvesHonest(env, lo, mid, hi);
    var lower, upper := TaskFor(env, lo, mid), TaskFor(env, mid, hi);
    SplitKeepsWith(env, s, Halved(s, i, lower, upper), i, lower, upper, c);
    KeptBy(env, s, Receive(env, s, i, outcome), Halved(s, i, lower, upper), c);
  }

  lemma KeptBy(env: Env, s: Sched, next: Next, t: Sched, c: nat)
    requires next == Running(t) && Inv(env, t, c) && WorkLeft(env, t) < WorkLeft(env, s)
    ensures Inv(env, next.s, c) && WorkLeft(env, next.s) < WorkLeft(env, s)
  {
  }

  lemma PlainArrivalKeeps(env: Env, s: Sched, i: nat, outcome: Outcome, c: nat)
    requires Recorded(env) && Inv(env, s, c) && i < |s.inFlight| && Honest(env, s.inFlight[i])
    requires !Splits(outcome)
    requires Receive(env, s, i, outcome).Running?
    ensures Inv(env, Receive(env, s, i, outcome).s, c)
    ensures WorkLeft(env, Receive(env, s, i, outcome).s) < WorkLeft(env, s)
  {
    ReceiveHonest(env, s, i, outcome);
    PlainKeeps(env, s, Receive(env, s, i, outcome).s, i, outcome.Proof?, c);
  }

  /** Every arrival keeps the invariant and leaves less work. */
  lemma ReceiveKeeps(env: Env, s: Sched, i: nat, outcome: Outcome, c: nat)
    requires Recorded(env) && Inv(env, s, c) && i < |s.inFlight|
    requires Receive(env, s, i, outcome).Running?
    ensures Inv(env, Receive(env, s, i, outcome).s, c)
    ensures WorkLeft(env, Receive(env, s, i, outcome).s) < WorkLeft(env, s)
  {
    assert s.inFlight[i] in AllTasks(s);
    if Splits(outcome) {
      var x := TaskSpan(env, s.inFlight[i]);
      SplitArrivalKeeps(env, s, i, outcome, x.lo, x.lo + (x.hi - x.lo) / 2, x.hi, c);
    } else {
      PlainArrivalKeeps(env, s, i, outcome, c);
    }
  }

  lemma PlainKeeps(env: Env, s: Sched, t: Sched, i: nat, proof: bool, c: nat)
    requires Inv(env, s, c) && i < |s.inFlight| && t.inFlight == RemoveAt(s.inFlight, i)
    requires t.results == s.results + if proof then [s.inFlight[i]] else []
    requires t.dropped == s.dropped + if proof then [] else [s.inFlight[i]]
    requires t.numProofs == if proof then s.numProofs else s.numProofs - 1
    ensures Inv(env, t, c) && WorkLeft(env, t) < WorkLeft(env, s)
  {
    PlainTasks(s, t, i, proof);
    SameTasksInv(env, s, t, c);
    WorkRemoved(Spanner(env), s.inFlight, i);
  }

  lemma PlainTasks(s: Sched, t: Sched, i: nat, proof: bool)
    requires i < |s.inFlight| && t.inFlight == RemoveAt(s.inFlight, i)
    requires t.results == s.results + if proof then [s.inFlight[i]] else []
    requires t.dropped == s.dropped + if proof then [] else [s.inFlight[i]]
    ensures multiset(AllTasks(t)) == multiset(AllTasks(s))
  {
    WithoutTask(s, i);
  }

  /** For every sequence of arrivals: never waiting in vain, everything covered, and as few results as there was work. */
  lemma {:induction false} WaitKeeps(env: Env, s: Sched, tape: seq<Event>, c: nat)
    requires Recorded(env) && Inv(env, s, c)
    ensures Wait(env, s, tape).Some?
    ensures var r := Wait(env, s, tape).value;
            r.Running? ==> Inv(env, r.s, c) && (Complete(r.s) || |tape| + WorkLeft(env, r.s) <= WorkLeft(env, s))
    decreases |tape|
  {
    if !Complete(s) && tape != [] {
      var i := tape[0].0 % |s.inFlight|;
      if Receive(env, s, i, tape[0].1).Running? {
        ReceiveKeeps(env, s, i, tape[0].1, c);
        WaitKeeps(env, Receive(env, s, i, tape[0].1).s, tape[1..], c);
      }
    }
  }

  // ---------------------------------------------------------------------------------------------
  // Reassembly
  // ---------------------------------------------------------------------------------------------

  function Sorted(results: seq<Task>): seq<Task> {
    SortBy((t: Task) => t.args.claimedNumber, results)
  }

  function Traces(tasks: seq<Task>): (r: seq<seq<Execution>>)
    ensures |r| == |tasks| && forall i :: 0 <= i < |tasks| ==> r[i] == tasks[i].trace
  {
    Map((t: Task) => t.trace, tasks)
  }

  /** The journal that the proof of a task commits to. */
  function TaskJournal(imageId: B256, payout: Address, configHash: B256, t: Task): ProofJournal {
    NewJournal(imageId, payout, t.preconditionHash,
               BootInfo(t.args.l1Head, t.args.agreedOutput, t.args.claimedOutput, t.args.claimedNumber, configHash))
  }

  /** The journal proven for the task is the one that stitching rebuilds from its trace. */
  ghost predicate JournalMatches(env: Env, imageId: B256, payout: Address, configHash: B256, t: Task) {
    && t.trace != []
    && TaskJournal(imageId, payout, configHash, t) == TraceJournal(env.h, imageId, payout, configHash, t.trace)
  }

  lemma JournalOfTask(env: Env, imageId: B256, payout: Address, configHash: B256, t: Task)
    requires Honest(env, t)
    ensures JournalMatches(env, imageId, payout, configHash, t)
  {
  }

  /** Linked honest tasks hold, one after the other, the slice of the trace between their ends. */
  lemma {:induction false} LinkedTraces(env: Env, tasks: seq<Task>, a: nat, c: nat)
    requires Recorded(env) && Linked(Map(Spanner(env), tasks), a, c) && c <= |env.cache| && AllHonest(env, tasks)
    ensures a <= c && Flatten(Traces(tasks)) == env.cache[a..c]
    decreases |tasks|
  {
    LinkedBounds(Map(Spanner(env), tasks), a, c);
    if tasks != [] {
      var x := TaskSpan(env, tasks[0]);
      assert tasks[0] in tasks && Honest(env, tasks[0]);
      assert Map(Spanner(env), tasks)[1..] == Map(Spanner(env), tasks[1..]);
      LinkedTraces(env, tasks[1..], x.hi, c);
      assert Traces(tasks)[1..] == Traces(tasks[1..]);
      assert tasks[0].trace == env.cache[x.lo..x.hi];
      assert env.cache[a..x.hi] + env.cache[x.hi..c] == env.cache[a..c];
    }
  }

  lemma ClaimsFollowSpans(env: Env, tasks: seq<Task>)
    requires Recorded(env) && AllHonest(env, tasks) && Ascending((t: Task) => t.args.claimedNumber, tasks)
    ensures AscendingEnds(Map(Spanner(env), tasks))
  {
    forall i, j | 0 <= i < j < |tasks| ensures TaskSpan(env, tasks[i]).hi <= TaskSpan(env, tasks[j]).hi {
      assert Honest(env, tasks[i]) && Honest(env, tasks[j]);
    }
  }

  /** In a complete state without dropped tasks, the sorted traces make up the trace to the end of the chunk loop. */
  lemma CompleteRunReassembles(env: Env, s: Sched, c: nat)
    requires Recorded(env) && Inv(env, s, c) && c <= |env.cache| && Complete(s) && s.dropped == []
    ensures Flatten(Traces(Sorted(s.results))) == env.cache[..c]
    ensures AllHonest(env, Sorted(s.results)) && multiset(Sorted(s.results)) == multiset(s.results)
  {
    var sorted := Sorted(s.results);
    SortSorts((t: Task) => t.args.claimedNumber, s.results);
    assert AllTasks(s) == s.results;
    MembersOfBag(s.results, sorted);
    ClaimsFollowSpans(env, sorted);
    CoveredAscending(Spanner(env), s.results, sorted, 0, c);
    LinkedTraces(env, sorted, 0, c);
  }

  function Initial(env: Env): Option<Sched>
    requires env.cache != [] && env.maxExecutions > 0
  {
    match ChunkTasks(env, 0)
    case None => None
    case Some((tasks, _)) => Some(Sched(|tasks|, tasks, [], []))
  }

  lemma InitialInv(env: Env)
    requires Recorded(env)
    ensures Initial(env).Some? && ChunkTasks(env, 0).Some?
    ensures ChunkTasks(env, 0).value.1 <= |env.cache| && Inv(env, Initial(env).value, ChunkTasks(env, 0).value.1)
  {
    ChunksCover(env, 0);
    var tasks := ChunkTasks(env, 0).value.0;
    assert AllTasks(Initial(env).value) == tasks;
    TilesBy(Map(Spanner(env), tasks), multiset(Map(Spanner(env), tasks)), 0, ChunkTasks(env, 0).value.1);
  }

  /**
   * For every sequence of arrivals after which all proofs are there and none was skipped: the traces in order of
   * their claimed blocks give the guest the recorded trace as its cache iff no chunk boundary carried the claimed
   * output, and the journal of each task is the one that stitching requires for its trace.
   */
  lemma EveryRunReassembles(env: Env, tape: seq<Event>, s: Sched, imageId: B256, payout: Address, configHash: B256)
    requires Recorded(env) && Initial(env).Some?
    requires Wait(env, Initial(env).value, tape) == Some(Running(s)) && Complete(s) && s.dropped == []
    ensures SplitExecutions(Traces(Sorted(s.results))).1 == env.cache
       <==> forall p: nat :: p < |env.cache| && IsBoundary(env, 0, p) ==> RootAt(env, p) != env.args.claimedOutput
    ensures forall t :: t in s.results ==> JournalMatches(env, imageId, payout, configHash, t)
  {
    InitialInv(env);
    var c := ChunkTasks(env, 0).value.1;
    WaitKeeps(env, Initial(env).value, tape, c);
    CompleteRunReassembles(env, s, c);
    ChunksReachEndIff(env, 0);
    if c < |env.cache| {
      assert |env.cache[..c]| != |env.cache|;
    } else {
      assert env.cache[..c] == env.cache;
    }
    MembersOfBag(Sorted(s.results), s.results);
    forall t | t in s.results ensures JournalMatches(env, imageId, payout, configHash, t) {
      JournalOfTask(env, imageId, payout, configHash, t);
    }
  }

  lemma HonestTraceAccepted(env: Env, proven: Proven, boot: BootInfo, imageId: B256, payout: Address, t: Task)
    requires Honest(env, t) && proven(EncodePacked(TaskJournal(imageId, payout, boot.configHash, t)))
    requires forall e :: e in env.cache ==> Consistent(env.h, boot.configHash, e)
    ensures TraceAccepted(env.h, proven, boot, imageId, payout, t.trace)
  {
    JournalOfTask(env, imageId, payout, boot.configHash, t);
    ConsistentSlice(env, boot.configHash, TaskSpan(env, t).lo, TaskSpan(env, t).hi);
  }

  lemma ConsistentSlice(env: Env, configHash: B256, lo: nat, hi: nat)
    requires lo <= hi <= |env.cache| && forall e :: e in env.cache ==> Consistent(env.h, configHash, e)
    ensures forall i :: 0 <= i < hi - lo ==> Consistent(env.h, configHash, env.cache[lo..hi][i])
  {
    forall i | 0 <= i < hi - lo ensures Consistent(env.h, configHash, env.cache[lo..hi][i]) {
      assert env.cache[lo..hi][i] == env.cache[lo + i];
    }
  }

  lemma HonestTracesAccepted(env: Env, proven: Proven, boot: BootInfo, imageId: B256, payout: Address, tasks: seq<Task>)
    requires AllHonest(env, tasks) && forall e :: e in env.cache ==> Consistent(env.h, boot.configHash, e)
    requires forall t :: t in tasks ==> proven(EncodePacked(TaskJournal(imageId, payout, boot.configHash, t)))
    ensures forall t :: t in Traces(tasks) ==> TraceAccepted(env.h, proven, boot, imageId, payout, t)
  {
    forall k | 0 <= k < |tasks| ensures TraceAccepted(env.h, proven, boot, imageId, payout, tasks[k].trace) {
      assert tasks[k] in tasks;
      HonestTraceAccepted(env, proven, boot, imageId, payout, tasks[k]);
    }
  }

  /** The results of a run, sorted, are honest tasks. */
  lemma SortedHonest(env: Env, tape: seq<Event>, s: Sched)
    requires Recorded(env) && Initial(env).Some? && Wait(env, Initial(env).value, tape) == Some(Running(s))
    ensures AllHonest(env, Sorted(s.results)) && forall t :: t in Sorted(s.results) <==> t in s.results
  {
    InitialInv(env);
    WaitKeeps(env, Initial(env).value, tape, ChunkTasks(env, 0).value.1);
    assert forall t :: t in s.results ==> t in AllTasks(s);
    SortSorts((t: Task) => t.args.claimedNumber, s.results);
    MembersOfBag(Sorted(s.results), s.results);
  }

  /** The run's traces are accepted by stitching, given their proofs and executions that agree with their headers. */
  lemma StitchingAcceptsRun(env: Env, tape: seq<Event>, s: Sched, proven: Proven, boot: BootInfo, imageId: B256, payout: Address)
    requires Recorded(env) && Initial(env).Some? && Wait(env, Initial(env).value, tape) == Some(Running(s))
    requires forall t :: t in s.results ==> proven(EncodePacked(TaskJournal(imageId, payout, boot.configHash, t)))
    requires forall e :: e in env.cache ==> Consistent(env.h, boot.configHash, e)
    ensures forall t :: t in Traces(Sorted(s.results)) ==> TraceAccepted(env.h, proven, boot, imageId, payout, t)
  {
    SortedHonest(env, tape, s);
    HonestTracesAccepted(env, proven, boot, imageId, payout, Sorted(s.results));
  }

  // ---------------------------------------------------------------------------------------------
  // The program
  // ---------------------------------------------------------------------------------------------

  /** Stitch hands the proven tasks in order to the final proof; the others are errors or panics of the call. */
  datatype RunResult =
    | Stitch(tasks: seq<Task>)
    | Disabled
    | NotAwaited
    | ProvenWithoutDerivation(count: nat)
    | Exited(exit: Exit)

  function Finish(results: seq<Task>, skipAwait: bool, skipDerivation: bool): RunResult {
    if skipAwait then NotAwaited
    else if skipDerivation then ProvenWithoutDerivation(|results|)
    else Stitch(Sorted(results))
  }

  /** The tasks handed to the final proof: those with results, by their claimed blocks, and unless a proof was not
      awaited the guest splits off their traces the whole recorded trace, iff no boundary carried the claimed output. */
  ghost predicate Handed(env: Env, s: Sched, tasks: seq<Task>)
    requires env.maxExecutions > 0
  {
    && multiset(tasks) == multiset(s.results)
    && (forall i, j :: 0 <= i < j < |tasks| ==> tasks[i].args.claimedNumber <= tasks[j].args.claimedNumber)
    && (forall t :: t in tasks ==>
          forall imageId: B256, payout: Address, configHash: B256 ::
            JournalMatches(env, imageId, payout, configHash, t))
    && (s.dropped == [] ==>
          (SplitExecutions(Traces(tasks)).1 == env.cache <==>
           forall p: nat :: p < |env.cache| && IsBoundary(env, 0, p) ==> RootAt(env, p) != env.args.claimedOutput))
  }

  /** What a run without skipped stages returns is handed over in order. */
  lemma HandedInOrder(env: Env, tape: seq<Event>, s: Sched, skipAwait: bool, skipDerivation: bool)
    requires Recorded(env) && Initial(env).Some? && Wait(env, Initial(env).value, tape) == Some(Running(s)) && Complete(s)
    requires Finish(s.results, skipAwait, skipDerivation).Stitch?
    ensures Handed(env, s, Finish(s.results, skipAwait, skipDerivation).tasks)
  {
    SortedHonest(env, tape, s);
    SortSorts((t: Task) => t.args.claimedNumber, s.results);
    forall t, imageId: B256, payout: Address, configHash: B256 | t in Sorted(s.results)
      ensures JournalMatches(env, imageId, payout, configHash, t)
    {
      JournalOfTask(env, imageId, payout, configHash, t);
    }
    if s.dropped == [] {
      EveryRunReassembles(env, tape, s, ZERO, 0, ZERO);
    }
  }

  lemma {:induction false} WaitAppend(env: Env, s: Sched, tape: seq<Event>, e: Event, t: Sched)
    requires Wait(env, s, tape) == Some(Running(t)) && !Complete(t)
    ensures Wait(env, s, tape + [e]) == Wait(env, t, [e])
    decreases |tape|
  {
    if tape == [] {
      assert tape + [e] == [e];
    } else {
      assert (tape + [e])[1..] == tape[1..] + [e];
      WaitAppend(env, Receive(env, s, tape[0].0 % |s.inFlight|, tape[0].1).s, tape[1..], e, t);
    }
  }

  lemma WaitOne(env: Env, s: Sched, e: Event)
    requires !Complete(s) && s.inFlight != []
    ensures Wait(env, s, [e]) == Some(Receive(env, s, e.0 % |s.inFlight|, e.1))
  {
    assert [e][1..] == [];
  }

  /** What is queued is the part of the whole before position lo. */
  ghost predicate Queued(env: Env, whole: Option<(seq<Task>, nat)>, queued: seq<Task>, lo: nat)
    requires lo <= |env.cache| && env.maxExecutions > 0
  {
    if lo == |env.cache| then whole.Some? && whole.value.0 == queued
    else
      var rest := ChunkTasks(env, lo);
      (whole.Some? <==> rest.Some?) && (whole.Some? ==> whole.value.0 == queued + rest.value.0)
  }

  lemma QueueNext(env: Env, whole: Option<(seq<Task>, nat)>, queued: seq<Task>, lo: nat, hi: nat, task: Task)
    requires lo < |env.cache| && env.maxExecutions > 0 && hi == Min(lo + env.maxExecutions, |env.cache|)
    requires RootAt(env, lo) != env.args.claimedOutput && CreateTask(env, ChunkArgs(env, lo, hi)) == Some(task)
    requires Queued(env, whole, queued, lo)
    ensures Queued(env, whole, queued + [task], hi)
  {
    if hi < |env.cache| && ChunkTasks(env, hi).Some? {
      Reassociate(queued, [task], ChunkTasks(env, hi).value.0);
    }
  }

  lemma ChunkArgsAre(env: Env, lo: nat, hi: nat, args: Args)
    requires lo < hi <= |env.cache|
    requires args == env.args.(l1Head := ZERO, agreedOutput := RootAt(env, lo), agreedHash := HashAt(env, lo),
                               claimedOutput := env.cache[hi - 1].claimedOutput, claimedNumber := Number(env.cache[hi - 1]))
    ensures args == ChunkArgs(env, lo, hi)
  {
  }

  lemma QueuedAll(env: Env, whole: Option<(seq<Task>, nat)>, queued: seq<Task>, lo: nat)
    requires lo <= |env.cache| && env.maxExecutions > 0 && Queued(env, whole, queued, lo)
    requires lo == |env.cache| || RootAt(env, lo) == env.args.claimedOutput
    ensures whole.Some? && whole.value.0 == queued
  {
    assert queued + [] == queued;
  }

  /** Before a round of the chunk loop: the round starts at lo and claims the execution at next. */
  ghost predicate AtRound(env: Env, whole: Option<(seq<Task>, nat)>, queued: seq<Task>, lo: nat, next: nat,
                          output: B256, hash: B256)
  {
    && env.maxExecutions > 0 && lo <= next < |env.cache| && next + 1 == Min(lo + env.maxExecutions, |env.cache|)
    && output == RootAt(env, lo) && hash == HashAt(env, lo)
    && Queued(env, whole, queued, lo)
  }

  lemma FirstRound(env: Env)
    requires env.cache != [] && env.maxExecutions > 0
    ensures AtRound(env, ChunkTasks(env, 0), [], 0, Min(env.maxExecutions, |env.cache|) - 1,
                    env.args.agreedOutput, env.args.agreedHash)
  {
    var chunks := ChunkTasks(env, 0);
    assert chunks.Some? ==> [] + chunks.value.0 == chunks.value.0;
  }

  /** The round that claimed the execution at next was the last one, or leads to another. */
  ghost predicate RoundLeads(env: Env, whole: Option<(seq<Task>, nat)>, queued: seq<Task>, next: nat)
    requires next < |env.cache|
  {
    var last := env.cache[next];
    if next == |env.cache| - 1 then whole.Some? && whole.value.0 == queued
    else AtRound(env, whole, queued, next + 1, Min(next + env.maxExecutions, |env.cache| - 1),
                 last.claimedOutput, last.artifacts.header.hash)
  }

  lemma RoundDone(env: Env, whole: Option<(seq<Task>, nat)>, queued: seq<Task>, lo: nat, next: nat,
                  output: B256, hash: B256, task: Task)
    requires AtRound(env, whole, queued, lo, next, output, hash) && output != env.args.claimedOutput
    requires CreateTask(env, ChunkArgs(env, lo, next + 1)) == Some(task)
    ensures RoundLeads(env, whole, queued + [task], next)
  {
    QueueNext(env, whole, queued, lo, next + 1, task);
  }

  /** The task of a round, which either was the last one, or leads to the next. */
  method NextTask(env: Env, ghost whole: Option<(seq<Task>, nat)>, ghost queued: seq<Task>, ghost lo: nat,
                  nextClaimIndex: nat, agreedOutput: B256, agreedHash: B256)
    returns (task: Option<Task>)
    requires AtRound(env, whole, queued, lo, nextClaimIndex, agreedOutput, agreedHash)
    requires agreedOutput != env.args.claimedOutput
    ensures task.None? ==> whole.None?
    ensures task.Some? ==> RoundLeads(env, whole, queued + [task.value], nextClaimIndex)
  {
    var last := env.cache[nextClaimIndex];
    var jobArgs := env.args.(l1Head := ZERO, agreedOutput := agreedOutput, agreedHash := agreedHash,
                             claimedOutput := last.claimedOutput, claimedNumber := Number(last));
    ChunkArgsAre(env, lo, nextClaimIndex + 1, jobArgs);
    task := CreateTask(env, jobArgs);
    if task.Some? {
      RoundDone(env, whole, queued, lo, nextClaimIndex, agreedOutput, agreedHash, task.value);
    }
  }

  method QueueTasks(env: Env) returns (numProofs: int, tasks: Option<seq<Task>>)
    requires env.cache != [] && env.maxExecutions > 0
    ensures var chunks := ChunkTasks(env, 0);
            if chunks.None? then tasks == None
            else tasks == Some(chunks.value.0) && numProofs == |chunks.value.0|
  {
    numProofs := 0;
    var queued: seq<Task> := [];
    var nextClaimIndex: nat := Min(env.maxExecutions, |env.cache|) - 1;
    var agreedOutput, agreedHash := env.args.agreedOutput, env.args.agreedHash;
    var lastClaimIndex := |env.cache| - 1;
    ghost var lo: nat, whole := 0, ChunkTasks(env, 0);
    FirstRound(env);
    while agreedOutput != env.args.claimedOutput
      invariant AtRound(env, whole, queued, lo, nextClaimIndex, agreedOutput, agreedHash)
      invariant numProofs == |queued|
      decreases |env.cache| - lo
    {
      var last := env.cache[nextClaimIndex];
      var task := NextTask(env, whole, queued, lo, nextClaimIndex, agreedOutput, agreedHash);
      numProofs := numProofs + 1;
      if task.None? {
        return numProofs, None;
      }
      agreedOutput, agreedHash, queued := last.claimedOutput, last.artifacts.header.hash, queued + [task.value];
      if nextClaimIndex == lastClaimIndex {
        return numProofs, Some(queued);
      }
      lo := nextClaimIndex + 1;
      nextClaimIndex := Min(nextClaimIndex + env.maxExecutions, lastClaimIndex);
    }
    QueuedAll(env, whole, queued, lo);
    tasks := Some(queued);
  }

  /** One arrival: the body of the waiting loop. */
  method HandleResult(env: Env, numProofs: int, inFlight: seq<Task>, results: seq<Task>, ghost dropped: seq<Task>,
                      i: nat, outcome: Outcome)
    returns (exit: Option<Exit>, numProofs': int, inFlight': seq<Task>, results': seq<Task>, ghost dropped': seq<Task>)
    requires i < |inFlight|
    ensures var next := Receive(env, Sched(numProofs, inFlight, results, dropped), i, outcome);
            if exit.Some? then next == Stopped(exit.value)
            else next.Running? && next.s.(dropped := []) == Sched(numProofs', inFlight', results', [])
    ensures exit.None? ==> Receive(env, Sched(numProofs, inFlight, results, dropped), i, outcome).s.dropped == dropped'
  {
    var task := inFlight[i];
    exit, numProofs', inFlight', results', dropped' := None, numProofs, RemoveAt(inFlight, i), results, dropped;
    if outcome.Proof? {
      results' := results' + [task];
      return;
    }
    numProofs' := numProofs' + 1;
    if task.trace == [] || Number(task.trace[0]) == 0 || task.args.claimedNumber < Number(task.trace[0]) - 1 {
      exit := Some(Panicked);
      return;
    }
    var forcedAttempt := task.args.claimedNumber - (Number(task.trace[0]) - 1) == 1;
    match outcome {
      case OtherError(_) =>
        exit := Some(Failed(outcome));
        return;
      case NotAwaitingProof =>
        numProofs', dropped' := numProofs' - 2, dropped' + [task];
        return;
      case WitnessSizeError =>
        if forcedAttempt {
          exit := Some(Failed(outcome));
          return;
        }
      case ExecutionError =>
        if forcedAttempt {
          exit := Some(Failed(outcome));
          return;
        }
      case _ =>
        exit := Some(Panicked);
        return;
    }
    var halves := Halves(env, task);
    if halves.None? {
      exit := Some(Panicked);
    } else {
      inFlight' := inFlight' + [halves.value.0, halves.value.1];
    }
  }

  /** After n arrivals the loop runs in state s, with at most the work left that n arrivals leave over. */
  ghost predicate Reached(env: Env, init: Sched, c: nat, tape: nat -> Event, n: nat, s: Sched) {
    && Wait(env, init, Prefix(tape, n)) == Some(Running(s))
    && Inv(env, s, c)
    && n + WorkLeft(env, s) <= WorkLeft(env, init)
  }

  lemma WaitOneMore(env: Env, init: Sched, tape: nat -> Event, n: nat, s: Sched)
    requires Wait(env, init, Prefix(tape, n)) == Some(Running(s)) && !Complete(s) && s.inFlight != []
    ensures Wait(env, init, Prefix(tape, n + 1)) == Some(Receive(env, s, tape(n).0 % |s.inFlight|, tape(n).1))
  {
    WaitAppend(env, init, Prefix(tape, n), tape(n), s);
    WaitOne(env, s, tape(n));
    PrefixNext(tape, n);
  }

  lemma ReachedNext(env: Env, init: Sched, c: nat, tape: nat -> Event, n: nat, s: Sched)
    requires Recorded(env) && Reached(env, init, c, tape, n, s) && !Complete(s)
    ensures s.inFlight != []
    ensures var next := Receive(env, s, tape(n).0 % |s.inFlight|, tape(n).1);
            && (next.Running? ==> Reached(env, init, c, tape, n + 1, next.s) && WorkLeft(env, next.s) < WorkLeft(env, s))
            && (next.Stopped? ==> Wait(env, init, Prefix(tape, n + 1)) == Some(next) && n < WorkLeft(env, init))
  {
    WaitOneMore(env, init, tape, n, s);
    var i := tape(n).0 % |s.inFlight|;
    if Receive(env, s, i, tape(n).1).Running? {
      ReceiveKeeps(env, s, i, tape(n).1, c);
    } else {
      WorkRemoved(Spanner(env), s.inFlight, 0);
    }
  }

  /**
   * The nested scheduler, from the executed blocks to the tasks whose proofs are stitched. The tape says which task
   * in flight reports next and what it reports; it stands for every interleaving of the workers.
   */
  method ProveExecutions(env: Env, skipAwait: bool, skipDerivation: bool, tape: nat -> Event)
    returns (r: RunResult, received: nat)
    requires env.maxExecutions == 0 || env.cache == [] || Recorded(env)
    ensures env.maxExecutions == 0 ==> r == Disabled
    ensures env.maxExecutions > 0 && env.cache == [] ==> r == Exited(Panicked)
    ensures env.maxExecutions > 0 && env.cache != [] ==>
              && Initial(env).Some?
              && received <= WorkLeft(env, Initial(env).value)
              && var last := Wait(env, Initial(env).value, Prefix(tape, received));
                 && last.Some?
                 && (last.value.Stopped? ==> r == Exited(last.value.exit))
                 && (last.value.Running? ==>
                       Complete(last.value.s) && r == Finish(last.value.s.results, skipAwait, skipDerivation))
                 && (r.Stitch? ==> last.value.Running? && Handed(env, last.value.s, r.tasks))
  {
    received := 0;
    if env.maxExecutions == 0 {
      return Disabled, received;
    }
    if env.cache == [] {
      return Exited(Panicked), received;
    }
    InitialInv(env);
    var numProofs, queued := QueueTasks(env);
    var inFlight: seq<Task>, results: seq<Task> := queued.value, [];
    ghost var init, c := Initial(env).value, ChunkTasks(env, 0).value.1;
    ghost var s := init;
    while |results| < numProofs
      invariant s == Sched(numProofs, inFlight, results, s.dropped)
      invariant Reached(env, init, c, tape, received, s)
      decreases WorkLeft(env, s)
    {
      ReachedNext(env, init, c, tape, received, s);
      var (index, outcome) := tape(received);
      received := received + 1;
      var exit;
      ghost var dropped;
      exit, numProofs, inFlight, results, dropped :=
        HandleResult(env, numProofs, inFlight, results, s.dropped, index % |inFlight|, outcome);
      if exit.Some? {
        return Exited(exit.value), received;
      }
      s := Sched(numProofs, inFlight, results, dropped);
    }
    r := Finish(results, skipAwait, skipDerivation);
    if r.Stitch? {
      HandedInOrder(env, Prefix(tape, received), s, skipAwait, skipDerivation);
    }
  }
}
