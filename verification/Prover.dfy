/** The divide-and-conquer proof scheduler over block ranges (crates/prover/src/prove.rs). */
module Prover {
  import opened Common
  import opened Journal
  import opened Stitching
  import opened Division
  import opened Sorting

  /** What the nodes answer: output roots and block hashes by number, and block numbers by hash. */
  datatype Chain = Chain(output: nat -> B256, hash: nat -> B256, number: B256 -> U64)

  datatype Args = Args(l1Head: B256, agreedOutput: B256, agreedHash: B256, claimedOutput: B256, claimedNumber: U64)

  /** The arguments of a run and everything it asks for; the flags say which providers are configured. */
  datatype Env = Env(chain: Chain, args: Args, maxDerivations: U64, l2Provider: bool, opNode: bool,
                     skipStitching: bool, imageId: B256, payout: Address, precondition: B256, configHash: B256)

  datatype Job = Job(haveSplit: bool, args: Args)

  /** What one proving attempt of a job reports. */
  datatype Outcome =
    | Proof
    | NoProof
    | WitnessSizeError
    | ExecutionError
    | OtherError(insufficientL1Head: bool)
    | BlockCountError
    | NotSeekingProof
    | DerivationProofError
    | NotAwaitingProof

  datatype JobResult = JobResult(job: Job, ok: bool)

  /** The dropped jobs are those that reported that no proof will come; the program only counts them. */
  datatype Sched = Sched(numProofs: int, queue: seq<Job>, inFlight: seq<Job>, results: seq<JobResult>, dropped: seq<Job>)

  datatype Exit = Bailed | InsufficientL1Head | Panicked

  datatype Next = Running(s: Sched) | Stopped(exit: Exit)

  function Start(env: Env, x: Args): U64 {
    if env.l2Provider then env.chain.number(x.agreedHash) else 0
  }

  function SpanOf(env: Env, job: Job): Span {
    Span(Start(env, job.args), job.args.claimedNumber)
  }

  function Spanner(env: Env): Job -> Span {
    job => SpanOf(env, job)
  }

  function SpansOf(env: Env, jobs: seq<Job>): (r: seq<Span>)
    ensures |r| == |jobs| && forall i :: 0 <= i < |jobs| ==> r[i] == SpanOf(env, jobs[i])
  {
    Map(Spanner(env), jobs)
  }

  function JobsOf(results: seq<JobResult>): (r: seq<Job>)
    ensures |r| == |results| && forall i :: 0 <= i < |results| ==> r[i] == results[i].job
  {
    Map((r: JobResult) => r.job, results)
  }

  /** An attempt at a single block, or without a node to split with, is forced. */
  predicate Forced(env: Env, job: Job) {
    job.args.claimedNumber - Start(env, job.args) == 1 || !env.l2Provider
  }

  // ---------------------------------------------------------------------------------------------
  // Cutting the range into jobs
  // ---------------------------------------------------------------------------------------------

  function NextClaim(env: Env, n: U64): U64 {
    Min(Min(n + env.maxDerivations, TWO_64 - 1), env.args.claimedNumber)
  }

  /** The agreed block, output and hash before the k-th round of the loop. */
  function Boundary(env: Env, k: nat): U64 {
    if k == 0 then env.chain.number(env.args.agreedHash) else NextClaim(env, Boundary(env, k - 1))
  }

  function BoundaryOutput(env: Env, k: nat): B256 {
    if k == 0 then env.args.agreedOutput else env.chain.output(Boundary(env, k))
  }

  function BoundaryHash(env: Env, k: nat): B256 {
    if k == 0 then env.args.agreedHash else env.chain.hash(Boundary(env, k))
  }

  function ChunkJob(env: Env, k: nat): Job {
    Job(false, env.args.(agreedOutput := BoundaryOutput(env, k), agreedHash := BoundaryHash(env, k),
                         claimedOutput := BoundaryOutput(env, k + 1), claimedNumber := Boundary(env, k + 1)))
  }

  function Chunks(env: Env, k: nat): (r: seq<Job>)
    ensures |r| == k
  {
    if k == 0 then [] else Chunks(env, k - 1) + [ChunkJob(env, k - 1)]
  }

  /** The loop leaves after exactly k rounds. */
  ghost predicate StopsAt(env: Env, k: nat) {
    BoundaryOutput(env, k) == env.args.claimedOutput && forall j: nat :: j < k ==> BoundaryOutput(env, j) != env.args.claimedOutput
  }

  predicate Divides(env: Env) {
    env.l2Provider && env.opNode
  }

  /** The state with which the waiting loop starts, if the chunk loop makes k rounds. */
  function Initial(env: Env, k: nat): Sched {
    if Divides(env) then Sched(k, Chunks(env, k), [], [], [])
    else Sched(1, [Job(false, env.args)], [], [], [])
  }

  // ---------------------------------------------------------------------------------------------
  // Waiting for results
  // ---------------------------------------------------------------------------------------------

  function Dispatch(s: Sched): Sched {
    s.(queue := [], inFlight := s.inFlight + s.queue)
  }

  function Split(env: Env, job: Job): seq<Job> {
    var start := Start(env, job.args);
    var mid: U64 := start + (job.args.claimedNumber - start) / 2;
    [Job(true, job.args.(claimedOutput := env.chain.output(mid), claimedNumber := mid)),
     Job(true, job.args.(agreedOutput := env.chain.output(mid), agreedHash := env.chain.hash(mid)))]
  }

  /** The result of the i-th job in flight arrives. */
  function Receive(env: Env, s: Sched, i: nat, outcome: Outcome): Next
    requires i < |s.inFlight|
  {
    var job := s.inFlight[i];
    var s' := s.(inFlight := RemoveAt(s.inFlight, i));
    match outcome
    case Proof => Running(s'.(results := s.results + [JobResult(job, true)]))
    case NoProof => Running(s'.(results := s.results + [JobResult(job, false)]))
    case OtherError(insufficient) => Stopped(if insufficient then InsufficientL1Head else Bailed)
    case BlockCountError => Stopped(Panicked)
    case NotSeekingProof => Stopped(Panicked)
    case DerivationProofError => Running(s'.(numProofs := s.numProofs - 1, dropped := s.dropped + [job]))
    case NotAwaitingProof => Running(s'.(numProofs := s.numProofs - 1, dropped := s.dropped + [job]))
    case WitnessSizeError => SplitJob(env, s', job)
    case ExecutionError => SplitJob(env, s', job)
  }

  function SplitJob(env: Env, s: Sched, job: Job): Next {
    if Forced(env, job) then Stopped(Bailed)
    else if !env.opNode then Stopped(Panicked)
    else Running(s.(numProofs := s.numProofs + 1, queue := s.queue + Split(env, job)))
  }

  /** Which job in flight reports next, and what. */
  type Event = (nat, Outcome)

  predicate Complete(s: Sched) {
    |s.results| >= s.numProofs
  }

  /** The waiting loop on a sequence of arrivals; it blocks forever (Stuck) if it waits with nothing in flight. */
  function Wait(env: Env, s: Sched, tape: seq<Event>): Option<Next>
    decreases |tape|
  {
    if Complete(s) || tape == [] then Some(Running(s))
    else
      var d := Dispatch(s);
      if d.inFlight == [] then None
      else
        match Receive(env, d, tape[0].0 % |d.inFlight|, tape[0].1)
        case Running(s') => Wait(env, s', tape[1..])
        case Stopped(exit) => Some(Stopped(exit))
  }

  // ---------------------------------------------------------------------------------------------
  // What every reachable state keeps
  // ---------------------------------------------------------------------------------------------

  ghost predicate Coherent(chain: Chain) {
    forall n: U64 :: chain.number(chain.hash(n)) == n
  }

  function Outstanding(s: Sched): seq<Job> {
    s.inFlight + s.queue
  }

  ghost predicate Sized(env: Env, job: Job) {
    var x := SpanOf(env, job);
    x.lo <= x.hi && (Divides(env) ==> x.lo < x.hi)
  }

  /** The counter is exactly the number of results that are there or still to come. */
  ghost predicate Balanced(env: Env, s: Sched) {
    && s.numProofs == |s.queue| + |s.inFlight| + |s.results|
    && forall i :: 0 <= i < |Outstanding(s)| ==> Sized(env, Outstanding(s)[i])
  }

  /** The job is the one that an honest chain gives for its span. */
  ghost predicate Honest(env: Env, job: Job) {
    var x := SpanOf(env, job);
    job.args == env.args.(agreedOutput := env.chain.output(x.lo), agreedHash := env.chain.hash(x.lo),
                          claimedOutput := env.chain.output(x.hi))
                .(claimedNumber := job.args.claimedNumber)
  }

  function AllJobs(s: Sched): seq<Job> {
    Outstanding(s) + JobsOf(s.results) + s.dropped
  }

  /** Results, outstanding jobs and dropped jobs together cover the blocks from a to c, each exactly once. */
  ghost predicate Covers(env: Env, s: Sched, a: nat, c: nat) {
    && (forall i :: 0 <= i < |AllJobs(s)| ==> Honest(env, AllJobs(s)[i]))
    && Covered(Spanner(env), AllJobs(s), a, c)
  }

  lemma SplitSpans(env: Env, job: Job)
    requires Coherent(env.chain) && Sized(env, job) && !Forced(env, job) && env.opNode
    ensures var x, halves := SpanOf(env, job), Split(env, job);
            && |halves| == 2
            && SpanOf(env, halves[0]).lo == x.lo && SpanOf(env, halves[0]).hi == SpanOf(env, halves[1]).lo
            && SpanOf(env, halves[1]).hi == x.hi
            && x.lo < SpanOf(env, halves[0]).hi < x.hi
  {
  }

  lemma SplitWork(env: Env, job: Job)
    requires Coherent(env.chain) && Sized(env, job) && !Forced(env, job) && env.opNode
    ensures Work(SpansOf(env, Split(env, job))) < Weight(SpanOf(env, job))
  {
    SplitSpans(env, job);
    var halves := SpansOf(env, Split(env, job));
    assert Work(halves[1..]) == Weight(halves[1]) + Work(halves[1..][1..]);
  }

  lemma SpansConcat(env: Env, a: seq<Job>, b: seq<Job>)
    ensures SpansOf(env, a + b) == SpansOf(env, a) + SpansOf(env, b)
  {
  }

  ghost function WorkLeft(env: Env, s: Sched): nat {
    Work(SpansOf(env, Outstanding(s)))
  }

  lemma DispatchKeeps(env: Env, s: Sched)
    requires Balanced(env, s)
    ensures Balanced(env, Dispatch(s)) && WorkLeft(env, Dispatch(s)) == WorkLeft(env, s)
    ensures AllJobs(Dispatch(s)) == AllJobs(s)
  {
    assert Outstanding(Dispatch(s)) == Outstanding(s);
  }

  /** Every arrival keeps the balance and leaves less work, whatever it reports. */
  lemma ReceiveKeepsBalance(env: Env, s: Sched, i: nat, outcome: Outcome)
    requires Coherent(env.chain) && Balanced(env, s) && s.queue == [] && i < |s.inFlight|
    requires Receive(env, s, i, outcome).Running?
    ensures var s' := Receive(env, s, i, outcome).s;
            Balanced(env, s') && WorkLeft(env, s') < WorkLeft(env, s)
  {
    var job, rest := s.inFlight[i], RemoveAt(s.inFlight, i);
    var s' := Receive(env, s, i, outcome).s;
    assert Outstanding(s) == s.inFlight;
    assert Sized(env, job);
    forall k | 0 <= k < |rest| ensures Sized(env, rest[k]) {
      assert rest[k] == s.inFlight[if k < i then k else k + 1];
    }
    WorkRemoved(Spanner(env), s.inFlight, i);
    if outcome.WitnessSizeError? || outcome.ExecutionError? {
      SplitSpans(env, job);
      SplitWork(env, job);
      var halves := Split(env, job);
      assert Outstanding(s') == rest + halves;
      SpansConcat(env, rest, halves);
      WorkConcat(SpansOf(env, rest), SpansOf(env, halves));
      assert Sized(env, halves[0]) && Sized(env, halves[1]);
    } else {
      assert Outstanding(s') == rest;
    }
  }

  lemma JobsBag(s: seq<JobResult>, t: seq<JobResult>)
    requires multiset(s) == multiset(t)
    ensures multiset(JobsOf(s)) == multiset(JobsOf(t))
  {
    MapBag((r: JobResult) => r.job, s, t);
  }

  /** The same jobs, wherever they are, cover the same blocks. */
  lemma SameJobsCover(env: Env, s: Sched, t: Sched, a: nat, c: nat)
    requires Covers(env, s, a, c) && multiset(AllJobs(s)) == multiset(AllJobs(t))
    ensures Covers(env, t, a, c)
  {
    CoveredSame(Spanner(env), AllJobs(s), AllJobs(t), a, c);
    forall i | 0 <= i < |AllJobs(t)| ensures Honest(env, AllJobs(t)[i]) {
      assert AllJobs(t)[i] in multiset(AllJobs(t));
      assert AllJobs(t)[i] in multiset(AllJobs(s));
    }
  }

  lemma SplitIsHonest(env: Env, job: Job)
    requires Coherent(env.chain) && Honest(env, job) && Sized(env, job) && !Forced(env, job)
    ensures var halves := Split(env, job); |halves| == 2 && Honest(env, halves[0]) && Honest(env, halves[1])
  {
  }

  lemma SplitCovers(env: Env, s: Sched, t: Sched, job: Job, others: seq<Job>, a: nat, c: nat)
    requires Coherent(env.chain) && Covers(env, s, a, c)
    requires Sized(env, job) && !Forced(env, job) && env.opNode
    requires multiset(AllJobs(s)) == multiset(others + [job])
    requires multiset(AllJobs(t)) == multiset(others + Split(env, job))
    ensures Covers(env, t, a, c)
  {
    var halves := Split(env, job);
    CoveredSame(Spanner(env), AllJobs(s), others + [job], a, c);
    SplitSpans(env, job);
    CoveredSplit(Spanner(env), others, job, halves[0], halves[1], a, c);
    assert halves == [halves[0], halves[1]];
    CoveredSame(Spanner(env), others + halves, AllJobs(t), a, c);
    assert job in multiset(others + [job]);
    assert job in multiset(AllJobs(s));
    SplitIsHonest(env, job);
    forall i | 0 <= i < |AllJobs(t)| ensures Honest(env, AllJobs(t)[i]) {
      var y := AllJobs(t)[i];
      assert y in multiset(AllJobs(t));
      assert y in multiset(others + Split(env, job));
      if y in others {
        assert y in multiset(others + [job]);
        assert y in multiset(AllJobs(s));
      }
    }
  }

  lemma JobsConcat(a: seq<JobResult>, b: seq<JobResult>)
    ensures JobsOf(a + b) == JobsOf(a) + JobsOf(b)
  {
  }

  lemma ResultMoves(results: seq<JobResult>, inFlight: seq<Job>, dropped: seq<Job>, r: JobResult)
    ensures multiset(inFlight + JobsOf(results + [r]) + dropped)
         == multiset(inFlight + JobsOf(results) + dropped + [r.job])
  {
    JobsConcat(results, [r]);
    assert JobsOf([r]) == [r.job];
    assert inFlight + JobsOf(results + [r]) + dropped == (inFlight + JobsOf(results)) + [r.job] + dropped;
  }

  /** An arrival that does not split only moves its job between the parts of the state. */
  lemma ReceiveMoves(s: Sched, t: Sched, i: nat, job: Job, others: seq<Job>, result: Option<bool>)
    requires s.queue == [] && i < |s.inFlight| && job == s.inFlight[i]
    requires others == RemoveAt(s.inFlight, i) + JobsOf(s.results) + s.dropped
    requires t.inFlight == RemoveAt(s.inFlight, i) && t.queue == []
    requires t.results == s.results + if result.Some? then [JobResult(job, result.value)] else []
    requires t.dropped == s.dropped + if result.Some? then [] else [job]
    ensures multiset(AllJobs(t)) == multiset(others + [job])
  {
    assert Outstanding(t) == t.inFlight;
    if result.Some? {
      ResultMoves(s.results, t.inFlight, s.dropped, JobResult(job, result.value));
      assert s.dropped + [] == s.dropped;
    } else {
      assert s.results + [] == s.results;
      Reassociate(t.inFlight + JobsOf(s.results), s.dropped, [job]);
    }
  }

  lemma JobsBeforeReceive(s: Sched, i: nat, others: seq<Job>)
    requires s.queue == [] && i < |s.inFlight|
    requires others == RemoveAt(s.inFlight, i) + JobsOf(s.results) + s.dropped
    ensures multiset(AllJobs(s)) == multiset(others + [s.inFlight[i]])
  {
    assert Outstanding(s) == s.inFlight;
  }

  lemma SplitArrivalCovers(env: Env, s: Sched, t: Sched, i: nat, a: nat, c: nat)
    requires Coherent(env.chain) && s.queue == [] && i < |s.inFlight| && Covers(env, s, a, c)
    requires Sized(env, s.inFlight[i]) && !Forced(env, s.inFlight[i]) && env.opNode
    requires t.inFlight == RemoveAt(s.inFlight, i) && t.queue == Split(env, s.inFlight[i])
    requires t.results == s.results && t.dropped == s.dropped
    ensures Covers(env, t, a, c)
  {
    var job, others := s.inFlight[i], RemoveAt(s.inFlight, i) + JobsOf(s.results) + s.dropped;
    JobsBeforeReceive(s, i, others);
    assert multiset(AllJobs(t)) == multiset(others + Split(env, job));
    SplitCovers(env, s, t, job, others, a, c);
  }

  lemma PlainArrivalCovers(env: Env, s: Sched, t: Sched, i: nat, result: Option<bool>, a: nat, c: nat)
    requires s.queue == [] && i < |s.inFlight| && Covers(env, s, a, c)
    requires t.inFlight == RemoveAt(s.inFlight, i) && t.queue == []
    requires t.results == s.results + if result.Some? then [JobResult(s.inFlight[i], result.value)] else []
    requires t.dropped == s.dropped + if result.Some? then [] else [s.inFlight[i]]
    ensures Covers(env, t, a, c)
  {
    var job, others := s.inFlight[i], RemoveAt(s.inFlight, i) + JobsOf(s.results) + s.dropped;
    JobsBeforeReceive(s, i, others);
    ReceiveMoves(s, t, i, job, others, result);
    SameJobsCover(env, s, t, a, c);
  }

  lemma SplitReceived(env: Env, s: Sched, i: nat, a: nat, c: nat)
    requires Coherent(env.chain) && Balanced(env, s) && s.queue == [] && i < |s.inFlight| && Covers(env, s, a, c)
    requires !Forced(env, s.inFlight[i]) && env.opNode
    ensures Covers(env, Receive(env, s, i, ExecutionError).s, a, c)
  {
    var t := Receive(env, s, i, ExecutionError).s;
    assert Outstanding(s)[i] == s.inFlight[i];
    assert t.queue == Split(env, s.inFlight[i]);
    SplitArrivalCovers(env, s, t, i, a, c);
  }

  /** Every arrival keeps the cover: a split replaces a job by its halves, all else only moves it. */
  lemma ReceiveKeepsCover(env: Env, s: Sched, i: nat, outcome: Outcome, a: nat, c: nat)
    requires Coherent(env.chain) && Balanced(env, s) && s.queue == [] && i < |s.inFlight|
    requires Covers(env, s, a, c) && Receive(env, s, i, outcome).Running?
    ensures Covers(env, Receive(env, s, i, outcome).s, a, c)
  {
    var t := Receive(env, s, i, outcome).s;
    if outcome.Proof? {
      PlainArrivalCovers(env, s, t, i, Some(true), a, c);
    } else if outcome.NoProof? {
      PlainArrivalCovers(env, s, t, i, Some(false), a, c);
    } else if outcome.DerivationProofError? || outcome.NotAwaitingProof? {
      PlainArrivalCovers(env, s, t, i, None, a, c);
    } else {
      SplitReceived(env, s, i, a, c);
    }
  }

  /**
   * For every sequence of arrivals: the loop never waits in vain, keeps the counter balanced and the cover whole,
   * and receives at most as many results as there was work to begin with.
   */
  lemma {:induction false} WaitKeeps(env: Env, s: Sched, tape: seq<Event>, a: nat, c: nat)
    requires Coherent(env.chain) && Balanced(env, s)
    ensures Wait(env, s, tape).Some?
    ensures var r := Wait(env, s, tape).value;
            r.Running? ==>
              && Balanced(env, r.s)
              && (Covers(env, s, a, c) ==> Covers(env, r.s, a, c))
              && (Complete(r.s) || |tape| + WorkLeft(env, r.s) <= WorkLeft(env, s))
    decreases |tape|
  {
    if !Complete(s) && tape != [] {
      var d := Dispatch(s);
      DispatchKeeps(env, s);
      var i := tape[0].0 % |d.inFlight|;
      if Receive(env, d, i, tape[0].1).Running? {
        var t := Receive(env, d, i, tape[0].1).s;
        ReceiveKeepsBalance(env, d, i, tape[0].1);
        if Covers(env, s, a, c) {
          assert Covers(env, d, a, c);
          ReceiveKeepsCover(env, d, i, tape[0].1, a, c);
        }
        WaitKeeps(env, t, tape[1..], a, c);
      }
    }
  }

  // ---------------------------------------------------------------------------------------------
  // The chunk loop
  // ---------------------------------------------------------------------------------------------

  ghost predicate HonestStart(env: Env) {
    && Coherent(env.chain)
    && var a := env.chain.number(env.args.agreedHash);
       && a <= env.args.claimedNumber
       && env.args.agreedHash == env.chain.hash(a)
       && env.args.agreedOutput == env.chain.output(a)
  }

  lemma {:induction false} BoundaryStands(env: Env, j: nat, k: nat)
    requires j <= k && Boundary(env, j + 1) == Boundary(env, j)
    ensures Boundary(env, k) == Boundary(env, j)
    decreases k
  {
    if k > j {
      BoundaryStands(env, j, k - 1);
    }
  }

  lemma {:induction false} BoundaryBounds(env: Env, k: nat)
    requires HonestStart(env)
    ensures Boundary(env, 0) <= Boundary(env, k) <= Boundary(env, k + 1) <= env.args.claimedNumber
    ensures BoundaryOutput(env, k) == env.chain.output(Boundary(env, k))
    ensures BoundaryHash(env, k) == env.chain.hash(Boundary(env, k))
  {
    if k > 0 {
      BoundaryBounds(env, k - 1);
    }
  }

  /** Every round before the last makes progress and cuts off an honest job. */
  lemma ChunkIsHonest(env: Env, k: nat, last: nat)
    requires HonestStart(env) && env.l2Provider && StopsAt(env, last) && k < last
    ensures Boundary(env, k) < Boundary(env, k + 1)
    ensures SpanOf(env, ChunkJob(env, k)) == Span(Boundary(env, k), Boundary(env, k + 1))
    ensures Honest(env, ChunkJob(env, k))
  {
    BoundaryBounds(env, k);
    BoundaryBounds(env, k + 1);
    if Boundary(env, k + 1) == Boundary(env, k) {
      BoundaryStands(env, k, last);
      BoundaryBounds(env, last);
      assert false;
    }
  }

  /** When the loop ends, its jobs cover everything up to the last boundary. */
  lemma {:induction false} ChunksLinked(env: Env, k: nat, last: nat)
    requires HonestStart(env) && env.l2Provider && StopsAt(env, last) && k <= last
    ensures Linked(SpansOf(env, Chunks(env, k)), Boundary(env, 0), Boundary(env, k))
    ensures forall i :: 0 <= i < k ==> Honest(env, Chunks(env, k)[i]) && Sized(env, Chunks(env, k)[i])
  {
    if k > 0 {
      ChunksLinked(env, k - 1, last);
      ChunkIsHonest(env, k - 1, last);
      var job, x := ChunkJob(env, k - 1), Span(Boundary(env, k - 1), Boundary(env, k));
      SpansConcat(env, Chunks(env, k - 1), [job]);
      assert SpansOf(env, [job]) == [x];
      assert Linked([x], x.lo, x.hi) by {
        assert [x][1..] == [];
      }
      LinkedConcat(SpansOf(env, Chunks(env, k - 1)), [x], Boundary(env, 0), x.lo, x.hi);
    }
  }

  lemma InitialCovers(env: Env, k: nat)
    requires HonestStart(env) && Divides(env) && StopsAt(env, k)
    ensures Balanced(env, Initial(env, k)) && Covers(env, Initial(env, k), Boundary(env, 0), Boundary(env, k))
  {
    ChunksLinked(env, k, k);
    var s := Initial(env, k);
    assert AllJobs(s) == Chunks(env, k) && Outstanding(s) == Chunks(env, k);
  }

  /** The block of the k-th boundary: so many chunks from the start, at most the claimed block. */
  function ChunkEnd(env: Env, k: nat): nat {
    Min(env.chain.number(env.args.agreedHash) + k * env.maxDerivations, env.args.claimedNumber)
  }

  lemma {:induction false} BoundaryIsChunkEnd(env: Env, k: nat)
    requires HonestStart(env)
    ensures Boundary(env, k) == ChunkEnd(env, k) && BoundaryOutput(env, k) == env.chain.output(ChunkEnd(env, k))
  {
    BoundaryBounds(env, k);
    if k > 0 {
      BoundaryIsChunkEnd(env, k - 1);
      assert k * env.maxDerivations == (k - 1) * env.maxDerivations + env.maxDerivations;
    }
  }

  lemma Multiple(k: nat, m: nat)
    ensures if m == 0 then k * m == 0 else k * m >= k
  {
    if m > 0 {
      assert k * m == k * (m - 1) + k;
    }
  }

  /** After as many rounds as there are blocks no further boundary is new. */
  lemma ChunkEndsRepeat(env: Env, k: nat)
    requires HonestStart(env)
    ensures var n := env.args.claimedNumber - env.chain.number(env.args.agreedHash);
            k > n ==> ChunkEnd(env, k) == ChunkEnd(env, n)
  {
    var n := env.args.claimedNumber - env.chain.number(env.args.agreedHash);
    Multiple(k, env.maxDerivations);
    Multiple(n, env.maxDerivations);
  }

  lemma {:induction false} FirstStop(env: Env, k: nat) returns (first: nat)
    requires BoundaryOutput(env, k) == env.args.claimedOutput
    ensures first <= k && StopsAt(env, first)
  {
    if j: nat :| j < k && BoundaryOutput(env, j) == env.args.claimedOutput {
      first := FirstStop(env, j);
    } else {
      first := k;
    }
  }

  /**
   * The chunk loop ends exactly if the end of one of the chunks, the start included, has the claimed output; there are
   * at most as many chunk ends as blocks.
   */
  lemma ChunkLoopEndsIff(env: Env)
    requires HonestStart(env)
    ensures (exists k: nat :: StopsAt(env, k)) <==>
            exists j :: 0 <= j <= env.args.claimedNumber - env.chain.number(env.args.agreedHash)
                        && env.chain.output(ChunkEnd(env, j)) == env.args.claimedOutput
  {
    var n := env.args.claimedNumber - env.chain.number(env.args.agreedHash);
    if k: nat :| StopsAt(env, k) {
      BoundaryIsChunkEnd(env, k);
      ChunkEndsRepeat(env, k);
      var j := Min(k, n);
      assert env.chain.output(ChunkEnd(env, j)) == env.args.claimedOutput;
    }
    if j :| 0 <= j <= n && env.chain.output(ChunkEnd(env, j)) == env.args.claimedOutput {
      BoundaryIsChunkEnd(env, j);
      var first := FirstStop(env, j);
    }
  }

  /** On a true claim and a positive chunk size the chunk loop ends. */
  lemma ChunkLoopEnds(env: Env)
    requires HonestStart(env) && env.maxDerivations > 0
    requires env.args.claimedOutput == env.chain.output(env.args.claimedNumber)
    ensures exists k: nat :: StopsAt(env, k)
  {
    var n := env.args.claimedNumber - env.chain.number(env.args.agreedHash);
    Multiple(n, env.maxDerivations);
    assert ChunkEnd(env, n) == env.args.claimedNumber;
    ChunkLoopEndsIff(env);
  }

  /** With chunks of zero blocks the loop ends only if there is nothing to prove, however true the claim. */
  lemma ZeroChunksEndIff(env: Env)
    requires HonestStart(env) && env.maxDerivations == 0
    ensures (exists k: nat :: StopsAt(env, k)) <==> env.args.agreedOutput == env.args.claimedOutput
  {
    forall j: nat ensures ChunkEnd(env, j) == env.chain.number(env.args.agreedHash) {
      Multiple(j, env.maxDerivations);
    }
    ChunkLoopEndsIff(env);
    assert env.chain.output(ChunkEnd(env, 0)) == env.args.agreedOutput;
  }

  function SmallChain(): Chain {
    Chain((n: nat) => Min(n + 5, 7), (n: nat) => n % TWO_64, (h: B256) => h % TWO_64)
  }

  /** A false claim on which the loop does not end: two blocks with outputs 6 and 7 are claimed to end in 8. */
  lemma FalseClaimRunsForever(imageId: B256, payout: Address, precondition: B256, configHash: B256)
    ensures var args := Args(1, 5, 0, 8, 2);
            var env := Env(SmallChain(), args, 1, true, true, false, imageId, payout, precondition, configHash);
            HonestStart(env) && forall k: nat :: !StopsAt(env, k)
  {
  }

  /** The jobs cover the whole range iff no boundary before the claimed block carries the claimed output. */
  lemma WholeRangeIff(env: Env, k: nat)
    requires HonestStart(env) && StopsAt(env, k)
    requires env.args.claimedOutput == env.chain.output(env.args.claimedNumber)
    ensures Boundary(env, k) == env.args.claimedNumber
       <==> forall j: nat :: BoundaryOutput(env, j) == env.args.claimedOutput ==> Boundary(env, j) == env.args.claimedNumber
  {
    if Boundary(env, k) == env.args.claimedNumber {
      forall j: nat | BoundaryOutput(env, j) == env.args.claimedOutput
        ensures Boundary(env, j) == env.args.claimedNumber
      {
        assert j >= k;
        BoundaryMonotone(env, k, j);
      }
    }
  }

  lemma {:induction false} BoundaryMonotone(env: Env, j: nat, k: nat)
    requires HonestStart(env) && j <= k
    ensures Boundary(env, j) <= Boundary(env, k) <= env.args.claimedNumber
    decreases k
  {
    BoundaryBounds(env, k);
    if j < k {
      BoundaryMonotone(env, j, k - 1);
      BoundaryBounds(env, k - 1);
    }
  }

  // ---------------------------------------------------------------------------------------------
  // Composition
  // ---------------------------------------------------------------------------------------------

  /** The results in ascending order of their claimed block. */
  function SortedByClaim(results: seq<JobResult>): seq<JobResult> {
    SortBy((r: JobResult) => r.job.args.claimedNumber, results)
  }

  /** The journal that the proof of these arguments commits to. */
  function JournalOf(env: Env, x: Args): ProofJournal {
    NewJournal(env.imageId, env.payout, env.precondition,
               BootInfo(x.l1Head, x.agreedOutput, x.claimedOutput, x.claimedNumber, env.configHash))
  }

  function BootInfos(env: Env, rs: seq<JobResult>): (r: seq<StitchedBootInfo>)
    ensures |r| == |rs| && forall i :: 0 <= i < |rs| ==> r[i] == BootInfoOf(JournalOf(env, rs[i].job.args))
  {
    Map((r: JobResult) => BootInfoOf(JournalOf(env, r.job.args)), rs)
  }

  /** The instruction without blocks onto which the proofs are stitched. */
  function BaseJournal(env: Env): ProofJournal {
    JournalOf(env, env.args.(agreedOutput := env.args.claimedOutput))
  }

  datatype Report = Unstitched | Alone(proofs: seq<StitchedBootInfo>) | Composed(journal: ProofJournal) | Panic

  function Finish(env: Env, proven: Proven, results: seq<JobResult>): Report {
    if env.skipStitching then Unstitched
    else if exists i :: 0 <= i < |results| && !results[i].ok then Panic
    else
      var proofs := BootInfos(env, Reverse(SortedByClaim(results)));
      if |proofs| <= 1 then Alone(proofs)
      else
        match StitchAll(proven, BaseJournal(env), proofs)
        case None => Panic
        case Some(journal) => Composed(journal)
  }

  /** The boot record of an honest proof of the span. */
  ghost predicate IsInfoFor(env: Env, x: Span, info: StitchedBootInfo) {
    && info.l1Head == env.args.l1Head && info.claimedNumber == x.hi
    && info.agreedOutput == env.chain.output(x.lo) && info.claimedOutput == env.chain.output(x.hi)
  }

  ghost predicate Distinct(env: Env, a: nat, c: nat) {
    forall i: nat, j: nat :: a <= i < j <= c ==> env.chain.output(i) != env.chain.output(j)
  }

  /** The boot records of the spans, the last span first. */
  ghost predicate InfosFor(env: Env, t: seq<Span>, infos: seq<StitchedBootInfo>) {
    |infos| == |t| && forall i :: 0 <= i < |t| ==> IsInfoFor(env, t[i], infos[|t| - 1 - i])
  }

  ghost predicate InfosProven(proven: Proven, j: ProofJournal, infos: seq<StitchedBootInfo>) {
    forall i :: 0 <= i < |infos| ==> proven(EncodePacked(RequiredJournal(j, infos[i])))
  }

  lemma InfosForInit(env: Env, t: seq<Span>, infos: seq<StitchedBootInfo>)
    requires t != [] && InfosFor(env, t, infos)
    ensures IsInfoFor(env, t[|t| - 1], infos[0]) && InfosFor(env, t[..|t| - 1], infos[1..])
  {
    var n := |t| - 1;
    assert IsInfoFor(env, t[n], infos[n - n]);
    forall i | 0 <= i < n ensures IsInfoFor(env, t[..n][i], infos[1..][n - 1 - i]) {
      assert IsInfoFor(env, t[i], infos[n - i]);
    }
  }

  lemma InfosProvenRest(proven: Proven, j: ProofJournal, root: B256, infos: seq<StitchedBootInfo>)
    requires infos != [] && InfosProven(proven, j, infos)
    ensures InfosProven(proven, j.(agreedOutput := root), infos[1..])
  {
    forall i | 0 <= i < |infos| - 1 ensures proven(EncodePacked(RequiredJournal(j.(agreedOutput := root), infos[1..][i]))) {
      assert RequiredJournal(j.(agreedOutput := root), infos[1..][i]) == RequiredJournal(j, infos[i + 1]);
    }
  }

  /** Folding linked spans from the last to the first moves the agreed output back to the start of the first. */
  lemma {:induction false} FoldBackward(env: Env, proven: Proven, t: seq<Span>, infos: seq<StitchedBootInfo>,
                                        j: ProofJournal, a: nat, c: nat)
    requires Linked(t, a, c) && Distinct(env, a, c) && InfosFor(env, t, infos) && InfosProven(proven, j, infos)
    requires j.l1Head == env.args.l1Head && j.agreedOutput == env.chain.output(c)
    ensures StitchAll(proven, j, infos) == Some(j.(agreedOutput := env.chain.output(a)))
    decreases |t|
  {
    if t != [] {
      var n := |t| - 1;
      LinkedSplitsAt(t, n, a, c);
      LinkedBounds(t, a, c);
      InfosForInit(env, t, infos);
      var root := env.chain.output(t[n].lo);
      InfosProvenRest(proven, j, root, infos);
      assert t[n].hi == c by {
        assert t[n + 1..] == [];
      }
      assert StitchOne(proven, j, infos[0]) == Some(j.(agreedOutput := root));
      FoldBackward(env, proven, t[..n], infos[1..], j.(agreedOutput := root), a, t[n].lo);
    }
  }

  ghost predicate AllProven(env: Env, proven: Proven, s: Sched) {
    forall i :: 0 <= i < |s.results| ==> s.results[i].ok && proven(EncodePacked(JournalOf(env, s.results[i].job.args)))
  }

  lemma SortedResults(env: Env, results: seq<JobResult>)
    ensures var sorted := SortedByClaim(results);
            && multiset(sorted) == multiset(results)
            && multiset(JobsOf(sorted)) == multiset(JobsOf(results))
            && AscendingEnds(SpansOf(env, JobsOf(sorted)))
  {
    SortSorts((r: JobResult) => r.job.args.claimedNumber, results);
    JobsBag(SortedByClaim(results), results);
  }

  lemma OnlyResultsLeft(env: Env, s: Sched)
    requires Balanced(env, s) && Complete(s) && s.dropped == []
    ensures AllJobs(s) == JobsOf(s.results)
  {
    assert Outstanding(s) == [];
  }

  /** In a complete state without dropped jobs, the sorted results are the linked cover. */
  lemma SortedResultsLinked(env: Env, s: Sched, a: nat, c: nat)
    requires Covers(env, s, a, c) && AllJobs(s) == JobsOf(s.results)
    ensures Linked(SpansOf(env, JobsOf(SortedByClaim(s.results))), a, c)
  {
    SortedResults(env, s.results);
    CoveredAscending(Spanner(env), JobsOf(s.results), JobsOf(SortedByClaim(s.results)), a, c);
  }

  lemma SortedResultHonest(env: Env, s: Sched, a: nat, c: nat, i: nat)
    requires Covers(env, s, a, c) && AllJobs(s) == JobsOf(s.results) && i < |SortedByClaim(s.results)|
    ensures SortedByClaim(s.results)[i] in s.results && Honest(env, SortedByClaim(s.results)[i].job)
  {
    var r := SortedByClaim(s.results)[i];
    SortedResults(env, s.results);
    assert r in multiset(SortedByClaim(s.results));
    var k :| 0 <= k < |s.results| && s.results[k] == r;
    assert Honest(env, AllJobs(s)[k]);
  }

  /** The boot records to stitch, last block first, are those that an honest chain gives for the linked cover. */
  lemma SortedInfos(env: Env, sorted: seq<JobResult>, i: nat)
    requires i < |sorted| && Honest(env, sorted[i].job)
    ensures IsInfoFor(env, SpanOf(env, sorted[i].job), BootInfos(env, Reverse(sorted))[|sorted| - 1 - i])
  {
    HonestInfo(env, sorted[i].job);
    assert Reverse(sorted)[|sorted| - 1 - i] == sorted[i];
  }

  lemma HonestInfo(env: Env, job: Job)
    requires Honest(env, job)
    ensures IsInfoFor(env, SpanOf(env, job), BootInfoOf(JournalOf(env, job.args)))
  {
  }

  lemma ResultsProven(env: Env, proven: Proven, s: Sched, a: nat, c: nat)
    requires Covers(env, s, a, c) && AllJobs(s) == JobsOf(s.results) && AllProven(env, proven, s)
    ensures InfosProven(proven, BaseJournal(env), BootInfos(env, Reverse(SortedByClaim(s.results))))
  {
    var sorted := SortedByClaim(s.results);
    var infos := BootInfos(env, Reverse(sorted));
    forall i | 0 <= i < |infos| ensures proven(EncodePacked(RequiredJournal(BaseJournal(env), infos[i]))) {
      var k := |infos| - 1 - i;
      SortedResultHonest(env, s, a, c, k);
      assert RequiredJournal(BaseJournal(env), infos[i]) == JournalOf(env, sorted[k].job.args);
    }
  }

  lemma SortedInfo(env: Env, s: Sched, a: nat, c: nat, i: nat)
    requires Covers(env, s, a, c) && AllJobs(s) == JobsOf(s.results) && i < |SortedByClaim(s.results)|
    ensures var sorted := SortedByClaim(s.results);
            IsInfoFor(env, SpanOf(env, sorted[i].job), BootInfos(env, Reverse(sorted))[|sorted| - 1 - i])
  {
    SortedResultHonest(env, s, a, c, i);
    SortedInfos(env, SortedByClaim(s.results), i);
  }

  lemma InfosForJobs(env: Env, sorted: seq<JobResult>, infos: seq<StitchedBootInfo>)
    requires |infos| == |sorted|
    requires forall i :: 0 <= i < |sorted| ==> IsInfoFor(env, SpanOf(env, sorted[i].job), infos[|sorted| - 1 - i])
    ensures InfosFor(env, SpansOf(env, JobsOf(sorted)), infos)
  {
  }

  lemma ResultInfos(env: Env, proven: Proven, s: Sched, a: nat, c: nat)
    requires Covers(env, s, a, c) && AllJobs(s) == JobsOf(s.results) && AllProven(env, proven, s)
    ensures var sorted := SortedByClaim(s.results);
            var infos := BootInfos(env, Reverse(sorted));
            InfosFor(env, SpansOf(env, JobsOf(sorted)), infos) && InfosProven(proven, BaseJournal(env), infos)
  {
    var sorted := SortedByClaim(s.results);
    forall i | 0 <= i < |sorted|
      ensures IsInfoFor(env, SpanOf(env, sorted[i].job), BootInfos(env, Reverse(sorted))[|sorted| - 1 - i])
    {
      SortedInfo(env, s, a, c, i);
    }
    InfosForJobs(env, sorted, BootInfos(env, Reverse(sorted)));
    ResultsProven(env, proven, s, a, c);
  }

  /** A single proof over linked spans is the proof of the whole range. */
  lemma SingleInfoIsWhole(env: Env, t: seq<Span>, infos: seq<StitchedBootInfo>, a: nat, c: nat)
    requires InfosFor(env, t, infos) && |infos| == 1 && Linked(t, a, c) && c == env.args.claimedNumber
    requires env.args.claimedOutput == env.chain.output(c) && env.args.agreedOutput == env.chain.output(a)
    ensures a < c && infos == [BootInfoOf(JournalOf(env, env.args))]
  {
    assert t[1..] == [];
    assert IsInfoFor(env, t[0], infos[0]);
  }

  /** What is reported of the linked spans from a to c: one proof as it is, several composed into one. */
  lemma ReportOf(env: Env, proven: Proven, results: seq<JobResult>, t: seq<Span>, a: nat)
    requires var c, infos := env.args.claimedNumber, BootInfos(env, Reverse(SortedByClaim(results)));
             && Linked(t, a, c) && InfosFor(env, t, infos) && InfosProven(proven, BaseJournal(env), infos)
             && Distinct(env, a, c)
             && env.args.claimedOutput == env.chain.output(c) && env.args.agreedOutput == env.chain.output(a)
    requires !env.skipStitching && forall i :: 0 <= i < |results| ==> results[i].ok
    ensures match Finish(env, proven, results)
            case Composed(journal) => journal == JournalOf(env, env.args)
            case Alone(proofs) => proofs == if a == env.args.claimedNumber then [] else [BootInfoOf(JournalOf(env, env.args))]
            case _ => false
  {
    var c, infos := env.args.claimedNumber, BootInfos(env, Reverse(SortedByClaim(results)));
    if |infos| > 1 {
      FoldBackward(env, proven, t, infos, BaseJournal(env), a, c);
      assert BaseJournal(env).(agreedOutput := env.chain.output(a)) == JournalOf(env, env.args);
    } else if |infos| == 1 {
      SingleInfoIsWhole(env, t, infos, a, c);
    }
  }

  /** What a finished run without skipped proofs has proven: the whole range, by one proof or by composition. */
  lemma CompleteRunProvesRange(env: Env, proven: Proven, s: Sched, a: nat)
    requires var c := env.args.claimedNumber;
             && Balanced(env, s) && Covers(env, s, a, c) && Complete(s) && s.dropped == []
             && Distinct(env, a, c)
             && env.args.claimedOutput == env.chain.output(c)
             && env.args.agreedOutput == env.chain.output(a)
    requires !env.skipStitching && AllProven(env, proven, s)
    ensures match Finish(env, proven, s.results)
            case Composed(journal) => journal == JournalOf(env, env.args)
            case Alone(proofs) => proofs == if a == env.args.claimedNumber then [] else [BootInfoOf(JournalOf(env, env.args))]
            case _ => false
  {
    var c := env.args.claimedNumber;
    var t := SpansOf(env, JobsOf(SortedByClaim(s.results)));
    OnlyResultsLeft(env, s);
    SortedResultsLinked(env, s, a, c);
    ResultInfos(env, proven, s, a, c);
    ReportOf(env, proven, s.results, t, a);
  }

  /** The last boundary of a true claim over distinct outputs is the claimed block. */
  lemma DistinctReachesClaim(env: Env, k: nat)
    requires HonestStart(env) && StopsAt(env, k)
    requires env.args.claimedOutput == env.chain.output(env.args.claimedNumber)
    requires Distinct(env, Boundary(env, 0), env.args.claimedNumber)
    ensures Boundary(env, k) == env.args.claimedNumber
  {
    BoundaryMonotone(env, 0, k);
    BoundaryBounds(env, k);
  }

  /**
   * For every sequence of arrivals, splits included, after which all required proofs are there and none was skipped,
   * what is proven is the transition from the agreed to the claimed output, at the claimed block.
   */
  lemma EveryRunProvesRange(env: Env, proven: Proven, k: nat, tape: seq<Event>, s: Sched)
    requires HonestStart(env) && Divides(env) && StopsAt(env, k) && !env.skipStitching
    requires env.args.claimedOutput == env.chain.output(env.args.claimedNumber)
    requires Distinct(env, Boundary(env, 0), env.args.claimedNumber)
    requires Wait(env, Initial(env, k), tape) == Some(Running(s))
    requires Complete(s) && s.dropped == [] && AllProven(env, proven, s)
    ensures match Finish(env, proven, s.results)
            case Composed(journal) => journal == JournalOf(env, env.args)
            case Alone(proofs) =>
              proofs == if Boundary(env, 0) == env.args.claimedNumber then [] else [BootInfoOf(JournalOf(env, env.args))]
            case _ => false
  {
    InitialCovers(env, k);
    DistinctReachesClaim(env, k);
    WaitKeeps(env, Initial(env, k), tape, Boundary(env, 0), Boundary(env, k));
    CompleteRunProvesRange(env, proven, s, Boundary(env, 0));
  }

  // ---------------------------------------------------------------------------------------------
  // The program
  // ---------------------------------------------------------------------------------------------

  datatype RunResult = Finished(report: Report) | Exited(exit: Exit)

  lemma {:induction false} WaitAppend(env: Env, s: Sched, tape: seq<Event>, e: Event, t: Sched)
    requires Wait(env, s, tape) == Some(Running(t)) && !Complete(t)
    ensures Wait(env, s, tape + [e]) == Wait(env, t, [e])
    decreases |tape|
  {
    if tape == [] {
      assert tape + [e] == [e];
    } else {
      if !Complete(s) {
        var d := Dispatch(s);
        assert (tape + [e])[1..] == tape[1..] + [e];
        WaitAppend(env, Receive(env, d, tape[0].0 % |d.inFlight|, tape[0].1).s, tape[1..], e, t);
      }
    }
  }

  lemma InitialBalanced(env: Env, k: nat)
    requires HonestStart(env) && (Divides(env) ==> StopsAt(env, k))
    ensures Balanced(env, Initial(env, k))
  {
    if Divides(env) {
      InitialCovers(env, k);
    }
  }

  /** The chunk loop, or the single big task if a provider is missing. */
  method CutIntoJobs(env: Env, ghost rounds: nat) returns (numProofs: int, queue: seq<Job>)
    requires Divides(env) ==> StopsAt(env, rounds)
    ensures Sched(numProofs, queue, [], [], []) == Initial(env, rounds)
  {
    numProofs, queue := 0, [];
    if env.l2Provider && env.opNode {
      var agreedNumber := env.chain.number(env.args.agreedHash);
      var agreedOutput, agreedHash := env.args.agreedOutput, env.args.agreedHash;
      while agreedOutput != env.args.claimedOutput
        invariant 0 <= numProofs <= rounds
        invariant agreedNumber == Boundary(env, numProofs)
        invariant agreedOutput == BoundaryOutput(env, numProofs) && agreedHash == BoundaryHash(env, numProofs)
        invariant queue == Chunks(env, numProofs)
        decreases rounds - numProofs
      {
        var claimedNumber := NextClaim(env, agreedNumber);
        var jobArgs := env.args.(agreedOutput := agreedOutput, agreedHash := agreedHash,
                                 claimedOutput := env.chain.output(claimedNumber), claimedNumber := claimedNumber);
        agreedNumber, agreedOutput, agreedHash := claimedNumber, jobArgs.claimedOutput, env.chain.hash(claimedNumber);
        numProofs := numProofs + 1;
        queue := queue + [Job(false, jobArgs)];
      }
      assert numProofs == rounds;
    } else {
      numProofs := 1;
      queue := queue + [Job(false, env.args)];
    }
  }

  /** Every queued job is spawned, in the order of the queue. */
  method DispatchAll(inFlight: seq<Job>, queue: seq<Job>) returns (inFlight': seq<Job>)
    ensures inFlight' == inFlight + queue
  {
    inFlight' := inFlight;
    var pending := queue;
    while pending != []
      invariant inFlight' + pending == inFlight + queue
      decreases |pending|
    {
      inFlight', pending := inFlight' + [pending[0]], pending[1..];
    }
  }

  /** One arrival: the body of the waiting loop after everything queued has been dispatched. */
  method HandleResult(env: Env, numProofs: int, inFlight: seq<Job>, results: seq<JobResult>, ghost dropped: seq<Job>,
                      i: nat, outcome: Outcome)
    returns (exit: Option<Exit>, numProofs': int, queue': seq<Job>, inFlight': seq<Job>, results': seq<JobResult>,
             ghost dropped': seq<Job>)
    requires i < |inFlight|
    ensures var next := Receive(env, Sched(numProofs, [], inFlight, results, dropped), i, outcome);
            if exit.Some? then next == Stopped(exit.value)
            else next.Running? && next.s.(dropped := []) == Sched(numProofs', queue', inFlight', results', [])
    ensures exit.None? ==>
              Receive(env, Sched(numProofs, [], inFlight, results, dropped), i, outcome).s.dropped == dropped'
  {
    var job := inFlight[i];
    exit, numProofs', queue', inFlight', results', dropped' := None, numProofs, [], RemoveAt(inFlight, i), results, dropped;
    var startingBlock := Start(env, job.args);
    var numBlocks := job.args.claimedNumber - startingBlock;
    var forceAttempt := numBlocks == 1 || !env.l2Provider;
    match outcome {
      case Proof => results' := results' + [JobResult(job, true)];
      case NoProof => results' := results' + [JobResult(job, false)];
      case OtherError(insufficient) => exit := Some(if insufficient then InsufficientL1Head else Bailed);
      case BlockCountError => exit := Some(Panicked);
      case NotSeekingProof => exit := Some(Panicked);
      case DerivationProofError => numProofs', dropped' := numProofs' - 1, dropped' + [job];
      case NotAwaitingProof => numProofs', dropped' := numProofs' - 1, dropped' + [job];
      case _ =>
        if forceAttempt {
          exit := Some(Bailed);
        } else {
          numProofs' := numProofs' + 1;
          if !env.opNode {
            exit := Some(Panicked);
          } else {
            var midPoint := startingBlock + numBlocks / 2;
            var midOutput := env.chain.output(midPoint);
            var lower := job.args.(claimedOutput := midOutput, claimedNumber := midPoint);
            queue' := queue' + [Job(true, lower)];
            var upper := job.args.(agreedOutput := midOutput, agreedHash := env.chain.hash(midPoint));
            queue' := queue' + [Job(true, upper)];
          }
        }
    }
  }

  /** After n arrivals the loop runs in state s, with at most the work left that n arrivals leave over. */
  ghost predicate Reached(env: Env, init: Sched, tape: nat -> Event, n: nat, s: Sched) {
    && Wait(env, init, Prefix(tape, n)) == Some(Running(s))
    && Balanced(env, s)
    && n + WorkLeft(env, s) <= WorkLeft(env, init)
  }

  /** Waiting for a single arrival is receiving it. */
  lemma WaitSingle(env: Env, s: Sched, e: Event)
    requires !Complete(s) && Dispatch(s).inFlight != []
    ensures Wait(env, s, [e]) == Some(Receive(env, Dispatch(s), e.0 % |Dispatch(s).inFlight|, e.1))
  {
    var next := Receive(env, Dispatch(s), e.0 % |Dispatch(s).inFlight|, e.1);
    assert [e][1..] == [];
    if next.Running? {
      assert Wait(env, next.s, []) == Some(Running(next.s));
    }
  }

  lemma WaitOneMore(env: Env, init: Sched, tape: nat -> Event, n: nat, s: Sched)
    requires Wait(env, init, Prefix(tape, n)) == Some(Running(s)) && !Complete(s) && Dispatch(s).inFlight != []
    ensures Wait(env, init, Prefix(tape, n + 1))
         == Some(Receive(env, Dispatch(s), tape(n).0 % |Dispatch(s).inFlight|, tape(n).1))
  {
    PrefixNext(tape, n);
    WaitAppend(env, init, Prefix(tape, n), tape(n), s);
    WaitSingle(env, s, tape(n));
  }

  lemma ReachedNext(env: Env, init: Sched, tape: nat -> Event, n: nat, s: Sched)
    requires Coherent(env.chain) && Reached(env, init, tape, n, s) && !Complete(s)
    ensures var d := Dispatch(s);
            && d.inFlight != []
            && var next := Receive(env, d, tape(n).0 % |d.inFlight|, tape(n).1);
               && (next.Running? ==> Reached(env, init, tape, n + 1, next.s) && WorkLeft(env, next.s) < WorkLeft(env, s))
               && (next.Stopped? ==> Wait(env, init, Prefix(tape, n + 1)) == Some(next) && n < WorkLeft(env, init))
  {
    var d := Dispatch(s);
    DispatchKeeps(env, s);
    WaitOneMore(env, init, tape, n, s);
    var i := tape(n).0 % |d.inFlight|;
    if Receive(env, d, i, tape(n).1).Running? {
      ReceiveKeepsBalance(env, d, i, tape(n).1);
    } else {
      InFlightIsWork(env, d);
    }
  }

  lemma InFlightIsWork(env: Env, s: Sched)
    requires s.inFlight != []
    ensures WorkLeft(env, s) > 0
  {
    WorkRemoved(Spanner(env), Outstanding(s), 0);
  }

  /**
   * The whole scheduler. The tape says which job in flight reports next and what it reports; it stands for every
   * interleaving of the workers. On a claim that no boundary carries the chunk loop runs forever, so the number of
   * its rounds is a parameter.
   */
  method Prove(env: Env, proven: Proven, tape: nat -> Event, ghost rounds: nat) returns (r: RunResult, received: nat)
    requires HonestStart(env)
    requires Divides(env) ==> StopsAt(env, rounds)
    ensures received <= WorkLeft(env, Initial(env, rounds))
    ensures var last := Wait(env, Initial(env, rounds), Prefix(tape, received));
            && last.Some?
            && (last.value.Stopped? ==> r == Exited(last.value.exit))
            && (last.value.Running? ==>
                  Complete(last.value.s) && r == Finished(Finish(env, proven, last.value.s.results)))
  {
    var numProofs, queue := CutIntoJobs(env, rounds);
    var inFlight: seq<Job>, results: seq<JobResult> := [], [];
    ghost var init := Initial(env, rounds);
    ghost var s := init;
    InitialBalanced(env, rounds);
    received := 0;
    while |results| < numProofs
      invariant s == Sched(numProofs, queue, inFlight, results, s.dropped)
      invariant Reached(env, init, tape, received, s)
      decreases WorkLeft(env, s)
    {
      ReachedNext(env, init, tape, received, s);
      inFlight := DispatchAll(inFlight, queue);
      var (index, outcome) := tape(received);
      received := received + 1;
      var exit;
      ghost var dropped;
      exit, numProofs, queue, inFlight, results, dropped :=
        HandleResult(env, numProofs, inFlight, results, s.dropped, index % |inFlight|, outcome);
      if exit.Some? {
        return Exited(exit.value), received;
      }
      s := Sched(numProofs, queue, inFlight, results, dropped);
    }
    r := Finished(Finish(env, proven, results));
  }

  /** Without a provider the only job is the whole range, and it is never split. */
  lemma OfflineRunIsOneProof(env: Env, proven: Proven, k: nat, e: Event)
    requires !env.l2Provider && !env.skipStitching
    ensures Wait(env, Initial(env, k), [e]).Some?
    ensures var r := Wait(env, Initial(env, k), [e]).value;
            if e.1.Proof? then r.Running? && Finish(env, proven, r.s.results) == Alone([BootInfoOf(JournalOf(env, env.args))])
            else r.Running? ==> r.s.results == [] || Finish(env, proven, r.s.results) == Panic
  {
    var job := Job(false, env.args);
    var d := Dispatch(Initial(env, k));
    assert d.inFlight == [job] && RemoveAt(d.inFlight, 0) == [];
    if e.1.Proof? {
      assert Receive(env, d, 0, e.1).s.results == [JobResult(job, true)];
      SingleResult(env, proven, job);
    }
  }

  lemma SingleResult(env: Env, proven: Proven, job: Job)
    requires !env.skipStitching
    ensures Finish(env, proven, [JobResult(job, true)]) == Alone([BootInfoOf(JournalOf(env, job.args))])
  {
    var results := [JobResult(job, true)];
    SortOne((r: JobResult) => r.job.args.claimedNumber, results[0]);
    assert SortedByClaim(results) == results;
    assert Reverse(results) == results;
    assert BootInfos(env, results) == [BootInfoOf(JournalOf(env, job.args))];
  }
}
