/** What each arrival does to the outer scheduler, what stops it, and what it reports (crates/prover/src/prove.rs). */
module ProverArrivals {
  import opened Common
  import opened Journal
  import opened Division
  import opened Stitching
  import opened Prover

  // ---------------------------------------------------------------------------------------------
  // One arrival
  // ---------------------------------------------------------------------------------------------

  /** The attempt failed in a way that a smaller range may avoid. */
  predicate Failed(outcome: Outcome) {
    outcome.WitnessSizeError? || outcome.ExecutionError?
  }

  /** Dividing helps no more, or there is nothing to divide with. */
  predicate Fatal(env: Env, x: Span, outcome: Outcome) {
    match outcome
    case OtherError(_) => true
    case BlockCountError => true
    case NotSeekingProof => true
    case WitnessSizeError => x.lo + 1 == x.hi || !env.l2Provider || !env.opNode
    case ExecutionError => x.lo + 1 == x.hi || !env.l2Provider || !env.opNode
    case _ => false
  }

  function Midpoint(x: Span): int {
    x.lo + (x.hi - x.lo) / 2
  }

  /** Of the outstanding spans, one was replaced by its two halves. */
  ghost predicate Halved(env: Env, s: Sched, t: Sched, x: Span)
    requires x.lo < x.hi
  {
    multiset(SpansOf(env, Outstanding(t)))
    == multiset(SpansOf(env, Outstanding(s))) - multiset{x} + multiset([Span(x.lo, Midpoint(x)), Span(Midpoint(x), x.hi)])
  }

  /** With a node, a failure of a job of several blocks keeps the loop running, on the two halves of its span. */
  lemma FailureSplits(env: Env, s: Sched, i: nat, outcome: Outcome)
    requires Coherent(env.chain) && Divides(env) && s.queue == [] && i < |s.inFlight| && Failed(outcome)
    requires var x := SpanOf(env, s.inFlight[i]); x.lo + 1 < x.hi
    ensures Receive(env, s, i, outcome).Running?
    ensures var x, t := SpanOf(env, s.inFlight[i]), Receive(env, s, i, outcome).s;
            && Halved(env, s, t, x)
            && t.numProofs == s.numProofs + 1 && t.results == s.results && t.dropped == s.dropped
            && forall job :: job in t.queue ==> job.haveSplit
  {
    var x := SpanOf(env, s.inFlight[i]);
    FailureReceived(env, s, i, outcome);
    HalvesOfSpan(env, s.inFlight[i], x);
    SpansAfter(env, s, Receive(env, s, i, outcome).s, i, x);
  }

  lemma SpansAfter(env: Env, s: Sched, t: Sched, i: nat, x: Span)
    requires s.queue == [] && i < |s.inFlight| && x == SpanOf(env, s.inFlight[i]) && x.lo < x.hi
    requires t.inFlight == RemoveAt(s.inFlight, i)
    requires SpansOf(env, t.queue) == [Span(x.lo, Midpoint(x)), Span(Midpoint(x), x.hi)]
    ensures Halved(env, s, t, x)
  {
    SpansReplaced(env, s.inFlight, i, t.queue);
    assert Outstanding(s) == s.inFlight;
  }

  lemma FailureReceived(env: Env, s: Sched, i: nat, outcome: Outcome)
    requires Divides(env) && s.queue == [] && i < |s.inFlight| && Failed(outcome)
    requires var x := SpanOf(env, s.inFlight[i]); x.lo + 1 < x.hi
    ensures Receive(env, s, i, outcome)
         == Running(s.(inFlight := RemoveAt(s.inFlight, i), numProofs := s.numProofs + 1, queue := Split(env, s.inFlight[i])))
  {
  }

  lemma HalvesOfSpan(env: Env, job: Job, x: Span)
    requires Coherent(env.chain) && Divides(env) && x == SpanOf(env, job) && x.lo + 1 < x.hi
    ensures SpansOf(env, Split(env, job)) == [Span(x.lo, Midpoint(x)), Span(Midpoint(x), x.hi)]
    ensures forall half :: half in Split(env, job) ==> half.haveSplit
  {
  }

  lemma SpansReplaced(env: Env, jobs: seq<Job>, i: nat, halves: seq<Job>)
    requires i < |jobs|
    ensures multiset(SpansOf(env, RemoveAt(jobs, i) + halves))
         == multiset(SpansOf(env, jobs)) - multiset{SpanOf(env, jobs[i])} + multiset(SpansOf(env, halves))
  {
    SpansConcat(env, RemoveAt(jobs, i), halves);
    MapRemoved(Spanner(env), jobs, i);
  }

  /** Exactly these reports stop the loop: any other error, an outcome that cannot be, and a failure beyond division. */
  lemma StopsIff(env: Env, s: Sched, i: nat, outcome: Outcome)
    requires i < |s.inFlight| && Sized(env, s.inFlight[i])
    ensures var next := Receive(env, s, i, outcome);
            && (next.Stopped? <==> Fatal(env, SpanOf(env, s.inFlight[i]), outcome))
            && (next.Stopped? ==>
                  && (next.exit.InsufficientL1Head? <==> outcome == OtherError(true))
                  && (Failed(outcome) ==>
                        var x := SpanOf(env, s.inFlight[i]);
                        next.exit == if x.lo + 1 == x.hi || !env.l2Provider then Bailed else Panicked)
                  && (outcome == OtherError(false) ==> next.exit.Bailed?)
                  && (outcome.BlockCountError? || outcome.NotSeekingProof? ==> next.exit.Panicked?))
  {
  }

  /** Every other report takes its job out of flight: as a result, with or without a proof, or as one proof less. */
  lemma ArrivalSettles(env: Env, s: Sched, i: nat, outcome: Outcome)
    requires i < |s.inFlight| && !Failed(outcome) && !Fatal(env, SpanOf(env, s.inFlight[i]), outcome)
    ensures var job := s.inFlight[i];
            Receive(env, s, i, outcome).Running? &&
            var t := Receive(env, s, i, outcome).s;
            && multiset(s.inFlight) == multiset(t.inFlight) + multiset{job} && t.queue == s.queue
            && (outcome.Proof? || outcome.NoProof? <==> t.numProofs == s.numProofs)
            && (outcome.Proof? ==> t.results == s.results + [JobResult(job, true)] && t.dropped == s.dropped)
            && (outcome.NoProof? ==> t.results == s.results + [JobResult(job, false)] && t.dropped == s.dropped)
            && (t.numProofs != s.numProofs ==>
                  t.numProofs == s.numProofs - 1 && t.results == s.results && t.dropped == s.dropped + [job])
  {
  }

  // ---------------------------------------------------------------------------------------------
  // Whole runs
  // ---------------------------------------------------------------------------------------------

  /** A run that stops was stopped by an arrival beyond division; all arrivals before it kept the loop running. */
  lemma {:induction false} RunStops(env: Env, s: Sched, tape: seq<Event>) returns (n: nat, t: Sched)
    requires Coherent(env.chain) && Balanced(env, s)
    requires Wait(env, s, tape).Some? && Wait(env, s, tape).value.Stopped?
    ensures n < |tape| && Wait(env, s, tape[..n]) == Some(Running(t)) && !Complete(t) && Dispatch(t).inFlight != []
    ensures var d := Dispatch(t);
            var i := tape[n].0 % |d.inFlight|;
            && Fatal(env, SpanOf(env, d.inFlight[i]), tape[n].1)
            && Receive(env, d, i, tape[n].1) == Wait(env, s, tape).value
    decreases |tape|
  {
    var d := Dispatch(s);
    DispatchKeeps(env, s);
    var i := tape[0].0 % |d.inFlight|;
    assert Outstanding(d)[i] == d.inFlight[i];
    StopsIff(env, d, i, tape[0].1);
    if Receive(env, d, i, tape[0].1).Running? {
      ReceiveKeepsBalance(env, d, i, tape[0].1);
      var m;
      m, t := RunStops(env, Receive(env, d, i, tape[0].1).s, tape[1..]);
      n := m + 1;
      assert tape[..n][1..] == tape[1..][..m] && tape[..n][0] == tape[0];
    } else {
      n, t := 0, s;
      assert tape[..0] == [];
    }
  }

  // ---------------------------------------------------------------------------------------------
  // Chunks
  // ---------------------------------------------------------------------------------------------

  /** Every chunk is as large as allowed, but for the last one, which ends at the claimed block at the latest. */
  lemma ChunkSizes(env: Env, k: nat, last: nat)
    requires HonestStart(env) && env.l2Provider && StopsAt(env, last) && k < last
    ensures var x := SpanOf(env, Chunks(env, last)[k]);
            && x.lo < x.hi <= env.args.claimedNumber
            && (x.hi == x.lo + env.maxDerivations || (x.hi == env.args.claimedNumber < x.lo + env.maxDerivations))
            && !Chunks(env, last)[k].haveSplit
  {
    ChunkAt(env, k, last);
    ChunkIsHonest(env, k, last);
    BoundaryBounds(env, k);
    BoundaryIsChunkEnd(env, k);
    BoundaryIsChunkEnd(env, k + 1);
    assert (k + 1) * env.maxDerivations == k * env.maxDerivations + env.maxDerivations;
  }

  lemma {:induction false} ChunkAt(env: Env, k: nat, n: nat)
    requires k < n
    ensures Chunks(env, n)[k] == ChunkJob(env, k)
  {
    if k < n - 1 {
      ChunkAt(env, k, n - 1);
    }
  }

  // ---------------------------------------------------------------------------------------------
  // Reports
  // ---------------------------------------------------------------------------------------------

  /** What is proven of a job: the transition of its arguments, in the context of the run. */
  lemma JournalFields(env: Env, x: Args)
    ensures var j := JournalOf(env, x);
            && j.l1Head == x.l1Head && j.agreedOutput == x.agreedOutput && j.claimedOutput == x.claimedOutput
            && j.claimedNumber == x.claimedNumber && j.imageId == env.imageId && j.payoutRecipient == env.payout
            && j.preconditionHash == env.precondition && j.configHash == env.configHash
  {
  }

  /** Without stitching nothing is composed; with it a missing proof panics, and one proof is not composed. */
  lemma FinishCases(env: Env, proven: Proven, results: seq<JobResult>)
    ensures Finish(env, proven, results).Unstitched? <==> env.skipStitching
    ensures !env.skipStitching && (exists r :: r in results && !r.ok) ==> Finish(env, proven, results) == Panic
    ensures !env.skipStitching && (forall r :: r in results ==> r.ok) ==>
              (Finish(env, proven, results).Alone? <==> |results| <= 1)
  {
    SortedResults(env, results);
    assert |SortedByClaim(results)| == |multiset(SortedByClaim(results))| == |multiset(results)| == |results|;
    if r :| r in results && !r.ok {
      var i :| 0 <= i < |results| && results[i] == r;
    }
  }
}
