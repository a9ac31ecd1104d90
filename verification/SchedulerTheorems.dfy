/**
 What the scheduler guarantees after every run, for every interleaving of its goroutines
 and every outcome of the job methods.
 */
module SchedulerTheorems {
  import opened Collections
  import opened Jobs
  import opened Scheduler
  import opened SchedulerInvariant

  // ----- exclusive ownership

  function Ones(b: bool): nat {
    if b then 1 else 0
  }

  /** How many places a job is at, counting every occurrence in the FIFO. */
  function Places(s: State, h: nat): nat
    requires h in s.handlers
  {
    var x := s.handlers[h];
    Ones(x.pc != Ended && (x.pc != Waiting || x.wg == 0))
    + Ones(QueueHolds(s, h)) + multiset(s.fifo)[h] + Ones(WorkerHolds(s, h))
    + Ones(x.pc == Ended) + Ones(h in s.dropped)
  }

  lemma {:induction false} DistinctOnce(fifo: seq<nat>, h: nat)
    requires Distinct(fifo)
    ensures multiset(fifo)[h] == Ones(h in fifo)
  {
    if fifo != [] {
      var front, last := fifo[..|fifo| - 1], fifo[|fifo| - 1];
      DistinctOnce(front, h);
      assert fifo == front + [last];
    }
  }

  /**
   Every job that has arrived is at exactly one of its handler, the queue goroutine, the
   FIFO, the worker, finished or dropped.
   */
  lemma ExclusivePlace(s: State, h: nat)
    requires Reachable(s) && h in s.handlers
    ensures Places(s, h) == 1
  {
    ReachableInv(s);
    assert JobOk(s, h);
    DistinctOnce(s.fifo, h);
  }

  /** A handler acts on its job only while the job is with the handler. */
  lemma HandlerHolds(s: State, e: Event)
    requires Enabled(s, e) && OfHandler(e) && JobOk(s, e.h)
    ensures PlaceOf(s, e.h) == InHandler
  {
    hide Shaped;
  }

  lemma WorkerIsHolder(s: State, h: nat)
    requires h in s.handlers && WorkerHolds(s, h) && JobOk(s, h)
    ensures PlaceOf(s, h) == InWorker
  {
    hide Shaped;
  }

  /**
   Handler and worker never touch the same job: a handler's event on its job happens only
   while the job is with the handler, a worker's only while it is with the worker.
   */
  lemma HolderTouches(s: State, e: Event)
    requires Reachable(s) && Enabled(s, e)
    ensures JobOf(s, e) in s.handlers && OfHandler(e) ==> PlaceOf(s, JobOf(s, e)) == InHandler
    ensures JobOf(s, e) in s.handlers && OfWorker(e) ==> PlaceOf(s, JobOf(s, e)) == InWorker
  {
    hide JobOk, Reachable, Apply;
    ReachableInv(s);
    var h := JobOf(s, e);
    if h in s.handlers {
      assert JobOk(s, h);
      if OfHandler(e) {
        HandlerHolds(s, e);
      } else if OfWorker(e) {
        WorkerIsHolder(s, h);
      }
    }
  }

  /** And only these two kinds of event change a job, each its own one. */
  lemma OnlyHolderWrites(s: State, e: Event, h: nat)
    requires Reachable(s) && Enabled(s, e) && h in s.handlers
    ensures h in Apply(s, e).handlers
    ensures Apply(s, e).handlers[h].job != s.handlers[h].job ==> h == JobOf(s, e) && (OfHandler(e) || OfWorker(e))
  {
    hide Apply, Enabled, Reachable, JobOk;
    ReachableInv(s);
    StepIsOwn(s, e);
    if !OfHandler(e) && !OfWorker(e) {
      OthersChangeNoJob(s, e, h);
    }
  }

  // ----- remote calls

  predicate FinalCalls(calls: seq<Call>) {
    || calls == []
    || calls == [PatchRunning]
    || exists t {:trigger PatchInfo(t)} :: Terminal(t) &&
         (calls == [PatchInfo(t)] || calls == [PatchRunning, PatchInfo(t)]
          || calls == [PatchRunning, PatchInfo(t), PatchInfo(t)])
  }

  /** Any prefix of a possible call sequence is one. */
  lemma FinalCallsPrefix(calls: seq<Call>, rest: seq<Call>)
    requires FinalCalls(calls + rest)
    ensures FinalCalls(calls)
  {
    var all := calls + rest;
    assert calls == all[..|calls|];
    if |calls| > 1 {
      var t :| Terminal(t) && (all == [PatchInfo(t)] || all == [PatchRunning, PatchInfo(t)]
                               || all == [PatchRunning, PatchInfo(t), PatchInfo(t)]);
      assert calls == [PatchRunning, PatchInfo(t)] || calls == all;
    } else if |calls| == 1 {
      assert calls[0] == all[0];
    }
  }

  lemma ShapeCalls(x: Handler, w: Worker, issued: seq<Call>)
    requires InShape(x, w, issued)
    ensures FinalCalls(issued)
  {
    assert Terminal(Failed) && Terminal(Succeeded);
    var t := if x.job.status == Succeeded then Succeeded else Failed;
    assert FinalCalls([PatchInfo(t)]) && FinalCalls([PatchRunning, PatchInfo(t)])
           && FinalCalls([PatchRunning, PatchInfo(t), PatchInfo(t)]);
  }

  /**
   The remote calls made for a non-SSE job are none, one running patch, one terminal patch,
   or a running patch followed by at most two patches of one and the same terminal status:
   nothing ever follows a terminal patch but its repetition.
   */
  lemma RemoteTrace(s: State, h: nat)
    requires Reachable(s) && h in s.handlers && s.handlers[h].job.kind != Sse
    ensures FinalCalls(s.handlers[h].calls)
  {
    hide InShape, Located, Reachable;
    ReachableInv(s);
    assert JobOk(s, h);
    ShapeCalls(s.handlers[h], WorkerFor(s, h), Issued(s, h));
    FinalCallsPrefix(s.handlers[h].calls, if s.db.Some? && s.db.value.owner == h then CallsFor(s.db.value) else []);
  }

  /**
   How a job ends: the last remote call of a job whose handler is gone and whose records
   have been consumed is its final status, exactly if it had been given job-info updates.
   That fails for jobs that were not ready, jobs of unknown type and jobs whose
   pre-processing panicked.
   */
  lemma FinalReport(s: State, h: nat)
    requires Reachable(s) && h in s.handlers && s.handlers[h].job.kind != Sse
    requires s.handlers[h].pc == Ended && s.db == None
    ensures var x := s.handlers[h];
            && (x.job.useJobInfo <==> x.calls != [] && x.calls[|x.calls| - 1] == PatchInfo(x.job.status))
            && (x.job.useJobInfo ==> Terminal(x.job.status))
            && x.log != [] && x.log[|x.log| - 1] == x.job.status
            && (!x.job.useJobInfo ==> x.calls == [] || (x.job.kind == Unknown && x.calls == [PatchRunning]))
  {
    hide Located, Reachable;
    ReachableInv(s);
    assert JobOk(s, h);
    assert Issued(s, h) == s.handlers[h].calls;
  }

  // ----- passes and history

  /** READY RUNNING X, READY X or X, or a prefix of one of them. */
  predicate PossibleLog(log: seq<Status>) {
    |log| <= 1 || (|log| == 2 && log[0] == Ready) || (|log| == 3 && log[0] == Ready && log[1] == Running)
  }

  lemma ShapeLog(x: Handler, w: Worker, issued: seq<Call>)
    requires InShape(x, w, issued)
    ensures PossibleLog(x.log) && x.passes <= 1
  {
  }

  /** A non-SSE job is pre-processed at most once, and its history is READY RUNNING X, READY X or X, or a prefix. */
  lemma BoundedPasses(s: State, h: nat)
    requires Reachable(s) && h in s.handlers && s.handlers[h].job.kind != Sse
    ensures s.handlers[h].passes <= 1 && PossibleLog(s.handlers[h].log)
  {
    hide InShape, Located, Reachable;
    ReachableInv(s);
    assert JobOk(s, h);
    ShapeLog(s.handlers[h], WorkerFor(s, h), Issued(s, h));
  }

  // ----- wait and done

  /**
   A handler leaves its wait only when the worker has ended every submission of its job,
   and the worker's Done always finds the wait group open, so it is never done twice.
   */
  lemma WaitMatchesDone(s: State, h: nat)
    requires Reachable(s) && h in s.handlers
    ensures s.handlers[h].served <= s.handlers[h].submitted <= s.handlers[h].served + 1
    ensures Enabled(s, Wake(h)) ==> s.handlers[h].served == s.handlers[h].submitted > 0
    ensures s.worker == Releasing(h) ==> s.handlers[h].wg == 1 && s.handlers[h].pc == Waiting
    ensures 0 <= s.handlers[h].wg <= 1
  {
    hide Shaped, Reachable;
    ReachableInv(s);
    assert JobOk(s, h);
  }

  // ----- queue safety

  /** The FIFO never exceeds its limit and jobs start in the order they were accepted. */
  lemma QueueBoundedAndOrdered(s: State)
    requires Reachable(s)
    ensures |s.fifo| <= (if s.limit > 0 then s.limit else 0)
    ensures s.started <= s.accepted && s.accepted[|s.started|..] == s.fifo
  {
    hide JobOk, Reachable;
    ReachableInv(s);
  }
}
