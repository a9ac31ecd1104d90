/**
 The inductive invariant of the scheduler and the proof that every event of every
 goroutine keeps it.
 */
module SchedulerInvariant {
  import opened Collections
  import opened Jobs
  import opened Scheduler

  // ----- where a job is

  datatype Place = InHandler | InQueue | InFifo | InWorker | Dropped | Gone

  predicate QueueHolds(s: State, h: nat) {
    !s.queue.QueueIdle? && s.queue.owner == h
  }

  predicate WorkerHolds(s: State, h: nat) {
    !s.worker.WorkerIdle? && s.worker.owner == h
  }

  function PlaceOf(s: State, h: nat): Place
    requires h in s.handlers
  {
    var x := s.handlers[h];
    if x.pc == Ended then Gone
    else if x.pc != Waiting || x.wg == 0 then InHandler
    else if QueueHolds(s, h) then InQueue
    else if WorkerHolds(s, h) then InWorker
    else if h in s.fifo then InFifo
    else Dropped
  }

  /** The shared structures agree on where the job is, and the wait group is open exactly while it is away. */
  ghost predicate Located(s: State, h: nat)
    requires h in s.handlers
  {
    var x, p := s.handlers[h], PlaceOf(s, h);
    && (QueueHolds(s, h) <==> p == InQueue)
    && (WorkerHolds(s, h) <==> p == InWorker)
    && (h in s.fifo <==> p == InFifo)
    && (h in s.dropped <==> p == Dropped)
    && x.wg == (if p == InHandler || p == Gone then 0 else 1)
    && x.submitted == x.served + x.wg
    && (x.pc == Waiting ==> x.submitted > 0)
  }

  /** The shared structures only mention jobs that have arrived. */
  ghost predicate Known(s: State) {
    && (!s.queue.QueueIdle? ==> s.queue.owner in s.handlers)
    && (!s.worker.WorkerIdle? ==> s.worker.owner in s.handlers)
    && (s.db.Some? ==> s.db.value.owner in s.handlers)
    && (forall h :: h in s.fifo ==> h in s.handlers)
    && (forall h :: h in s.dropped ==> h in s.handlers)
  }

  ghost predicate QueueSafe(s: State) {
    && Distinct(s.fifo)
    && |s.fifo| <= (if s.limit > 0 then s.limit else 0)
    && (s.queue.Admitted? ==> |s.fifo| < s.limit)
    && s.accepted == s.started + s.fifo
  }

  // ----- what a job looks like

  /** The remote calls made for a job, with the one its pending record is about to make. */
  function Issued(s: State, h: nat): seq<Call>
    requires h in s.handlers
  {
    s.handlers[h].calls + (if s.db.Some? && s.db.value.owner == h then CallsFor(s.db.value) else [])
  }

  /** Before the worker has touched the job. */
  predicate Fresh(x: Handler) {
    && x.passes == 1 && x.log == [Ready]
    && x.job.status == Ready && !x.job.useJobInfo
    && !x.job.flags.mitigated && !x.job.flags.finished && !x.job.flags.postProcessed
  }

  /** After the worker is done with the job. */
  predicate Processed(x: Handler) {
    && x.passes == 1 && x.log == [Ready, Running]
    && !x.job.flags.mitigated && !x.job.flags.postProcessed
    && match x.job.kind
       case Unknown => x.job.status == Running
       case Estimation =>
         (x.job.status == Running || Terminal(x.job.status)) && (x.job.flags.finished ==> x.job.status == Failed)
       case _ => Terminal(x.job.status)
  }

  /**
   A job whose handler has nothing left to do but leave: refused because it was not ready,
   failed before it was submitted, or run. It was reported as failed before submission
   exactly if its record asked for it, which a recovered panic does not.
   */
  predicate InFinalShape(x: Handler, issued: seq<Call>) {
    var j := x.job;
    || (x.passes == 0 && x.log == [j.status] && j.status != Ready && !j.useJobInfo && issued == [])
    || (x.passes == 1 && x.log == [Ready, Failed] && j.status == Failed
        && issued == (if j.useJobInfo then [PatchInfo(Failed)] else []))
    || (x.passes == 1 && x.log == [Ready, Running, j.status] && Terminal(j.status) && j.useJobInfo
        && (issued == [PatchRunning, PatchInfo(j.status)]
            || issued == [PatchRunning, PatchInfo(j.status), PatchInfo(j.status)]))
    || (x.passes == 1 && x.log == [Ready, Running, Running] && j.status == Running && j.kind == Unknown && !j.useJobInfo
        && issued == [PatchRunning])
  }

  predicate WithWorker(x: Handler, w: Worker, issued: seq<Call>) {
    match w
    case WorkerIdle => Fresh(x) && issued == []
    case Marking(_) => Fresh(x) && issued == []
    case Announcing(_) => Marked(x) && issued == []
    case Processing(_) => Marked(x) && issued == [PatchRunning]
    case CrashAnnouncing(_) => Marked(x.(job := x.job.(status := Running))) && x.job.status == Failed
                               && x.job.kind != Unknown && issued == [PatchRunning]
    case Releasing(_) => Processed(x) && !x.job.useJobInfo && issued == [PatchRunning]
  }

  /** Marked as running and not yet processed. */
  predicate Marked(x: Handler) {
    && x.log == [Ready, Running] && x.job.status == Running
    && Fresh(x.(log := [Ready], job := x.job.(status := Ready)))
  }

  /**
   A non-SSE job at each point of its life: `w` is the worker if it holds the job, and
   `issued` are its remote calls including a pending one.
   */
  predicate InShape(x: Handler, w: Worker, issued: seq<Call>) {
    var j := x.job;
    match x.pc
    case Start =>
      || (x.passes == 0 && x.log == [] && issued == [] && j.flags == CLEAR)
      || (j.kind == Unknown && Processed(x) && issued == [PatchRunning])
    case Pre => Fresh(x) && j.flags == CLEAR && issued == []
    case PublishPre =>
      && issued == []
      && (if IsFinished(j) then x.passes == 1 && x.log == [Ready] && j.status == Failed && j.useJobInfo else Fresh(x))
    case RecordPre =>
      x.passes == 1 && x.log == [Ready] && j.status == Failed && j.useJobInfo && issued == [PatchInfo(Failed)]
    case Submit => Fresh(x) && issued == []
    case Waiting =>
      if x.wg == 0 then Processed(x) && !j.useJobInfo && issued == [PatchRunning] else WithWorker(x, w, issued)
    case PublishDone => Processed(x) && Terminal(j.status) && j.useJobInfo && issued == [PatchRunning]
    case RecordDone =>
      Processed(x) && Terminal(j.status) && j.useJobInfo && issued == [PatchRunning, PatchInfo(j.status)]
    case RepublishDone =>
      && x.passes == 1 && x.log == [Ready, Running, j.status] && Terminal(j.status) && j.useJobInfo
      && issued == [PatchRunning, PatchInfo(j.status)]
    case Post => Processed(x) && !IsFinished(j) && j.useJobInfo && issued == [PatchRunning]
    case RecordPost =>
      x.passes == 1 && x.log == [Ready, Running] && Terminal(j.status) && j.useJobInfo && issued == [PatchRunning]
    case PublishPost =>
      x.passes == 1 && x.log == [Ready, Running, j.status] && Terminal(j.status) && j.useJobInfo
      && issued == [PatchRunning]
    case RecoverRecord =>
      && x.passes == 1 && j.status == Failed
      && (if j.useJobInfo then x.log == [Ready, Running] && issued == [PatchRunning]
          else x.log == [Ready] && issued == [])
    case RecoverPublish =>
      && x.passes == 1 && j.status == Failed
      && (if j.useJobInfo then x.log == [Ready, Running, Failed] && issued == [PatchRunning]
          else x.log == [Ready, Failed] && issued == [])
    case Cleanup => InFinalShape(x, issued)
    case Ended => InFinalShape(x, issued)
  }

  function WorkerFor(s: State, h: nat): Worker {
    if WorkerHolds(s, h) then s.worker else WorkerIdle
  }

  ghost predicate Shaped(s: State, h: nat)
    requires h in s.handlers
  {
    s.handlers[h].job.kind != Sse ==> InShape(s.handlers[h], WorkerFor(s, h), Issued(s, h))
  }

  ghost predicate JobOk(s: State, h: nat)
    requires h in s.handlers
  {
    Located(s, h) && Shaped(s, h)
  }

  ghost predicate Inv(s: State) {
    Known(s) && QueueSafe(s) && forall h :: h in s.handlers ==> JobOk(s, h)
  }

  // ----- every event keeps the invariant

  lemma HandlerKeepsIdentity(s: State, e: Event)
    requires Enabled(s, e) && OfHandler(e)
    ensures e.h in Apply(s, e).handlers && SameJob(s.handlers[e.h].job, Apply(s, e).handlers[e.h].job)
  {
    hide AfterPublish, AfterNote, IsFinished, Append, Terminal, PostFlags;
  }

  lemma WorkerKeepsIdentity(s: State, e: Event)
    requires Enabled(s, e) && OfWorker(e)
    ensures var h := s.worker.owner;
            h in Apply(s, e).handlers && SameJob(s.handlers[h].job, Apply(s, e).handlers[h].job)
  {
    hide Append, Terminal;
  }

  /** Events of the queue goroutine, the consumer and new arrivals change no job. */
  lemma OthersChangeNoJob(s: State, e: Event, h: nat)
    requires Known(s) && Enabled(s, e) && h in s.handlers && !OfHandler(e) && !OfWorker(e)
    ensures h in Apply(s, e).handlers && Apply(s, e).handlers[h].job == s.handlers[h].job
  {
    hide CallsFor;
  }

  /** A job keeps its identity and its type for life. */
  lemma IdentityKept(s: State, e: Event, h: nat)
    requires Known(s) && Enabled(s, e) && h in s.handlers
    ensures h in Apply(s, e).handlers && SameJob(s.handlers[h].job, Apply(s, e).handlers[h].job)
  {
    hide Apply;
    StepIsOwn(s, e);
    if OfHandler(e) {
      HandlerKeepsIdentity(s, e);
    } else if OfWorker(e) {
      WorkerKeepsIdentity(s, e);
    } else {
      OthersChangeNoJob(s, e, h);
    }
  }

  /** Nothing an event does reaches job `h`. */
  ghost predicate Untouched(s: State, s': State, h: nat) {
    && h in s.handlers && h in s'.handlers && s'.handlers[h] == s.handlers[h]
    && (QueueHolds(s', h) <==> QueueHolds(s, h))
    && (WorkerHolds(s', h) <==> WorkerHolds(s, h)) && (WorkerHolds(s, h) ==> s'.worker == s.worker)
    && (h in s'.fifo <==> h in s.fifo)
    && (h in s'.dropped <==> h in s.dropped)
    && Issued(s', h) == Issued(s, h)
  }

  lemma UntouchedOk(s: State, s': State, h: nat)
    requires Untouched(s, s', h) && JobOk(s, h)
    ensures JobOk(s', h)
  {
  }

  /** The job an event is about. */
  function JobOf(s: State, e: Event): nat
    requires Enabled(s, e)
  {
    match e
    case QueueRefuse => s.queue.owner
    case QueueAdmit => s.queue.owner
    case QueuePut => s.queue.owner
    case Dequeue => s.fifo[0]
    case MarkRunning => s.worker.owner
    case Announce => s.worker.owner
    case ProcessReturn(_) => s.worker.owner
    case ProcessPanic(_) => s.worker.owner
    case AnnounceCrash => s.worker.owner
    case Release => s.worker.owner
    case Consume => s.db.value.owner
    case _ => e.h
  }

  /** Only job `h`'s entry, and mentions of `h` in the shared structures, change. */
  ghost predicate OwnStep(s: State, s': State, h: nat) {
    && h in s'.handlers && s'.handlers == s.handlers[h := s'.handlers[h]]
    && (s'.queue == s.queue ||
           ((s.queue.QueueIdle? || s.queue.owner == h) && (s'.queue.QueueIdle? || s'.queue.owner == h)))
    && (s'.worker == s.worker ||
           ((s.worker.WorkerIdle? || s.worker.owner == h) && (s'.worker.WorkerIdle? || s'.worker.owner == h)))
    && (s'.db == s.db || ((s.db.None? || s.db.value.owner == h) && (s'.db.None? || s'.db.value.owner == h)))
    && (s'.queue.Admitted? ==> s'.queue == s.queue || |s.fifo| < s.limit)
    && (s'.dropped == s.dropped || s'.dropped == s.dropped + {h})
    && s'.limit == s.limit
    && ( || (s'.fifo == s.fifo && s'.accepted == s.accepted && s'.started == s.started)
         || (s'.fifo == s.fifo + [h] && s'.accepted == s.accepted + [h] && s'.started == s.started
             && s.queue == Admitted(h) && s'.queue == QueueIdle)
         || (s.fifo == [h] + s'.fifo && s'.accepted == s.accepted && s'.started == s.started + [h]))
  }

  predicate OfHandler(e: Event) {
    e.Begin? || e.PreReturn? || e.PrePanic? || e.Publish? || e.Note? || e.Enqueue? || e.Wake?
    || e.PostReturn? || e.PostPanic? || e.Exit?
  }

  predicate OfWorker(e: Event) {
    e.MarkRunning? || e.Announce? || e.ProcessReturn? || e.ProcessPanic? || e.AnnounceCrash? || e.Release?
  }

  lemma HandlerStepIsOwn(s: State, e: Event)
    requires Enabled(s, e) && OfHandler(e)
    ensures OwnStep(s, Apply(s, e), e.h)
  {
    hide AfterPublish, AfterNote, IsFinished, Append;
  }

  lemma WorkerStepIsOwn(s: State, e: Event)
    requires Enabled(s, e) && OfWorker(e)
    ensures OwnStep(s, Apply(s, e), s.worker.owner)
  {
    hide Append;
  }

  lemma OtherStepIsOwn(s: State, e: Event)
    requires Known(s) && Enabled(s, e) && !OfHandler(e) && !OfWorker(e)
    ensures OwnStep(s, Apply(s, e), JobOf(s, e))
  {
    hide CallsFor;
  }

  lemma StepIsOwn(s: State, e: Event)
    requires Known(s) && Enabled(s, e)
    ensures OwnStep(s, Apply(s, e), JobOf(s, e))
  {
    hide Apply, OwnStep;
    if OfHandler(e) {
      HandlerStepIsOwn(s, e);
    } else if OfWorker(e) {
      WorkerStepIsOwn(s, e);
    } else {
      OtherStepIsOwn(s, e);
    }
  }

  lemma OthersUntouched(s: State, s': State, h: nat, other: nat)
    requires OwnStep(s, s', h) && other in s.handlers && other != h
    ensures Untouched(s, s', other)
  {
  }

  lemma OwnKeys(s: State, s': State, h: nat)
    requires OwnStep(s, s', h)
    ensures s'.handlers.Keys == s.handlers.Keys + {h}
  {
  }

  lemma KnownKept(s: State, s': State, h: nat)
    requires Known(s) && OwnStep(s, s', h)
    ensures Known(s')
  {
  }

  lemma BeginOk(s: State, h: nat)
    requires At(s, h, Start) && JobOk(s, h)
    ensures JobOk(DoBegin(s, h), h)
  {
  }

  lemma PreReturnOk(s: State, h: nat, after: Job)
    requires At(s, h, Pre) && PreReturns(s.handlers[h].job, after) && JobOk(s, h)
    ensures JobOk(DoPreReturn(s, h, after), h)
  {
  }

  lemma PrePanicOk(s: State, h: nat, after: Job)
    requires At(s, h, Pre) && PrePanics(s.handlers[h].job, after) && JobOk(s, h)
    ensures JobOk(DoRecover(s, h, after), h)
  {
  }

  lemma PublishOk(s: State, h: nat)
    requires h in s.handlers && Publishing(s.handlers[h].pc) && s.db == None && JobOk(s, h)
    ensures JobOk(DoPublish(s, h), h)
  {
  }

  lemma NoteOk(s: State, h: nat)
    requires h in s.handlers && Noting(s.handlers[h].pc) && JobOk(s, h)
    ensures JobOk(DoNote(s, h), h)
  {
  }

  lemma EnqueueOk(s: State, h: nat)
    requires At(s, h, Submit) && s.queue == QueueIdle && JobOk(s, h)
    ensures JobOk(DoEnqueue(s, h), h)
  {
  }

  lemma WakeOk(s: State, h: nat)
    requires At(s, h, Waiting) && s.handlers[h].wg == 0 && JobOk(s, h)
    ensures JobOk(DoWake(s, h), h)
  {
  }

  lemma PostReturnOk(s: State, h: nat, after: Job)
    requires At(s, h, Post) && PostReturns(s.handlers[h].job, after) && JobOk(s, h)
    ensures JobOk(DoPostReturn(s, h, after), h)
  {
  }

  lemma PostPanicOk(s: State, h: nat, after: Job)
    requires At(s, h, Post) && PostPanics(s.handlers[h].job, after) && JobOk(s, h)
    ensures JobOk(DoRecover(s, h, after), h)
  {
  }

  lemma ExitOk(s: State, h: nat)
    requires At(s, h, Cleanup) && JobOk(s, h)
    ensures JobOk(DoExit(s, h), h)
  {
  }

  lemma MarkOk(s: State, h: nat)
    requires s.worker == Marking(h) && h in s.handlers && JobOk(s, h)
    ensures JobOk(DoMark(s, h), h)
  {
  }

  lemma AnnounceOk(s: State, h: nat)
    requires s.worker == Announcing(h) && h in s.handlers && s.db == None && JobOk(s, h)
    ensures JobOk(DoAnnounce(s, h, Processing(h)), h)
  {
  }

  lemma ProcessReturnOk(s: State, h: nat, after: Job)
    requires s.worker == Processing(h) && h in s.handlers && ProcessReturns(s.handlers[h].job, after) && JobOk(s, h)
    ensures JobOk(DoProcess(s, h, after, Releasing(h)), h)
  {
  }

  lemma ProcessPanicOk(s: State, h: nat, after: Job)
    requires s.worker == Processing(h) && h in s.handlers && ProcessPanics(s.handlers[h].job, after) && JobOk(s, h)
    ensures JobOk(DoProcess(s, h, after.(status := Failed), CrashAnnouncing(h)), h)
  {
  }

  lemma AnnounceCrashOk(s: State, h: nat)
    requires s.worker == CrashAnnouncing(h) && h in s.handlers && s.db == None && JobOk(s, h)
    ensures JobOk(DoAnnounce(s, h, Releasing(h)), h)
  {
  }

  lemma ReleaseOk(s: State, h: nat)
    requires s.worker == Releasing(h) && h in s.handlers && JobOk(s, h)
    ensures JobOk(DoRelease(s, h), h)
  {
  }

  lemma QueueOk(s: State, e: Event)
    requires Known(s) && Enabled(s, e) && (e.QueueRefuse? || e.QueueAdmit? || e.QueuePut?) && JobOk(s, s.queue.owner)
    ensures JobOk(Apply(s, e), s.queue.owner)
  {
  }

  lemma DequeueOk(s: State)
    requires Known(s) && Distinct(s.fifo) && Enabled(s, Dequeue) && JobOk(s, s.fifo[0])
    ensures JobOk(Apply(s, Dequeue), s.fifo[0])
  {
    assert s.fifo[0] !in s.fifo[1..];
  }

  lemma ArriveOk(s: State, h: nat, job: Job)
    requires Known(s) && h !in s.handlers && job.flags == CLEAR
    ensures JobOk(Apply(s, Arrive(h, job)), h)
  {
  }

  lemma ConsumeOk(s: State, r: Record)
    requires s.db == Some(r) && r.owner in s.handlers && JobOk(s, r.owner)
    ensures JobOk(Apply(s, Consume), r.owner)
  {
    assert Issued(DoConsume(s, r), r.owner) == Issued(s, r.owner);
  }

  predicate BeforeWait(e: Event) {
    e.Begin? || e.PreReturn? || e.PrePanic? || e.Enqueue? || e.Publish?
  }

  lemma EarlyHandlerOk(s: State, e: Event)
    requires Enabled(s, e) && OfHandler(e) && BeforeWait(e) && e.h in s.handlers && JobOk(s, e.h)
    ensures JobOk(Apply(s, e), e.h)
  {
    hide JobOk, DoBegin, DoPreReturn, DoRecover, DoPublish, DoEnqueue;
    match e
    case Begin(h) => BeginOk(s, h);
    case PreReturn(h, after) => PreReturnOk(s, h, after);
    case PrePanic(h, after) => PrePanicOk(s, h, after);
    case Publish(h) => PublishOk(s, h);
    case Enqueue(h) => EnqueueOk(s, h);
  }

  lemma LateHandlerOk(s: State, e: Event)
    requires Enabled(s, e) && OfHandler(e) && !BeforeWait(e) && e.h in s.handlers && JobOk(s, e.h)
    ensures JobOk(Apply(s, e), e.h)
  {
    hide JobOk, DoNote, DoRecover, DoWake, DoPostReturn, DoExit;
    match e
    case Note(h) => NoteOk(s, h);
    case Wake(h) => WakeOk(s, h);
    case PostReturn(h, after) => PostReturnOk(s, h, after);
    case PostPanic(h, after) => PostPanicOk(s, h, after);
    case Exit(h) => ExitOk(s, h);
  }

  lemma WorkerOk(s: State, e: Event)
    requires Enabled(s, e) && OfWorker(e) && JobOk(s, s.worker.owner)
    ensures JobOk(Apply(s, e), s.worker.owner)
  {
    hide JobOk, DoMark, DoAnnounce, DoProcess, DoRelease;
    var h := s.worker.owner;
    match e
    case MarkRunning => MarkOk(s, h);
    case Announce => AnnounceOk(s, h);
    case ProcessReturn(after) => ProcessReturnOk(s, h, after);
    case ProcessPanic(after) => ProcessPanicOk(s, h, after);
    case AnnounceCrash => AnnounceCrashOk(s, h);
    case Release => ReleaseOk(s, h);
  }

  /** The job an event is about stays well-formed. */
  lemma ActorOk(s: State, e: Event)
    requires Inv(s) && Enabled(s, e)
    ensures JobOf(s, e) in Apply(s, e).handlers && JobOk(Apply(s, e), JobOf(s, e))
  {
    hide JobOk, Apply;
    StepIsOwn(s, e);
    if OfHandler(e) && BeforeWait(e) {
      EarlyHandlerOk(s, e);
    } else if OfHandler(e) {
      LateHandlerOk(s, e);
    } else if OfWorker(e) {
      WorkerOk(s, e);
    } else if e.Arrive? {
      ArriveOk(s, e.h, e.job);
    } else if e.Dequeue? {
      DequeueOk(s);
    } else if e.Consume? {
      ConsumeOk(s, s.db.value);
    } else {
      QueueOk(s, e);
    }
  }

  lemma QueueSafeKept(s: State, s': State, h: nat)
    requires Inv(s) && OwnStep(s, s', h)
    ensures QueueSafe(s')
  {
    hide Shaped, Distinct;
    if |s'.fifo| > |s.fifo| {
      assert JobOk(s, h);
      DistinctAppend(s.fifo, h);
      assert s.started + (s.fifo + [h]) == s.started + s.fifo + [h];
    } else if |s'.fifo| < |s.fifo| {
      DistinctTail(h, s'.fifo);
      assert s.started + ([h] + s'.fifo) == s.started + [h] + s'.fifo;
    }
  }

  lemma DistinctAppend(fifo: seq<nat>, h: nat)
    requires Distinct(fifo) && h !in fifo
    ensures Distinct(fifo + [h])
  {
  }

  lemma DistinctTail(h: nat, fifo: seq<nat>)
    requires Distinct([h] + fifo)
    ensures Distinct(fifo)
  {
    var all := [h] + fifo;
    forall i, j | 0 <= i < j < |fifo| ensures fifo[i] != fifo[j] {
      assert all[i + 1] == fifo[i] && all[j + 1] == fifo[j];
    }
  }

  /** The invariant is inductive: every enabled event of every goroutine keeps it. */
  lemma StepKeepsInv(s: State, e: Event)
    requires Inv(s) && Enabled(s, e)
    ensures Inv(Apply(s, e))
  {
    hide JobOk, OwnStep, Untouched, Apply;
    var s', mine := Apply(s, e), JobOf(s, e);
    StepIsOwn(s, e);
    KnownKept(s, s', mine);
    QueueSafeKept(s, s', mine);
    OwnKeys(s, s', mine);
    forall h | h in s'.handlers ensures JobOk(s', h) {
      if h == mine {
        ActorOk(s, e);
      } else {
        assert JobOk(s, h);
        OthersUntouched(s, s', mine, h);
        UntouchedOk(s, s', h);
      }
    }
  }

  /** Hence it holds after every run, whatever the interleaving. */
  lemma {:induction false} RunKeepsInv(limit: int, events: seq<Event>)
    requires IsRun(limit, events)
    ensures Inv(After(limit, events))
  {
    if events != [] {
      RunKeepsInv(limit, Front(events));
      StepKeepsInv(After(limit, Front(events)), Last(events));
    }
  }

  lemma ReachableInv(s: State)
    requires Reachable(s)
    ensures Inv(s)
  {
    var events :| IsRun(s.limit, events) && After(s.limit, events) == s;
    RunKeepsInv(s.limit, events);
  }

  /** The queue's size never changes, and what a run leads to is reachable. */
  lemma {:induction false} LimitKept(limit: int, events: seq<Event>)
    requires IsRun(limit, events)
    ensures After(limit, events).limit == limit && Reachable(After(limit, events))
  {
    if events != [] {
      hide Apply, Enabled, JobOk;
      LimitKept(limit, Front(events));
      RunKeepsInv(limit, Front(events));
      StepIsOwn(After(limit, Front(events)), Last(events));
    }
  }
}
