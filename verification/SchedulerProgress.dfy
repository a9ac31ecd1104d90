/**
 Progress of the scheduler: a refused job is stuck for good, nothing else ever is, and
 every other job that is not an SSE job is done after a bounded number of events.
 */
module SchedulerProgress {
  import opened Collections
  import opened Jobs
  import opened Scheduler
  import opened SchedulerInvariant

  // ----- refused jobs

  /** What a refused job's handler looks like apart from late remote calls. */
  function Frozen(x: Handler): Handler {
    x.(calls := [])
  }

  /** Once refused, a job takes part in no event but the consumption of its last record. */
  lemma RefusedActor(s: State, e: Event, h: nat)
    requires Enabled(s, e) && h in s.handlers && h in s.dropped && JobOk(s, h) && JobOf(s, e) == h
    ensures e == Consume
  {
    hide Shaped;
  }

  lemma RefusedStep(s: State, e: Event, h: nat)
    requires Inv(s) && Enabled(s, e) && h in s.dropped
    ensures var s' := Apply(s, e);
            && h in s.handlers && h in s'.handlers && h in s'.dropped
            && Frozen(s'.handlers[h]) == Frozen(s.handlers[h])
            && (JobOf(s, e) == h ==> e == Consume)
  {
    hide JobOk;
    assert JobOk(s, h);
    if JobOf(s, e) != h {
      RefusedBystander(s, e, h);
    } else {
      RefusedActor(s, e, h);
    }
  }

  lemma RefusedBystander(s: State, e: Event, h: nat)
    requires Known(s) && Enabled(s, e) && h in s.dropped && h != JobOf(s, e)
    ensures var s' := Apply(s, e); h in s'.handlers && h in s'.dropped && s'.handlers[h] == s.handlers[h]
  {
    hide Apply, Enabled;
    StepIsOwn(s, e);
  }

  /**
   A job refused by the full queue is never processed afterwards and its handler stays in
   its wait, whatever happens next.
   */
  lemma {:induction false} RefusedForever(limit: int, events: seq<Event>, i: nat, h: nat)
    requires IsRun(limit, events) && i <= |events| && h in StateAt(limit, events, i).dropped
    ensures var s, s' := StateAt(limit, events, i), After(limit, events);
            && h in s.handlers && h in s'.handlers && Frozen(s'.handlers[h]) == Frozen(s.handlers[h])
            && h in s'.dropped && s'.handlers[h].pc == Waiting && s'.handlers[h].wg == 1
            && PlaceOf(s', h) == Dropped
  {
    hide Apply, Enabled, Shaped;
    RunKeepsInv(limit, events);
    if i == |events| {
      assert events[..i] == events;
      assert JobOk(After(limit, events), h);
    } else {
      assert Front(events)[..i] == events[..i];
      RefusedForever(limit, Front(events), i, h);
      RunKeepsInv(limit, Front(events));
      RefusedStep(After(limit, Front(events)), Last(events), h);
      assert JobOk(After(limit, events), h);
    }
  }

  // ----- no deadlock

  /** Some way for each job method to return. */
  function SomePre(j: Job): (k: Job)
    requires j.kind == Sampling ==> !j.flags.mitigated && !j.flags.finished && !j.flags.postProcessed
    ensures PreReturns(j, k)
  {
    j
  }

  function SomeProcess(j: Job): (k: Job)
    ensures ProcessReturns(j, k)
  {
    if j.kind == Unknown then j else j.(status := Succeeded)
  }

  function SomePost(j: Job): (k: Job)
    ensures PostReturns(j, k)
  {
    if j.kind == Estimation || j.kind == Manual then j.(status := Succeeded, flags := PostFlags(j))
    else j.(flags := PostFlags(j))
  }

  predicate Stuck(s: State) {
    s.db == None && s.worker == WorkerIdle && s.fifo == [] && s.queue == QueueIdle
  }

  /** A busy shared goroutine can always move. */
  lemma SharedMoves(s: State) returns (e: Event)
    requires Known(s) && !Stuck(s)
    ensures Enabled(s, e) && !e.Arrive?
  {
    if s.db.Some? {
      e := Consume;
    } else if !s.worker.WorkerIdle? {
      match s.worker
      case Marking(_) => e := MarkRunning;
      case Announcing(_) => e := Announce;
      case Processing(h) => e := ProcessReturn(SomeProcess(s.handlers[h].job));
      case CrashAnnouncing(_) => e := AnnounceCrash;
      case Releasing(_) => e := Release;
    } else if s.fifo != [] {
      e := Dequeue;
    } else {
      match s.queue
      case Holding(_) => e := if s.limit <= |s.fifo| then QueueRefuse else QueueAdmit;
      case Admitted(_) => e := QueuePut;
    }
  }

  /** With the shared goroutines idle, a handler that holds its job can move. */
  lemma HandlerMoves(s: State, h: nat) returns (e: Event)
    requires Stuck(s) && h in s.handlers && JobOk(s, h) && PlaceOf(s, h) == InHandler
    ensures Enabled(s, e) && !e.Arrive?
  {
    var x := s.handlers[h];
    match x.pc
    case Start => e := Begin(h);
    case Pre => e := PreReturn(h, SomePre(x.job));
    case Submit => e := Enqueue(h);
    case Waiting => e := Wake(h);
    case Post => e := PostReturn(h, SomePost(x.job));
    case Cleanup => e := Exit(h);
    case _ => e := if Publishing(x.pc) then Publish(h) else Note(h);
  }

  /**
   No deadlock: where no goroutine can move, every job has either ended or been refused by
   the queue, and the queue, the FIFO, the worker and the consumer are all idle.
   */
  lemma NoDeadlock(s: State)
    requires Reachable(s) && forall e :: Enabled(s, e) ==> e.Arrive?
    ensures Stuck(s)
    ensures forall h :: h in s.handlers ==> PlaceOf(s, h) == Gone || PlaceOf(s, h) == Dropped
  {
    hide Shaped, Reachable, Enabled;
    ReachableInv(s);
    if !Stuck(s) {
      var e := SharedMoves(s);
    }
    forall h | h in s.handlers ensures PlaceOf(s, h) == Gone || PlaceOf(s, h) == Dropped {
      assert JobOk(s, h);
      if PlaceOf(s, h) == InHandler {
        var e := HandlerMoves(s, h);
      }
    }
  }

  // ----- bounded work

  /** An upper bound on the events a non-SSE job can still take part in. */
  function Budget(s: State, h: nat): nat
    requires h in s.handlers
  {
    PcBudget(s.handlers[h], if WorkerHolds(s, h) then s.worker else WorkerIdle,
             if QueueHolds(s, h) then s.queue else QueueIdle, h in s.dropped)
    + (if s.db.Some? && s.db.value.owner == h then 1 else 0)
  }

  function PcBudget(x: Handler, w: Worker, q: Queue, dropped: bool): nat {
    match x.pc
    case Start => if x.passes == 0 then 22 else 2
    case Pre => 21
    case PublishPre => 20
    case Submit => 18
    case Waiting =>
      if x.wg == 0 then 7
      else if dropped then 0
      else if q.Holding? then 17
      else if q.Admitted? then 16
      else (match w
            case WorkerIdle => 15
            case Marking(_) => 14
            case Announcing(_) => 13
            case Processing(_) => 11
            case CrashAnnouncing(_) => 10
            case Releasing(_) => 8)
    case PublishDone => 6
    case Post => 5
    case RecordDone | RecordPost | RecoverRecord => 4
    case RepublishDone | PublishPost | RecoverPublish => 3
    case RecordPre => 2
    case Cleanup => 1
    case Ended => 0
  }

  const MAX_EVENTS: nat := 23

  lemma EarlySpends(s: State, e: Event)
    requires Enabled(s, e) && OfHandler(e) && BeforeWait(e) && !e.Begin? && JobOk(s, e.h)
    ensures e.h in Apply(s, e).handlers && Budget(Apply(s, e), e.h) < Budget(s, e.h)
  {
    hide Shaped, IsFinished;
  }

  lemma LateSpends(s: State, e: Event)
    requires Enabled(s, e) && OfHandler(e) && !BeforeWait(e) && !e.PostReturn? && JobOk(s, e.h)
    ensures e.h in Apply(s, e).handlers && Budget(Apply(s, e), e.h) < Budget(s, e.h)
  {
    hide Shaped, IsFinished, Append;
  }

  /** Where the handler's loop closes, the shape of the job rules out another round. */
  lemma LoopSpends(s: State, e: Event)
    requires Enabled(s, e) && (e.Begin? || e.PostReturn?) && JobOk(s, e.h) && s.handlers[e.h].job.kind != Sse
    ensures e.h in Apply(s, e).handlers && Budget(Apply(s, e), e.h) < Budget(s, e.h)
  {
  }

  lemma WorkerSpends(s: State, e: Event)
    requires Enabled(s, e) && OfWorker(e) && JobOk(s, s.worker.owner) && s.handlers[s.worker.owner].job.kind != Sse
    ensures Budget(Apply(s, e), s.worker.owner) < Budget(s, s.worker.owner)
  {
    hide Shaped;
  }

  lemma SharedSpends(s: State, e: Event)
    requires Known(s) && Enabled(s, e) && !OfHandler(e) && !OfWorker(e) && !e.Arrive?
    requires JobOf(s, e) in s.handlers && JobOk(s, JobOf(s, e))
    ensures Budget(Apply(s, e), JobOf(s, e)) < Budget(s, JobOf(s, e))
  {
    hide Shaped;
  }

  lemma BystanderKeepsBudget(s: State, s': State, h: nat, other: nat)
    requires OwnStep(s, s', h) && other in s.handlers && other != h
    ensures other in s'.handlers && Budget(s', other) == Budget(s, other)
  {
    hide PcBudget, InShape;
    OthersUntouched(s, s', h, other);
  }

  /** Every event about a job spends its budget; events about other jobs leave it alone. */
  lemma BudgetStep(s: State, e: Event, h: nat)
    requires Inv(s) && Enabled(s, e) && h in s.handlers && s.handlers[h].job.kind != Sse
    ensures h in Apply(s, e).handlers
    ensures Budget(Apply(s, e), h) + (if JobOf(s, e) == h then 1 else 0) <= Budget(s, h)
  {
    hide Apply, JobOk, OwnStep, Budget;
    assert JobOk(s, h);
    if JobOf(s, e) != h {
      StepIsOwn(s, e);
      BystanderKeepsBudget(s, Apply(s, e), JobOf(s, e), h);
    } else if e.Begin? || e.PostReturn? {
      LoopSpends(s, e);
    } else if OfHandler(e) && BeforeWait(e) {
      EarlySpends(s, e);
    } else if OfHandler(e) {
      LateSpends(s, e);
    } else if OfWorker(e) {
      WorkerSpends(s, e);
      StepIsOwn(s, e);
      OwnKeys(s, Apply(s, e), h);
    } else {
      SharedSpends(s, e);
      StepIsOwn(s, e);
      OwnKeys(s, Apply(s, e), h);
    }
  }

  /** How many events of a run are about job `h`. */
  function Involved(limit: int, events: seq<Event>, h: nat): nat
    requires IsRun(limit, events)
  {
    if events == [] then 0
    else Involved(limit, Front(events), h)
         + (if JobOf(After(limit, Front(events)), Last(events)) == h then 1 else 0)
  }

  lemma ArrivalBudget(s: State, e: Event)
    requires Inv(s) && Enabled(s, e) && e.Arrive?
    ensures e.h in Apply(s, e).handlers && Budget(Apply(s, e), e.h) == 22
  {
  }

  /**
   Bounded work: in no run, however long, does a non-SSE job take part in more than 23
   events; what is left of its budget bounds the events still to come.
   */
  lemma {:induction false} BoundedWork(limit: int, events: seq<Event>, h: nat)
    requires IsRun(limit, events)
    ensures var s := After(limit, events);
            && (h !in s.handlers ==> Involved(limit, events, h) == 0)
            && (h in s.handlers && s.handlers[h].job.kind != Sse ==>
                  Involved(limit, events, h) + Budget(s, h) <= MAX_EVENTS)
  {
    if events != [] {
      hide Apply, Enabled, JobOk, OwnStep, Budget;
      var s, e := After(limit, Front(events)), Last(events);
      BoundedWork(limit, Front(events), h);
      RunKeepsInv(limit, Front(events));
      StepIsOwn(s, e);
      OwnKeys(s, Apply(s, e), JobOf(s, e));
      if h in s.handlers {
        IdentityKept(s, e, h);
        if s.handlers[h].job.kind != Sse {
          BudgetStep(s, e, h);
        }
      } else if JobOf(s, e) == h {
        NewcomerArrives(s, e);
        ArrivalBudget(s, e);
      }
    }
  }

  lemma NewcomerArrives(s: State, e: Event)
    requires Known(s) && Enabled(s, e) && JobOf(s, e) !in s.handlers
    ensures e.Arrive?
  {
  }

  // ----- termination

  /** The events of a run about the jobs in `hs`. */
  ghost function InvolvedIn(limit: int, events: seq<Event>, hs: set<nat>): nat
    requires IsRun(limit, events)
  {
    if hs == {} then 0
    else
      var h :| h in hs;
      Involved(limit, events, h) + InvolvedIn(limit, events, hs - {h})
  }

  lemma {:induction false} InvolvedRemove(limit: int, events: seq<Event>, hs: set<nat>, h: nat)
    requires IsRun(limit, events) && h in hs
    ensures InvolvedIn(limit, events, hs) == Involved(limit, events, h) + InvolvedIn(limit, events, hs - {h})
  {
    hide IsRun, Involved;
    var g :| g in hs &&
             InvolvedIn(limit, events, hs) == Involved(limit, events, g) + InvolvedIn(limit, events, hs - {g});
    if g != h {
      InvolvedRemove(limit, events, hs - {g}, h);
      InvolvedRemove(limit, events, hs - {h}, g);
      assert hs - {g} - {h} == hs - {h} - {g};
    }
  }

  /** One more event adds one to the job it is about. */
  lemma {:induction false} InvolvedNext(limit: int, events: seq<Event>, hs: set<nat>)
    requires IsRun(limit, events) && events != []
    ensures InvolvedIn(limit, events, hs) == InvolvedIn(limit, Front(events), hs)
              + (if JobOf(After(limit, Front(events)), Last(events)) in hs then 1 else 0)
  {
    hide Apply, Enabled, JobOf;
    if hs != {} {
      var h :| h in hs;
      InvolvedNext(limit, events, hs - {h});
      InvolvedRemove(limit, events, hs, h);
      InvolvedRemove(limit, Front(events), hs, h);
    }
  }

  /** Every event of a run is about a job that has arrived. */
  lemma {:induction false} EveryEventInvolves(limit: int, events: seq<Event>)
    requires IsRun(limit, events)
    ensures |events| == InvolvedIn(limit, events, After(limit, events).handlers.Keys)
  {
    if events != [] {
      hide Apply, Enabled, JobOk, OwnStep, Involved;
      var s, s', h := After(limit, Front(events)), After(limit, events),
                      JobOf(After(limit, Front(events)), Last(events));
      EveryEventInvolves(limit, Front(events));
      RunKeepsInv(limit, Front(events));
      StepIsOwn(s, Last(events));
      OwnKeys(s, s', h);
      InvolvedNext(limit, events, s'.handlers.Keys);
      if h !in s.handlers {
        BoundedWork(limit, Front(events), h);
        InvolvedRemove(limit, Front(events), s'.handlers.Keys, h);
        assert s'.handlers.Keys - {h} == s.handlers.Keys;
      } else {
        assert s'.handlers.Keys == s.handlers.Keys;
      }
    }
  }

  lemma {:induction false} InvolvedBound(limit: int, events: seq<Event>, hs: set<nat>)
    requires IsRun(limit, events) && hs <= After(limit, events).handlers.Keys
    requires forall h :: h in hs ==> After(limit, events).handlers[h].job.kind != Sse
    ensures InvolvedIn(limit, events, hs) <= MAX_EVENTS * |hs|
  {
    hide IsRun, Involved, Budget, After;
    if hs != {} {
      var h :| h in hs;
      InvolvedRemove(limit, events, hs, h);
      InvolvedBound(limit, events, hs - {h});
      BoundedWork(limit, events, h);
    }
  }

  /**
   Termination: a run in which n jobs arrive, none of them an SSE job, has at most 23n
   events, so once arrivals stop the scheduler comes to rest.
   */
  lemma RunsAreBounded(limit: int, events: seq<Event>)
    requires IsRun(limit, events)
    requires forall h :: h in After(limit, events).handlers ==> After(limit, events).handlers[h].job.kind != Sse
    ensures |events| <= MAX_EVENTS * |After(limit, events).handlers|
  {
    hide IsRun, After;
    EveryEventInvolves(limit, events);
    InvolvedBound(limit, events, After(limit, events).handlers.Keys);
  }
}
