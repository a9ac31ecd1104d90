/**
 Exactly which jobs end without their final status reaching the cloud: the record of a
 recovered pre-processing panic does not ask for a job-info update, so nothing is sent.
 */
module SchedulerReports {
  import opened Collections
  import opened Jobs
  import opened Scheduler
  import opened SchedulerInvariant
  import opened SchedulerRuns

  /** The mark a recovered pre-processing panic leaves on a job for good. */
  predicate Marred(x: Handler) {
    && x.pc in {RecoverRecord, RecoverPublish, Cleanup, Ended}
    && x.passes == 1 && !x.job.useJobInfo && x.job.kind != Unknown
  }

  predicate IsPrePanic(e: Event, h: nat) {
    e.PrePanic? && e.h == h
  }

  lemma HandlerMars(s: State, e: Event)
    requires Enabled(s, e) && OfHandler(e) && JobOk(s, e.h) && s.handlers[e.h].job.kind != Sse
    ensures e.h in Apply(s, e).handlers
    ensures Marred(Apply(s, e).handlers[e.h]) <==> Marred(s.handlers[e.h]) || e.PrePanic?
  {
    hide Located, Append, CallsFor;
  }

  lemma WorkerMars(s: State, e: Event)
    requires Enabled(s, e) && OfWorker(e) && JobOk(s, s.worker.owner)
    ensures s.worker.owner in Apply(s, e).handlers && !Marred(Apply(s, e).handlers[s.worker.owner])
    ensures !Marred(s.handlers[s.worker.owner])
  {
    hide Shaped, Append;
  }

  lemma OtherMars(s: State, e: Event)
    requires Known(s) && Enabled(s, e) && !OfHandler(e) && !OfWorker(e)
    ensures var h := JobOf(s, e);
            && h in Apply(s, e).handlers
            && (Marred(Apply(s, e).handlers[h]) <==> h in s.handlers && Marred(s.handlers[h]))
  {
    hide CallsFor;
  }

  lemma MarredStep(s: State, e: Event, h: nat)
    requires Inv(s) && Enabled(s, e) && h in Apply(s, e).handlers && Apply(s, e).handlers[h].job.kind != Sse
    ensures Marred(Apply(s, e).handlers[h]) <==> (h in s.handlers && Marred(s.handlers[h])) || IsPrePanic(e, h)
    ensures h !in s.handlers ==> !IsPrePanic(e, h)
  {
    hide Apply, JobOk, OwnStep, Marred;
    StepIsOwn(s, e);
    OwnKeys(s, Apply(s, e), JobOf(s, e));
    if h in s.handlers {
      assert JobOk(s, h);
      IdentityKept(s, e, h);
    }
    if h != JobOf(s, e) {
      OthersUntouched(s, Apply(s, e), JobOf(s, e), h);
    } else if OfHandler(e) {
      HandlerMars(s, e);
    } else if OfWorker(e) {
      WorkerMars(s, e);
    } else {
      OtherMars(s, e);
    }
  }

  ghost predicate PanickedIn(events: seq<Event>, h: nat) {
    exists i :: 0 <= i < |events| && IsPrePanic(events[i], h)
  }

  ghost predicate ArrivedReady(events: seq<Event>, h: nat) {
    exists i :: 0 <= i < |events| && IsReadyArrival(events[i], h)
  }

  predicate IsReadyArrival(e: Event, h: nat) {
    e.Arrive? && e.h == h && e.job.status == Ready
  }

  lemma EventsFront(events: seq<Event>, h: nat)
    requires events != []
    ensures PanickedIn(events, h) <==> PanickedIn(Front(events), h) || IsPrePanic(Last(events), h)
    ensures ArrivedReady(events, h) <==> ArrivedReady(Front(events), h) || IsReadyArrival(Last(events), h)
  {
    hide IsPrePanic, IsReadyArrival;
    var n := |events| - 1;
    assert Last(events) == events[n];
    assert forall i :: 0 <= i < n ==> Front(events)[i] == events[i];
    if PanickedIn(Front(events), h) {
      var i :| 0 <= i < n && IsPrePanic(Front(events)[i], h);
      assert IsPrePanic(events[i], h);
    }
    if ArrivedReady(Front(events), h) {
      var i :| 0 <= i < n && IsReadyArrival(Front(events)[i], h);
      assert IsReadyArrival(events[i], h);
    }
    if PanickedIn(events, h) {
      var i :| 0 <= i < |events| && IsPrePanic(events[i], h);
      assert i < n ==> IsPrePanic(Front(events)[i], h);
    }
    if ArrivedReady(events, h) {
      var i :| 0 <= i < |events| && IsReadyArrival(events[i], h);
      assert i < n ==> IsReadyArrival(Front(events)[i], h);
    }
  }

  // ----- the status on arrival

  /** The first status of a job: what its history starts with, or will. */
  function FirstStatus(x: Handler): Status {
    if x.log == [] then x.job.status else x.log[0]
  }

  lemma HandlerKeepsFirst(s: State, e: Event)
    requires Enabled(s, e) && OfHandler(e) && JobOk(s, e.h) && s.handlers[e.h].job.kind != Sse
    ensures e.h in Apply(s, e).handlers
    ensures FirstStatus(Apply(s, e).handlers[e.h]) == FirstStatus(s.handlers[e.h])
  {
    hide Located, Append, CallsFor, IsFinished;
  }

  lemma WorkerKeepsFirst(s: State, e: Event)
    requires Enabled(s, e) && OfWorker(e) && JobOk(s, s.worker.owner) && s.handlers[s.worker.owner].job.kind != Sse
    ensures s.worker.owner in Apply(s, e).handlers
    ensures FirstStatus(Apply(s, e).handlers[s.worker.owner]) == FirstStatus(s.handlers[s.worker.owner])
  {
    hide Append;
    LoggedWithWorker(s, s.worker.owner);
    hide JobOk;
  }

  lemma LoggedWithWorker(s: State, h: nat)
    requires h in s.handlers && WorkerHolds(s, h) && JobOk(s, h) && s.handlers[h].job.kind != Sse
    ensures s.handlers[h].log != []
  {
  }

  lemma OtherKeepsFirst(s: State, e: Event)
    requires Known(s) && Enabled(s, e) && !OfHandler(e) && !OfWorker(e)
    ensures var h := JobOf(s, e);
            && h in Apply(s, e).handlers
            && FirstStatus(Apply(s, e).handlers[h]) == if e.Arrive? then e.job.status else FirstStatus(s.handlers[h])
  {
    hide CallsFor;
  }

  lemma FirstStatusStep(s: State, e: Event, h: nat)
    requires Inv(s) && Enabled(s, e) && h in Apply(s, e).handlers && Apply(s, e).handlers[h].job.kind != Sse
    ensures FirstStatus(Apply(s, e).handlers[h]) == Ready <==>
            (h in s.handlers && FirstStatus(s.handlers[h]) == Ready) || IsReadyArrival(e, h)
  {
    hide Apply, JobOk, OwnStep, FirstStatus;
    StepIsOwn(s, e);
    OwnKeys(s, Apply(s, e), JobOf(s, e));
    if h in s.handlers {
      assert JobOk(s, h);
      IdentityKept(s, e, h);
    }
    if h != JobOf(s, e) {
      OthersUntouched(s, Apply(s, e), JobOf(s, e), h);
    } else if OfHandler(e) {
      HandlerKeepsFirst(s, e);
    } else if OfWorker(e) {
      WorkerKeepsFirst(s, e);
    } else {
      OtherKeepsFirst(s, e);
    }
  }

  lemma ArrivalEntersHandlers(s: State, e: Event, h: nat)
    requires Enabled(s, e) && IsReadyArrival(e, h)
    ensures h in Apply(s, e).handlers
  {
  }

  /** A job's first status is READY exactly if it arrived READY. */
  lemma {:induction false} FirstStatusIsArrival(limit: int, events: seq<Event>, h: nat)
    requires IsRun(limit, events)
    ensures h !in After(limit, events).handlers ==> !ArrivedReady(events, h)
    ensures h in After(limit, events).handlers && After(limit, events).handlers[h].job.kind != Sse ==>
              (FirstStatus(After(limit, events).handlers[h]) == Ready <==> ArrivedReady(events, h))
  {
    if events != [] {
      hide Apply, Enabled, JobOk, OwnStep, ArrivedReady, PanickedIn, FirstStatus, IsReadyArrival;
      var s, e := After(limit, Front(events)), Last(events);
      FirstStatusIsArrival(limit, Front(events), h);
      RunKeepsInv(limit, Front(events));
      EventsFront(events, h);
      StepIsOwn(s, e);
      OwnKeys(s, Apply(s, e), JobOf(s, e));
      if h in s.handlers {
        IdentityKept(s, e, h);
      }
      if h in Apply(s, e).handlers && Apply(s, e).handlers[h].job.kind != Sse {
        FirstStatusStep(s, e, h);
      } else if IsReadyArrival(e, h) {
        ArrivalEntersHandlers(s, e, h);
      }
    }
  }

  // ----- the mark of a panic

  /** The mark tells exactly whether the job's pre-processing has panicked. */
  lemma {:induction false} MarredIffPanicked(limit: int, events: seq<Event>, h: nat)
    requires IsRun(limit, events)
    ensures h !in After(limit, events).handlers ==> !PanickedIn(events, h)
    ensures h in After(limit, events).handlers && After(limit, events).handlers[h].job.kind != Sse ==>
              (Marred(After(limit, events).handlers[h]) <==> PanickedIn(events, h))
  {
    if events != [] {
      hide Apply, Enabled, JobOk, OwnStep, PanickedIn, ArrivedReady, Marred, IsPrePanic;
      var s, e := After(limit, Front(events)), Last(events);
      MarredIffPanicked(limit, Front(events), h);
      RunKeepsInv(limit, Front(events));
      EventsFront(events, h);
      StepIsOwn(s, e);
      OwnKeys(s, Apply(s, e), JobOf(s, e));
      if h in s.handlers {
        IdentityKept(s, e, h);
      }
      if h in Apply(s, e).handlers && Apply(s, e).handlers[h].job.kind != Sse {
        MarredStep(s, e, h);
      } else if h !in Apply(s, e).handlers {
        PanicNeedsHandler(s, e, h);
      }
    }
  }

  lemma PanicNeedsHandler(s: State, e: Event, h: nat)
    requires Enabled(s, e) && h !in s.handlers
    ensures !IsPrePanic(e, h)
  {
  }

  /** The last remote call made for the job is its present status. */
  predicate Reported(x: Handler) {
    x.calls != [] && x.calls[|x.calls| - 1] == PatchInfo(x.job.status)
  }

  /**
   When the handler of a Normal, Sampling, Estimation or Manual job has ended and its
   records are consumed, the cloud's last word is the job's final status exactly if the job
   was READY on arrival and its pre-processing did not panic; otherwise no call was made.
   */
  lemma ReportedIff(limit: int, events: seq<Event>, h: nat)
    requires IsRun(limit, events) && h in After(limit, events).handlers
    requires After(limit, events).handlers[h].pc == Ended && After(limit, events).db == None
    requires var k := After(limit, events).handlers[h].job.kind; k != Sse && k != Unknown
    ensures var x := After(limit, events).handlers[h];
            && (Reported(x) <==> ArrivedReady(events, h) && !PanickedIn(events, h))
            && (!Reported(x) ==> x.calls == [])
  {
    var s := After(limit, events);
    hide Located, IsRun, After, PanickedIn, ArrivedReady;
    MarredIffPanicked(limit, events, h);
    FirstStatusIsArrival(limit, events, h);
    RunKeepsInv(limit, events);
    assert JobOk(s, h);
    assert Issued(s, h) == s.handlers[h].calls;
  }

  /** And it happens: a READY job of any shipped type can end FAILED without a single remote call. */
  lemma PanicGoesUnreported(limit: int, job: Job) returns (events: seq<Event>)
    requires job.status == Ready && job.flags == CLEAR && job.kind != Unknown
    ensures IsRun(limit, events) && Silent(After(limit, events), Ended) && After(limit, events).db == None
  {
    hide IsRun, After;
    events := FirstEvent(limit, job);
    events := Extend(limit, events, Begin(0));
    events := Extend(limit, events, PrePanic(0, After(limit, events).handlers[0].job));
    events := Recover(limit, events);
    events := Leave(limit, events);
  }

  lemma FirstEvent(limit: int, job: Job) returns (events: seq<Event>)
    requires job.flags == CLEAR
    ensures IsRun(limit, events) && After(limit, events) == Put(Init(limit), 0, Handler(job, Start, 0, 0, 0, 0, [], []))
  {
    events := Extend(limit, [], Arrive(0, job));
  }

  /** A job that failed, has not been reported and will not ask to be. */
  predicate Silent(s: State, pc: Pc) {
    && At(s, 0, pc) && s.handlers[0].job.status == Failed
    && !s.handlers[0].job.useJobInfo && s.handlers[0].calls == []
  }

  lemma Recover(limit: int, before: seq<Event>) returns (events: seq<Event>)
    requires IsRun(limit, before) && Silent(After(limit, before), RecoverRecord) && After(limit, before).db == None
    ensures IsRun(limit, events) && Silent(After(limit, events), Cleanup)
    ensures After(limit, events).db == Some(Record(0, Failed, false))
  {
    hide IsRun, After;
    events := Extend(limit, before, Note(0));
    events := Extend(limit, events, Publish(0));
  }

  lemma Leave(limit: int, before: seq<Event>) returns (events: seq<Event>)
    requires IsRun(limit, before) && Silent(After(limit, before), Cleanup)
    requires After(limit, before).db == Some(Record(0, Failed, false))
    ensures IsRun(limit, events) && Silent(After(limit, events), Ended) && After(limit, events).db == None
  {
    hide IsRun, After;
    events := Extend(limit, before, Consume);
    events := Extend(limit, events, Exit(0));
  }
}
