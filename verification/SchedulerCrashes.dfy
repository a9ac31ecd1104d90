/**
 What becomes of a job whose Process panicked: the worker marks it FAILED, and that is its
 final status for every shipped kind but one.
 */
module SchedulerCrashes {
  import opened Collections
  import opened Jobs
  import opened Scheduler
  import opened SchedulerInvariant
  import opened SchedulerRuns
  import opened SchedulerEndings

  /** The run holds a panic of Process on this job. */
  ghost predicate CrashedIn(limit: int, events: seq<Event>, h: nat)
    requires IsRun(limit, events)
  {
    events != []
    && (CrashedIn(limit, Front(events), h) || IsCrash(After(limit, Front(events)), Last(events), h))
  }

  predicate IsCrash(s: State, e: Event, h: nat) {
    e.ProcessPanic? && WorkerHolds(s, h)
  }

  /** A failed job on its way out, with nothing left to do that could change its status. */
  predicate Doomed(x: Handler, w: Worker) {
    && x.job.status == Failed && x.job.kind != Estimation
    && ( || (x.pc == Waiting && (x.wg == 0 || w.CrashAnnouncing? || w.Releasing?))
         || x.pc in {PublishDone, RecordDone, RepublishDone, Cleanup, Ended})
  }

  lemma HandlerKeepsDoom(s: State, e: Event)
    requires Enabled(s, e) && OfHandler(e) && JobOk(s, e.h) && Doomed(s.handlers[e.h], WorkerFor(s, e.h))
    ensures e.h in Apply(s, e).handlers && Doomed(Apply(s, e).handlers[e.h], WorkerFor(Apply(s, e), e.h))
  {
    hide Shaped, Append, CallsFor, PreReturns, PrePanics, PostReturns, PostPanics;
  }

  lemma WorkerKeepsDoom(s: State, e: Event)
    requires Enabled(s, e) && OfWorker(e) && JobOk(s, s.worker.owner)
    requires Doomed(s.handlers[s.worker.owner], s.worker)
             || (e.ProcessPanic? && s.handlers[s.worker.owner].job.kind != Estimation)
    ensures var h := s.worker.owner;
            h in Apply(s, e).handlers && Doomed(Apply(s, e).handlers[h], WorkerFor(Apply(s, e), h))
  {
    hide Shaped, Append, PreReturns, PrePanics, PostReturns, PostPanics, CallsFor, AfterPublish, AfterNote;
  }

  lemma OtherKeepsDoom(s: State, e: Event)
    requires Known(s) && Enabled(s, e) && !OfHandler(e) && !OfWorker(e)
    requires JobOf(s, e) in s.handlers && JobOk(s, JobOf(s, e))
    requires Doomed(s.handlers[JobOf(s, e)], WorkerFor(s, JobOf(s, e)))
    ensures var h := JobOf(s, e);
            h in Apply(s, e).handlers && Doomed(Apply(s, e).handlers[h], WorkerFor(Apply(s, e), h))
  {
    hide Shaped, CallsFor;
  }

  lemma DoomStep(s: State, e: Event, h: nat)
    requires Inv(s) && Enabled(s, e) && h in s.handlers && s.handlers[h].job.kind != Estimation
    requires Doomed(s.handlers[h], WorkerFor(s, h)) || IsCrash(s, e, h)
    ensures h in Apply(s, e).handlers && Doomed(Apply(s, e).handlers[h], WorkerFor(Apply(s, e), h))
  {
    hide Apply, JobOk, OwnStep, Doomed;
    assert JobOk(s, h);
    StepIsOwn(s, e);
    if h != JobOf(s, e) {
      OthersUntouched(s, Apply(s, e), JobOf(s, e), h);
    } else if OfHandler(e) {
      HandlerKeepsDoom(s, e);
    } else if OfWorker(e) {
      WorkerKeepsDoom(s, e);
    } else {
      OtherKeepsDoom(s, e);
    }
  }

  lemma {:induction false} CrashDooms(limit: int, events: seq<Event>, h: nat)
    requires IsRun(limit, events) && CrashedIn(limit, events, h)
    ensures var s := After(limit, events);
            && h in s.handlers
            && (s.handlers[h].job.kind != Estimation ==> Doomed(s.handlers[h], WorkerFor(s, h)))
  {
    hide Apply, Enabled, JobOk, OwnStep, Doomed, WorkerFor;
    var s, e := After(limit, Front(events)), Last(events);
    RunKeepsInv(limit, Front(events));
    if CrashedIn(limit, Front(events), h) {
      CrashDooms(limit, Front(events), h);
    }
    IdentityKept(s, e, h);
    if s.handlers[h].job.kind != Estimation {
      DoomStep(s, e, h);
    }
  }

  /** Job `h` of this kind has had a panic of Process, has ended, and is not FAILED. */
  ghost predicate EscapesCrash(limit: int, events: seq<Event>, h: nat, kind: Kind)
    requires IsRun(limit, events)
  {
    var s := After(limit, events);
    && CrashedIn(limit, events, h) && h in s.handlers && s.handlers[h].job.kind == kind
    && s.handlers[h].pc == Ended && s.handlers[h].job.status != Failed
  }

  /**
   After a panic of Process every ended job is FAILED, exactly for the kinds other than
   Estimation: an Estimation job is still post-processed, which overwrites its status.
   */
  lemma CrashIsFinalIff(kind: Kind)
    ensures (forall limit, events, h :: IsRun(limit, events) ==> !EscapesCrash(limit, events, h, kind))
       <==> kind != Estimation
  {
    if kind == Estimation {
      var events := CrashOverwritten(1);
    } else {
      forall limit, events, h | IsRun(limit, events) ensures !EscapesCrash(limit, events, h, kind) {
        hide IsRun, After, CrashedIn;
        if CrashedIn(limit, events, h) {
          CrashDooms(limit, events, h);
        }
      }
    }
  }

  /** A run that goes on keeps its past. */
  lemma {:induction false} CrashStays(limit: int, events: seq<Event>, more: seq<Event>, h: nat)
    requires IsRun(limit, more) && IsRun(limit, events) && events <= more && CrashedIn(limit, events, h)
    ensures CrashedIn(limit, more, h)
  {
    if |events| < |more| {
      hide Enabled, IsCrash;
      assert events <= Front(more);
      CrashStays(limit, events, Front(more), h);
    } else {
      assert events == more;
    }
  }

  lemma PanicPass(limit: int, events: seq<Event>, t: Standing) returns (more: seq<Event>)
    requires Leads(limit, events, t) && t.kind == Estimation && t.worker == Processing(0)
    ensures Leads(limit, more, t.(status := Failed, worker := CrashAnnouncing(0)))
    ensures IsRun(limit, more) && CrashedIn(limit, more, 0)
  {
    hide IsRun, After;
    more := Extend(limit, events, ProcessPanic(After(limit, events).handlers[0].job));
    assert Front(more) == events;
  }

  lemma AnnounceCrashPass(limit: int, events: seq<Event>, t: Standing) returns (more: seq<Event>)
    requires Leads(limit, events, t) && t.status == Failed && !t.useJobInfo && t.worker == CrashAnnouncing(0)
    ensures Leads(limit, more, t.(worker := Releasing(0))) && events <= more
  {
    hide IsRun, After;
    more := Extend(limit, events, AnnounceCrash);
    more := Extend(limit, more, Consume);
  }

  /** An Estimation job that panics in Process and ends SUCCEEDED. */
  lemma CrashOverwritten(limit: int) returns (events: seq<Event>)
    requires limit > 0
    ensures IsRun(limit, events) && EscapesCrash(limit, events, 0, Estimation)
    ensures After(limit, events).handlers[0].job.status == Succeeded
  {
    hide Leads, IsRun, After, CrashedIn;
    events := FirstArrival(limit, Estimation);
    var t := Standing(Estimation, Start, 0, Ready, false, [], WorkerIdle, CLEAR);
    events := ToProcess(limit, events, t, CLEAR);
    t := Standing(Estimation, Waiting, 1, Running, false, t.calls + [PatchRunning], Processing(0), CLEAR);
    events := PanicPass(limit, events, t);
    var crashed := events;
    t := t.(status := Failed, worker := CrashAnnouncing(0));
    events := AnnounceCrashPass(limit, events, t);
    t := t.(worker := Releasing(0));
    events := ReleasePass(limit, events, t);
    events := PostSucceeds(limit, events, t.(pc := Post, wg := 0, useJobInfo := true, worker := WorkerIdle));
    CrashStays(limit, crashed, events, 0);
  }

  /** PostProcess overwrites the status, and the job leaves. */
  lemma PostSucceeds(limit: int, events: seq<Event>, t: Standing) returns (more: seq<Event>)
    requires Leads(limit, events, t) && t.kind == Estimation && t.pc == Post && t.useJobInfo
    ensures events <= more && Ends(limit, more, Estimation, Succeeded, t.calls + [PatchInfo(Succeeded)])
  {
    hide Leads, Ends;
    more := PostReturnPass(limit, events, t, Succeeded);
    var flags := PostFlags(Job("", t.kind, t.status, true, t.flags));
    var u := t.(pc := RecordPost, status := Succeeded, flags := flags);
    more := NotePass(limit, more, u, PublishPost);
    more := ReportPass(limit, more, u.(pc := PublishPost), Cleanup);
    more := ExitPass(limit, more, u.(pc := Cleanup, calls := u.calls + [PatchInfo(Succeeded)]));
  }
}
