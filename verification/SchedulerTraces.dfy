/**
 The remote calls of jobs of every kind. An SSE job may be reported as running any number
 of times, but the shape is the same: running patches, then at most two patches of one
 terminal status.
 */
module SchedulerTraces {
  import opened Jobs
  import opened Scheduler
  import opened SchedulerInvariant
  import opened SchedulerTheorems

  /** Running patches only. */
  predicate Runs(calls: seq<Call>) {
    forall i :: 0 <= i < |calls| ==> calls[i] == PatchRunning
  }

  /** Running patches and one patch of status `t`. */
  predicate Once(calls: seq<Call>, t: Status) {
    calls != [] && Runs(calls[..|calls| - 1]) && calls[|calls| - 1] == PatchInfo(t)
  }

  /** Running patches and two patches of status `t`. */
  predicate Twice(calls: seq<Call>, t: Status) {
    calls != [] && Once(calls[..|calls| - 1], t) && calls[|calls| - 1] == PatchInfo(t)
  }

  predicate Lawful(calls: seq<Call>) {
    Runs(calls) || LawfulWith(calls, Succeeded) || LawfulWith(calls, Failed)
  }

  predicate LawfulWith(calls: seq<Call>, t: Status) {
    Once(calls, t) || Twice(calls, t)
  }

  lemma Appends(calls: seq<Call>, t: Status)
    ensures calls + [] == calls
    ensures Runs(calls) ==> Runs(calls + [PatchRunning]) && Once(calls + [PatchInfo(t)], t)
    ensures Once(calls, t) ==> Twice(calls + [PatchInfo(t)], t)
  {
    var more := calls + [PatchInfo(t)];
    assert more[..|more| - 1] == calls;
  }

  /** An SSE job at each point of its life; `w` and `issued` as in `InShape`. */
  predicate SseShape(x: Handler, w: Worker, issued: seq<Call>) {
    var j := x.job;
    match x.pc
    case Start => Runs(issued)
    case Pre => Runs(issued) && j.status == Ready && !j.useJobInfo
    case PublishPre =>
      Runs(issued) && (if IsFinished(j) then j.status == Failed && j.useJobInfo else j.status == Ready && !j.useJobInfo)
    case RecordPre => Once(issued, Failed)
    case Submit => Runs(issued) && !j.useJobInfo
    case Waiting =>
      && Runs(issued)
      && (x.wg == 0 || !j.useJobInfo)
      && (w.Announcing? ==> j.status == Running)
      && (w.CrashAnnouncing? ==> j.status == Failed)
    case PublishDone => Runs(issued) && Terminal(j.status) && j.useJobInfo
    case RecordDone | RepublishDone => Once(issued, j.status) && Terminal(j.status) && j.useJobInfo
    case Post => Runs(issued) && !IsFinished(j)
    case RecordPost | PublishPost => false
    case RecoverRecord | RecoverPublish => Runs(issued) && j.status == Failed && !j.useJobInfo
    case Cleanup | Ended => Lawful(issued)
  }

  ghost predicate SseOk(s: State, h: nat) {
    h in s.handlers && (s.handlers[h].job.kind == Sse ==> SseShape(s.handlers[h], WorkerFor(s, h), Issued(s, h)))
  }

  lemma PublishTrace(s: State, h: nat)
    requires Enabled(s, Publish(h)) && SseOk(s, h)
    ensures SseOk(Apply(s, Publish(h)), h)
  {
    hide Runs, Once, Twice;
    var x := s.handlers[h];
    Appends(x.calls, x.job.status);
    assert Issued(s, h) == x.calls;
  }

  lemma EarlyTrace(s: State, e: Event)
    requires Enabled(s, e) && OfHandler(e) && BeforeWait(e) && !e.Publish? && JobOk(s, e.h) && SseOk(s, e.h)
    ensures SseOk(Apply(s, e), e.h)
  {
    hide Runs, Once, Twice, Append, Shaped;
  }

  lemma LateTrace(s: State, e: Event)
    requires Enabled(s, e) && OfHandler(e) && !BeforeWait(e) && JobOk(s, e.h) && SseOk(s, e.h)
    ensures SseOk(Apply(s, e), e.h)
  {
    hide Runs, Once, Twice, Append, PlaceOf;
  }

  lemma AnnounceTrace(s: State, e: Event)
    requires Enabled(s, e) && (e.Announce? || e.AnnounceCrash?)
    requires JobOk(s, s.worker.owner) && SseOk(s, s.worker.owner)
    ensures SseOk(Apply(s, e), s.worker.owner)
  {
    hide Runs, Once, Twice, Shaped, IsFinished;
    var x := s.handlers[s.worker.owner];
    Appends(x.calls, x.job.status);
    assert Issued(s, s.worker.owner) == x.calls;
  }

  lemma WorkerTrace(s: State, e: Event)
    requires Enabled(s, e) && OfWorker(e) && !e.Announce? && !e.AnnounceCrash?
    requires JobOk(s, s.worker.owner) && SseOk(s, s.worker.owner)
    ensures SseOk(Apply(s, e), s.worker.owner)
  {
    hide Runs, Once, Twice, Append, Shaped, IsFinished;
  }

  lemma OtherTrace(s: State, e: Event)
    requires Known(s) && Enabled(s, e) && !OfHandler(e) && !OfWorker(e)
    requires JobOf(s, e) in s.handlers ==> JobOk(s, JobOf(s, e)) && SseOk(s, JobOf(s, e))
    ensures SseOk(Apply(s, e), JobOf(s, e))
  {
    hide Once, Twice, CallsFor, Shaped;
    var h := JobOf(s, e);
    assert Runs([]);
    assert Issued(Apply(s, e), h) == if e.Arrive? then [] else Issued(s, h);
  }

  lemma TraceStep(s: State, e: Event, h: nat)
    requires Inv(s) && Enabled(s, e) && h in Apply(s, e).handlers && (h in s.handlers ==> SseOk(s, h))
    ensures SseOk(Apply(s, e), h)
  {
    hide Apply, JobOk, OwnStep, SseShape;
    StepIsOwn(s, e);
    OwnKeys(s, Apply(s, e), JobOf(s, e));
    if h in s.handlers {
      assert JobOk(s, h);
    }
    if h != JobOf(s, e) {
      OthersUntouched(s, Apply(s, e), JobOf(s, e), h);
    } else if e.Publish? {
      PublishTrace(s, e.h);
    } else if OfHandler(e) && BeforeWait(e) {
      EarlyTrace(s, e);
    } else if OfHandler(e) {
      LateTrace(s, e);
    } else if e.Announce? || e.AnnounceCrash? {
      AnnounceTrace(s, e);
    } else if OfWorker(e) {
      WorkerTrace(s, e);
    } else {
      OtherTrace(s, e);
    }
  }

  lemma {:induction false} RunKeepsTrace(limit: int, events: seq<Event>, h: nat)
    requires IsRun(limit, events) && h in After(limit, events).handlers
    ensures SseOk(After(limit, events), h)
  {
    if events != [] {
      hide Apply, Enabled, JobOk, SseOk;
      if h in After(limit, Front(events)).handlers {
        RunKeepsTrace(limit, Front(events), h);
      }
      RunKeepsInv(limit, Front(events));
      TraceStep(After(limit, Front(events)), Last(events), h);
    }
  }

  /** Any prefix of a lawful sequence is lawful. */
  lemma {:induction false} LawfulPrefix(calls: seq<Call>, rest: seq<Call>)
    requires Lawful(calls + rest)
    ensures Lawful(calls)
    decreases |rest|
  {
    if rest == [] {
      assert calls + rest == calls;
    } else {
      var n := |rest| - 1;
      var all := calls + rest;
      assert all[..|all| - 1] == calls + rest[..n];
      LawfulFront(all);
      LawfulPrefix(calls, rest[..n]);
    }
  }

  lemma LawfulFront(calls: seq<Call>)
    requires calls != [] && Lawful(calls)
    ensures Lawful(calls[..|calls| - 1])
  {
  }

  lemma SseShapeLawful(x: Handler, w: Worker, issued: seq<Call>)
    requires SseShape(x, w, issued)
    ensures Lawful(issued)
  {
    hide Runs, Once, Twice;
  }

  lemma FinalCallsLawful(calls: seq<Call>)
    requires FinalCalls(calls)
    ensures Lawful(calls)
  {
    if |calls| > 1 {
      var t :| Terminal(t) && (calls == [PatchInfo(t)] || calls == [PatchRunning, PatchInfo(t)]
                               || calls == [PatchRunning, PatchInfo(t), PatchInfo(t)]);
      Appends([PatchRunning], t);
      Appends([PatchRunning, PatchInfo(t)], t);
    }
  }

  /**
   The remote calls made for a job of any kind are running patches followed by at most two
   patches of one terminal status. Only an SSE job has more than one running patch.
   */
  lemma RemoteTraceOfEveryKind(s: State, h: nat)
    requires Reachable(s) && h in s.handlers
    ensures Lawful(s.handlers[h].calls)
    ensures s.handlers[h].job.kind != Sse ==> FinalCalls(s.handlers[h].calls)
  {
    hide Lawful, FinalCalls, SseShape, JobOk;
    if s.handlers[h].job.kind != Sse {
      RemoteTrace(s, h);
      FinalCallsLawful(s.handlers[h].calls);
    } else {
      var events :| IsRun(s.limit, events) && After(s.limit, events) == s;
      RunKeepsTrace(s.limit, events, h);
      SseShapeLawful(s.handlers[h], WorkerFor(s, h), Issued(s, h));
      LawfulPrefix(s.handlers[h].calls, if s.db.Some? && s.db.value.owner == h then CallsFor(s.db.value) else []);
    }
  }
}
