/**
 Every ending the exact traces allow does happen: for each kind of job that is handled once,
 a run for each way it can fail or succeed.
 */
module SchedulerEndings {
  import opened Collections
  import opened Jobs
  import opened Scheduler
  import opened SchedulerRuns
  import opened SchedulerPostProcessing

  /** Job 0's handler has ended with this kind and status and these calls, all records consumed. */
  ghost predicate Ends(limit: int, events: seq<Event>, kind: Kind, status: Status, calls: seq<Call>) {
    && IsRun(limit, events) && At(After(limit, events), 0, Ended) && After(limit, events).db == None
    && After(limit, events).handlers[0].job.kind == kind && After(limit, events).handlers[0].job.status == status
    && After(limit, events).handlers[0].calls == calls
  }

  // ----- the steps after the call of Process

  /** The flags after a failure or success in PreProcess or Process: a failed Estimation job is finished. */
  function FlagsWith(kind: Kind, status: Status, flags: Flags): Flags {
    if kind == Estimation && status == Failed then flags.(finished := true) else flags
  }

  /** Process returns with a terminal status. */
  lemma ReturnPass(limit: int, events: seq<Event>, t: Standing, status: Status) returns (more: seq<Event>)
    requires Leads(limit, events, t) && HandledOnce(t.kind) && t.worker == Processing(0)
    requires status == Succeeded || status == Failed
    ensures Leads(limit, more, t.(status := status, worker := Releasing(0),
                                  flags := FlagsWith(t.kind, status, t.flags)))
  {
    hide IsRun, After;
    var j := After(limit, events).handlers[0].job;
    more := Extend(limit, events, ProcessReturn(j.(status := status, flags := FlagsWith(t.kind, status, t.flags))));
  }

  /** The handler finds the job finished. */
  lemma FinishedPass(limit: int, events: seq<Event>, t: Standing) returns (more: seq<Event>)
    requires Leads(limit, events, t) && t.pc == Waiting && t.wg == 0
    requires IsFinished(Job("", t.kind, t.status, true, t.flags))
    ensures Leads(limit, more, t.(pc := PublishDone, useJobInfo := true))
  {
    hide IsRun, After;
    more := Extend(limit, events, Wake(0));
  }

  /** One publication with the job-info flag. */
  lemma ReportPass(limit: int, events: seq<Event>, t: Standing, pc: Pc) returns (more: seq<Event>)
    requires Leads(limit, events, t) && t.useJobInfo && (t.status == Succeeded || t.status == Failed)
    requires (t.pc == PublishDone && pc == RecordDone)
             || (t.pc == PublishPre && pc == RecordPre && IsFinished(Job("", t.kind, t.status, true, t.flags)))
             || (t.pc in {RepublishDone, PublishPost, RecoverPublish} && pc == Cleanup)
    ensures Leads(limit, more, t.(pc := pc, calls := t.calls + [PatchInfo(t.status)])) && events <= more
  {
    hide IsRun, After;
    more := Extend(limit, events, Publish(0));
    more := Extend(limit, more, Consume);
  }

  lemma NotePass(limit: int, events: seq<Event>, t: Standing, pc: Pc) returns (more: seq<Event>)
    requires Leads(limit, events, t)
    requires (t.pc == RecordDone && pc == RepublishDone) || (t.pc == RecordPost && pc == PublishPost)
             || (t.pc == RecoverRecord && pc == RecoverPublish) || (t.pc == RecordPre && pc == Cleanup)
    ensures Leads(limit, more, t.(pc := pc)) && events <= more
  {
    hide IsRun, After;
    more := Extend(limit, events, Note(0));
  }

  lemma ExitPass(limit: int, events: seq<Event>, t: Standing) returns (more: seq<Event>)
    requires Leads(limit, events, t) && t.pc == Cleanup
    ensures Ends(limit, more, t.kind, t.status, t.calls) && events <= more
  {
    hide IsRun, After;
    more := Extend(limit, events, Exit(0));
  }

  /** PostProcess returns with this status. */
  lemma PostReturnPass(limit: int, events: seq<Event>, t: Standing, status: Status) returns (more: seq<Event>)
    requires Leads(limit, events, t) && t.pc == Post && (status == Succeeded || status == Failed)
    requires t.kind == Manual || t.kind == Estimation || (t.kind == Sampling && t.flags.mitigate)
    ensures Leads(limit, more, t.(pc := RecordPost, status := status,
                                  flags := PostFlags(Job("", t.kind, t.status, true, t.flags)))) && events <= more
  {
    hide IsRun, After;
    var j := After(limit, events).handlers[0].job;
    more := Extend(limit, events, PostReturn(0, j.(status := status, flags := PostFlags(j))));
  }

  lemma PostPanicPass(limit: int, events: seq<Event>, t: Standing) returns (more: seq<Event>)
    requires Leads(limit, events, t) && t.pc == Post
    requires t.kind == Manual || t.kind == Estimation || t.kind == Sampling
    ensures Leads(limit, more, t.(pc := RecoverRecord, status := Failed,
                                  flags := PostFlags(Job("", t.kind, t.status, true, t.flags))))
  {
    hide IsRun, After;
    var j := After(limit, events).handlers[0].job;
    more := Extend(limit, events, PostPanic(0, j.(flags := PostFlags(j))));
  }

  // ----- the endings

  /** From the end of the wait to the exit of a finished job. */
  lemma PublishTwice(limit: int, events: seq<Event>, t: Standing) returns (more: seq<Event>)
    requires Leads(limit, events, t) && t.pc == PublishDone && t.useJobInfo && t.status in {Succeeded, Failed}
    ensures Ends(limit, more, t.kind, t.status, t.calls + [PatchInfo(t.status)] + [PatchInfo(t.status)])
  {
    hide Leads, Ends;
    more := ReportPass(limit, events, t, RecordDone);
    var u := t.(pc := RecordDone, calls := t.calls + [PatchInfo(t.status)]);
    more := NotePass(limit, more, u, RepublishDone);
    more := ReportPass(limit, more, u.(pc := RepublishDone), Cleanup);
    more := ExitPass(limit, more, u.(pc := Cleanup, calls := u.calls + [PatchInfo(t.status)]));
  }

  /** Finished after Process, published twice. */
  lemma EndsAfterProcess(limit: int, kind: Kind, status: Status) returns (events: seq<Event>)
    requires limit > 0 && status in {Succeeded, Failed}
    requires kind == Normal || kind == Sampling || ((kind == Manual || kind == Estimation) && status == Failed)
    ensures Ends(limit, events, kind, status, [PatchRunning, PatchInfo(status), PatchInfo(status)])
  {
    hide Leads, Ends;
    var t := Standing(kind, Start, 0, Ready, false, [], WorkerIdle, CLEAR);
    events := FirstArrival(limit, kind);
    events := ToProcess(limit, events, t, CLEAR);
    assert [] + [PatchRunning] == [PatchRunning];
    t := Standing(kind, Waiting, 1, Running, false, [PatchRunning], Processing(0), CLEAR);
    events := ReturnPass(limit, events, t, status);
    t := t.(status := status, worker := Releasing(0), flags := FlagsWith(kind, status, CLEAR));
    events := DonePass(limit, events, t);
    t := t.(wg := 0, worker := WorkerIdle);
    events := FinishedPass(limit, events, t);
    events := PublishTwice(limit, events, t.(pc := PublishDone, useJobInfo := true));
    assert t.calls + [PatchInfo(status)] + [PatchInfo(status)] == [PatchRunning, PatchInfo(status), PatchInfo(status)];
  }

  /** PreProcess fails and the failure is reported at once. */
  lemma EndsBeforeProcess(limit: int, kind: Kind) returns (events: seq<Event>)
    requires HandledOnce(kind)
    ensures Ends(limit, events, kind, Failed, [PatchInfo(Failed)])
  {
    hide Leads, Ends;
    events := FirstArrival(limit, kind);
    var t := Standing(kind, Start, 0, Ready, false, [], WorkerIdle, CLEAR);
    events := PreFailPass(limit, events, t);
    t := t.(pc := PublishPre, status := Failed, useJobInfo := true, flags := FlagsWith(kind, Failed, CLEAR));
    events := ReportPass(limit, events, t, RecordPre);
    t := t.(pc := RecordPre, calls := t.calls + [PatchInfo(Failed)]);
    assert t.calls == [PatchInfo(Failed)];
    events := NotePass(limit, events, t, Cleanup);
    events := ExitPass(limit, events, t.(pc := Cleanup));
  }

  lemma PreFailPass(limit: int, events: seq<Event>, t: Standing) returns (more: seq<Event>)
    requires Leads(limit, events, t) && HandledOnce(t.kind) && t.pc == Start && t.status == Ready && t.flags == CLEAR
    ensures Leads(limit, more, t.(pc := PublishPre, status := Failed, useJobInfo := true,
                                  flags := FlagsWith(t.kind, Failed, CLEAR)))
  {
    hide IsRun, After;
    more := Extend(limit, events, Begin(0));
    var j := After(limit, more).handlers[0].job;
    more := Extend(limit, more, PreReturn(0, j.(status := Failed, flags := FlagsWith(t.kind, Failed, CLEAR))));
  }

  /** The flags with which a job of this kind is post-processed. */
  function AskingFlags(kind: Kind): Flags {
    if kind == Sampling then CLEAR.(mitigate := true) else CLEAR
  }

  lemma ToPost(limit: int, kind: Kind) returns (events: seq<Event>)
    requires limit > 0 && kind in {Manual, Sampling, Estimation}
    ensures Leads(limit, events,
                  Standing(kind, Post, 0, Succeeded, true, [PatchRunning], WorkerIdle, AskingFlags(kind)))
  {
    hide Leads;
    var t := Standing(kind, Start, 0, Ready, false, [], WorkerIdle, CLEAR);
    events := FirstArrival(limit, kind);
    events := ToProcess(limit, events, t, AskingFlags(kind));
    assert [] + [PatchRunning] == [PatchRunning];
    t := Standing(kind, Waiting, 1, Running, false, [PatchRunning], Processing(0), AskingFlags(kind));
    events := ReturnPass(limit, events, t, Succeeded);
    t := t.(status := Succeeded, worker := Releasing(0));
    events := ReleasePass(limit, events, t);
  }

  /** Post-processed with either status, published once. */
  lemma EndsAfterPost(limit: int, kind: Kind, status: Status) returns (events: seq<Event>)
    requires limit > 0 && kind in {Manual, Sampling, Estimation} && status in {Succeeded, Failed}
    ensures Ends(limit, events, kind, status, [PatchRunning, PatchInfo(status)])
  {
    hide Leads, Ends;
    events := ToPost(limit, kind);
    var t := Standing(kind, Post, 0, Succeeded, true, [PatchRunning], WorkerIdle, AskingFlags(kind));
    events := PostReturnPass(limit, events, t, status);
    t := t.(pc := RecordPost, status := status, flags := PostFlags(Job("", kind, Succeeded, true, t.flags)));
    events := NotePass(limit, events, t, PublishPost);
    t := t.(pc := PublishPost);
    events := ReportPass(limit, events, t, Cleanup);
    t := t.(pc := Cleanup, calls := t.calls + [PatchInfo(status)]);
    events := ExitPass(limit, events, t);
    assert t.calls == [PatchRunning, PatchInfo(status)];
  }

  /** A panic in PostProcess is reported as a failure. */
  lemma EndsInPostPanic(limit: int, kind: Kind) returns (events: seq<Event>)
    requires limit > 0 && kind in {Manual, Sampling, Estimation}
    ensures Ends(limit, events, kind, Failed, [PatchRunning, PatchInfo(Failed)])
  {
    hide Leads, Ends;
    events := ToPost(limit, kind);
    var t := Standing(kind, Post, 0, Succeeded, true, [PatchRunning], WorkerIdle, AskingFlags(kind));
    events := PostPanicPass(limit, events, t);
    t := t.(pc := RecoverRecord, status := Failed, flags := PostFlags(Job("", kind, Succeeded, true, t.flags)));
    events := NotePass(limit, events, t, RecoverPublish);
    t := t.(pc := RecoverPublish);
    events := ReportPass(limit, events, t, Cleanup);
    t := t.(pc := Cleanup, calls := t.calls + [PatchInfo(Failed)]);
    events := ExitPass(limit, events, t);
    assert t.calls == [PatchRunning, PatchInfo(Failed)];
  }
}
