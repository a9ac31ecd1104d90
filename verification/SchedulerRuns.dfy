/**
 Building runs of the scheduler step by step, for the theorems that say what can happen.
 */
module SchedulerRuns {
  import opened Collections
  import opened Jobs
  import opened Scheduler

  lemma Extend(limit: int, events: seq<Event>, e: Event) returns (more: seq<Event>)
    requires IsRun(limit, events) && Enabled(After(limit, events), e)
    ensures more == events + [e] && IsRun(limit, more)
    ensures After(limit, more) == Apply(After(limit, events), e)
  {
    hide Enabled, Apply;
    more := events + [e];
    assert Front(more) == events && Last(more) == e;
  }

  /** How job 0 stands: its kind, point, status and flag, the calls made for it, and the worker. */
  datatype Standing = Standing(
    kind: Kind, pc: Pc, wg: int, status: Status, useJobInfo: bool, calls: seq<Call>, worker: Worker, flags: Flags)

  /** The state has job 0 stand like this, and nothing waiting anywhere. */
  predicate Stands(s: State, t: Standing) {
    && 0 in s.handlers && s.handlers[0].pc == t.pc && s.handlers[0].wg == t.wg && s.handlers[0].calls == t.calls
    && s.handlers[0].job == Job(s.handlers[0].job.id, t.kind, t.status, t.useJobInfo, t.flags)
    && s.worker == t.worker && s.queue == QueueIdle && s.fifo == [] && s.db == None
  }

  ghost predicate Leads(limit: int, events: seq<Event>, t: Standing) {
    IsRun(limit, events) && Stands(After(limit, events), t) && After(limit, events).limit == limit
  }

  lemma FirstArrival(limit: int, kind: Kind) returns (events: seq<Event>)
    ensures Leads(limit, events, Standing(kind, Start, 0, Ready, false, [], WorkerIdle, CLEAR))
  {
    events := Extend(limit, [], Arrive(0, Job("", kind, Ready, false, CLEAR)));
  }

  /** The flags pre-processing may leave: only a Sampling job can ask for mitigation. */
  predicate Prepared(kind: Kind, flags: Flags) {
    flags == CLEAR || (kind == Sampling && flags == CLEAR.(mitigate := true))
  }

  lemma PreparePass(limit: int, events: seq<Event>, t: Standing, flags: Flags) returns (more: seq<Event>)
    requires Leads(limit, events, t) && t.pc == Start && t.status == Ready
    requires t.flags == CLEAR && Prepared(t.kind, flags)
    ensures Leads(limit, more, t.(pc := PublishPre, useJobInfo := false, flags := flags))
  {
    hide IsRun, After;
    more := Extend(limit, events, Begin(0));
    more := Extend(limit, more, PreReturn(0, After(limit, more).handlers[0].job.(flags := flags)));
  }

  lemma PublishPass(limit: int, events: seq<Event>, t: Standing) returns (more: seq<Event>)
    requires Leads(limit, events, t) && t.pc == PublishPre && t.status == Ready && !t.useJobInfo
    requires Prepared(t.kind, t.flags)
    ensures Leads(limit, more, t.(pc := Submit))
  {
    hide IsRun, After;
    more := Extend(limit, events, Publish(0));
    more := Extend(limit, more, Consume);
  }

  lemma QueuePass(limit: int, events: seq<Event>, t: Standing) returns (more: seq<Event>)
    requires limit > 0 && Leads(limit, events, t) && t.pc == Submit && t.worker == WorkerIdle
    ensures Leads(limit, more, t.(pc := Waiting, wg := 1, worker := Marking(0)))
  {
    hide IsRun, After;
    more := Extend(limit, events, Enqueue(0));
    more := Extend(limit, more, QueueAdmit);
    more := Extend(limit, more, QueuePut);
    more := Extend(limit, more, Dequeue);
  }

  lemma MarkPass(limit: int, events: seq<Event>, t: Standing) returns (more: seq<Event>)
    requires Leads(limit, events, t) && t.worker == Marking(0)
    ensures Leads(limit, more, t.(status := Running, worker := Announcing(0)))
  {
    hide IsRun, After;
    more := Extend(limit, events, MarkRunning);
  }

  lemma AnnouncePass(limit: int, events: seq<Event>, t: Standing) returns (more: seq<Event>)
    requires Leads(limit, events, t) && t.status == Running && !t.useJobInfo && t.worker == Announcing(0)
    ensures Leads(limit, more, t.(calls := t.calls + [PatchRunning], worker := Processing(0)))
  {
    hide IsRun, After;
    more := Extend(limit, events, Announce);
    more := Extend(limit, more, Consume);
  }

  /** From the start of a pass to the call of Process. */
  lemma ToProcess(limit: int, events: seq<Event>, t: Standing, flags: Flags) returns (more: seq<Event>)
    requires limit > 0 && Leads(limit, events, t) && t.pc == Start && t.status == Ready && t.worker == WorkerIdle
    requires t.flags == CLEAR && Prepared(t.kind, flags)
    ensures Leads(limit, more,
                  Standing(t.kind, Waiting, 1, Running, false, t.calls + [PatchRunning], Processing(0), flags))
  {
    hide Leads;
    more := PreparePass(limit, events, t, flags);
    var u := t.(pc := PublishPre, useJobInfo := false, flags := flags);
    more := PublishPass(limit, more, u);
    more := QueuePass(limit, more, u.(pc := Submit));
    u := u.(pc := Waiting, wg := 1, worker := Marking(0));
    more := MarkPass(limit, more, u);
    more := AnnouncePass(limit, more, u.(status := Running, worker := Announcing(0)));
  }

  /** The worker is done with the job and its handler finds that the job is not finished. */
  lemma ReleasePass(limit: int, events: seq<Event>, t: Standing) returns (more: seq<Event>)
    requires Leads(limit, events, t) && t.pc == Waiting && t.wg == 1 && t.worker == Releasing(0)
    requires !IsFinished(Job("", t.kind, t.status, true, t.flags))
    ensures Leads(limit, more, t.(pc := Post, wg := 0, useJobInfo := true, worker := WorkerIdle)) && events <= more
  {
    hide Leads;
    more := DonePass(limit, events, t);
    more := WakePass(limit, more, t.(wg := 0, worker := WorkerIdle));
  }

  lemma DonePass(limit: int, events: seq<Event>, t: Standing) returns (more: seq<Event>)
    requires Leads(limit, events, t) && t.wg == 1 && t.worker == Releasing(0)
    ensures Leads(limit, more, t.(wg := 0, worker := WorkerIdle)) && events <= more
  {
    hide IsRun, After;
    more := Extend(limit, events, Release);
  }

  lemma WakePass(limit: int, events: seq<Event>, t: Standing) returns (more: seq<Event>)
    requires Leads(limit, events, t) && t.pc == Waiting && t.wg == 0
    requires !IsFinished(Job("", t.kind, t.status, true, t.flags))
    ensures Leads(limit, more, t.(pc := Post, useJobInfo := true)) && events <= more
  {
    hide IsRun, After;
    more := Extend(limit, events, Wake(0));
  }
}
