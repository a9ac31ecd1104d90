/**
 Why SSE jobs are excluded from the single-pass guarantees: their status is copied from a
 result file, so it can become READY again and send the handler round its loop any number
 of times, with a running update each time.
 */
module SchedulerSse {
  import opened Jobs
  import opened Scheduler
  import opened SchedulerRuns

  /** The result file says READY. */
  lemma ReadyAgain(limit: int, events: seq<Event>, t: Standing) returns (more: seq<Event>)
    requires Leads(limit, events, t) && t.kind == Sse && t.worker == Processing(0)
    ensures Leads(limit, more, t.(status := Ready, worker := Releasing(0)))
  {
    hide IsRun, After;
    more := Extend(limit, events, ProcessReturn(After(limit, events).handlers[0].job.(status := Ready)));
  }

  lemma NextPass(limit: int, events: seq<Event>, t: Standing) returns (more: seq<Event>)
    requires Leads(limit, events, t) && t.kind == Sse && t.pc == Post && t.status == Ready
    ensures Leads(limit, more, t.(pc := Start))
  {
    hide IsRun, After;
    more := Extend(limit, events, PostReturn(0, After(limit, events).handlers[0].job));
  }

  function Repeat(k: nat): seq<Call> {
    if k == 0 then [] else Repeat(k - 1) + [PatchRunning]
  }

  lemma {:induction false} PassesRepeat(limit: int, k: nat) returns (events: seq<Event>, t: Standing)
    requires limit > 0
    ensures Leads(limit, events, t)
    ensures t.kind == Sse && t.pc == Start && t.status == Ready && t.worker == WorkerIdle && t.flags == CLEAR
    ensures t.calls == Repeat(k)
  {
    hide Leads;
    if k == 0 {
      events := FirstArrival(limit, Sse);
      t := Standing(Sse, Start, 0, Ready, false, [], WorkerIdle, CLEAR);
    } else {
      events, t := PassesRepeat(limit, k - 1);
      events := ToProcess(limit, events, t, CLEAR);
      t := Standing(Sse, Waiting, 1, Running, false, t.calls + [PatchRunning], Processing(0), CLEAR);
      events := ReadyAgain(limit, events, t);
      t := t.(status := Ready, worker := Releasing(0));
      events := ReleasePass(limit, events, t);
      t := t.(pc := Post, wg := 0, useJobInfo := true, worker := WorkerIdle);
      events := NextPass(limit, events, t);
      t := t.(pc := Start);
    }
  }

  /** For every k there is a run that reports one SSE job as running k times. */
  lemma SseRepeats(limit: int, k: nat) returns (events: seq<Event>)
    requires limit > 0
    ensures IsRun(limit, events) && 0 in After(limit, events).handlers
    ensures After(limit, events).handlers[0].job.kind == Sse && After(limit, events).handlers[0].calls == Repeat(k)
  {
    hide IsRun, After;
    var t;
    events, t := PassesRepeat(limit, k);
  }
}
