/**
 The shared status history: its keys always belong to live handlers, and with distinct
 job identifiers every live job's entry is exactly the list of its own notes.
 */
module SchedulerHistory {
  import opened Jobs
  import opened Scheduler
  import opened SchedulerInvariant
  import opened SchedulerTheorems

  predicate Live(s: State, h: nat) {
    h in s.handlers && s.handlers[h].pc != Ended
  }

  /** No entry outlives the handlers of its job identifier. */
  ghost predicate KeysLive(s: State) {
    forall id :: id in s.history ==> exists h :: Live(s, h) && s.handlers[h].job.id == id
  }

  ghost predicate DistinctIds(s: State) {
    forall g, h :: g in s.handlers && h in s.handlers && s.handlers[g].job.id == s.handlers[h].job.id ==> g == h
  }

  ghost predicate Matches(s: State) {
    forall h :: Live(s, h) ==> Noted(s.history, s.handlers[h].job.id) == s.handlers[h].log
  }

  /** An event either leaves the history alone, adds one note of its live job, or ends the job and its entry. */
  ghost predicate HistoryStep(s: State, s': State, h: nat) {
    && h in s'.handlers
    && var x' := s'.handlers[h];
       var log := if h in s.handlers then s.handlers[h].log else [];
       || (s'.history == s.history && x'.log == log && (Live(s, h) || h !in s.handlers || !Live(s', h))
           && (Live(s, h) ==> Live(s', h)))
       || (Live(s, h) && Live(s', h)
           && exists st :: s'.history == Append(s.history, x'.job.id, st) && x'.log == log + [st])
       || (s'.history == s.history - {x'.job.id} && x'.log == log && !Live(s', h))
  }

  lemma HandlerHistory(s: State, e: Event)
    requires Enabled(s, e) && OfHandler(e)
    ensures HistoryStep(s, Apply(s, e), e.h)
  {
    hide IsFinished, Terminal, PostFlags;
  }

  lemma WorkerHistory(s: State, e: Event)
    requires Enabled(s, e) && OfWorker(e) && Live(s, s.worker.owner)
    ensures HistoryStep(s, Apply(s, e), s.worker.owner)
  {
    hide Terminal;
  }

  lemma OtherHistory(s: State, e: Event)
    requires Known(s) && Enabled(s, e) && !OfHandler(e) && !OfWorker(e)
    ensures HistoryStep(s, Apply(s, e), JobOf(s, e))
  {
    hide CallsFor;
  }

  lemma StepHistory(s: State, e: Event)
    requires Inv(s) && Enabled(s, e)
    ensures HistoryStep(s, Apply(s, e), JobOf(s, e))
  {
    hide Apply, HistoryStep, Shaped;
    if OfHandler(e) {
      HandlerHistory(s, e);
    } else if OfWorker(e) {
      assert JobOk(s, s.worker.owner);
      WorkerHistory(s, e);
    } else {
      OtherHistory(s, e);
    }
  }

  lemma KeysLiveStep(s: State, s': State, h: nat)
    requires KeysLive(s) && OwnStep(s, s', h) && HistoryStep(s, s', h)
    requires h in s.handlers ==> s'.handlers[h].job.id == s.handlers[h].job.id
    ensures KeysLive(s')
  {
    forall id | id in s'.history ensures exists g :: Live(s', g) && s'.handlers[g].job.id == id {
      if id in s.history {
        var g :| Live(s, g) && s.handlers[g].job.id == id;
        if g != h {
          assert Live(s', g);
        } else {
          assert Live(s', h);
        }
      } else {
        assert Live(s', h) && s'.handlers[h].job.id == id;
      }
    }
  }

  lemma MatchesStep(s: State, s': State, h: nat)
    requires Matches(s) && DistinctIds(s') && KeysLive(s) && OwnStep(s, s', h) && HistoryStep(s, s', h)
    requires h in s.handlers ==> s'.handlers[h].job.id == s.handlers[h].job.id
    ensures Matches(s')
  {
    forall g | Live(s', g) ensures Noted(s'.history, s'.handlers[g].job.id) == s'.handlers[g].log {
      if g != h {
        assert Live(s, g) && s'.handlers[g] == s.handlers[g];
        assert s'.handlers[g].job.id != s'.handlers[h].job.id;
      } else if h !in s.handlers {
        NewIdUnused(s, s', h);
      }
    }
  }

  /** A job that has just arrived finds no entry under its own identifier. */
  lemma NewIdUnused(s: State, s': State, h: nat)
    requires DistinctIds(s') && KeysLive(s) && OwnStep(s, s', h) && h !in s.handlers && h in s'.handlers
    ensures s'.handlers[h].job.id !in s.history
  {
    forall f | Live(s, f) ensures s.handlers[f].job.id != s'.handlers[h].job.id {
      assert f != h && s'.handlers[f] == s.handlers[f];
    }
  }

  /** The status history only has keys of live handlers. */
  lemma {:induction false} HistoryKeysLive(limit: int, events: seq<Event>)
    requires IsRun(limit, events)
    ensures KeysLive(After(limit, events))
  {
    if events != [] {
      hide Apply, Enabled, JobOk, OwnStep, HistoryStep, KeysLive;
      var s, e := After(limit, Front(events)), Last(events);
      HistoryKeysLive(limit, Front(events));
      RunKeepsInv(limit, Front(events));
      StepIsOwn(s, e);
      StepHistory(s, e);
      if JobOf(s, e) in s.handlers {
        IdentityKept(s, e, JobOf(s, e));
      }
      KeysLiveStep(s, Apply(s, e), JobOf(s, e));
    }
  }

  lemma DistinctBefore(s: State, e: Event)
    requires Known(s) && Enabled(s, e) && DistinctIds(Apply(s, e))
    ensures DistinctIds(s)
  {
    hide Apply, Enabled;
    forall g, h | g in s.handlers && h in s.handlers && s.handlers[g].job.id == s.handlers[h].job.id ensures g == h {
      IdentityKept(s, e, g);
      IdentityKept(s, e, h);
    }
  }

  /** With distinct identifiers, a live job's history entry is the list of its own notes. */
  lemma {:induction false} HistoryMatches(limit: int, events: seq<Event>)
    requires IsRun(limit, events) && DistinctIds(After(limit, events))
    ensures Matches(After(limit, events))
  {
    if events != [] {
      hide Apply, Enabled, JobOk, OwnStep, HistoryStep, KeysLive, Matches, DistinctIds;
      var s, e := After(limit, Front(events)), Last(events);
      RunKeepsInv(limit, Front(events));
      DistinctBefore(s, e);
      HistoryMatches(limit, Front(events));
      HistoryKeysLive(limit, Front(events));
      StepIsOwn(s, e);
      StepHistory(s, e);
      if JobOf(s, e) in s.handlers {
        IdentityKept(s, e, JobOf(s, e));
      }
      MatchesStep(s, Apply(s, e), JobOf(s, e));
    }
  }

  /** So the recorded history of a live non-SSE job is READY RUNNING X, READY X or X, or a prefix. */
  lemma RecordedHistoryShape(limit: int, events: seq<Event>, h: nat)
    requires IsRun(limit, events) && DistinctIds(After(limit, events))
    requires Live(After(limit, events), h) && After(limit, events).handlers[h].job.kind != Sse
    ensures PossibleLog(Noted(After(limit, events).history, After(limit, events).handlers[h].job.id))
  {
    hide IsRun, JobOk;
    HistoryMatches(limit, events);
    LimitKept(limit, events);
    BoundedPasses(After(limit, events), h);
  }
}
