/**
 When the queue can refuse a job at all: exactly when more jobs arrive than it has room for.
 */
module SchedulerRefusals {
  import opened Collections
  import opened Jobs
  import opened Scheduler
  import opened SchedulerInvariant
  import opened SchedulerRuns

  /** The number of jobs the queue has room for. */
  function Room(limit: int): nat {
    if limit > 0 then limit else 0
  }

  // ----- few jobs are never refused

  /** The job with the queue goroutine and the jobs in the FIFO are different jobs that have arrived. */
  lemma FifoAndHolder(s: State)
    requires Inv(s) && s.queue.Holding?
    ensures |s.fifo| + 1 <= |s.handlers|
  {
    hide Shaped;
    var h := s.queue.owner;
    assert JobOk(s, h);
    assert h !in s.fifo;
    DistinctSize(s.fifo);
    hide JobOk, Distinct;
    assert Elements(s.fifo) <= s.handlers.Keys - {h};
    SubsetSize(Elements(s.fifo), s.handlers.Keys - {h});
  }

  lemma RefusalNeedsCrowd(s: State, e: Event)
    requires Inv(s) && Enabled(s, e) && Apply(s, e).dropped != s.dropped
    ensures s.limit < |s.handlers| && |s.handlers| > 0
  {
    hide JobOk;
    RefusesOnly(s, e);
    FifoAndHolder(s);
  }

  lemma RefusesOnly(s: State, e: Event)
    requires Enabled(s, e) && Apply(s, e).dropped != s.dropped
    ensures e == QueueRefuse
  {
  }

  /** Jobs never disappear from the account. */
  lemma HandlersGrow(s: State, e: Event)
    requires Inv(s) && Enabled(s, e)
    ensures |s.handlers| <= |Apply(s, e).handlers| && Apply(s, e).limit == s.limit
  {
    hide Apply, Enabled, JobOk;
    StepIsOwn(s, e);
    var s' := Apply(s, e);
    OwnKeys(s, s', JobOf(s, e));
    SubsetSize(s.handlers.Keys, s'.handlers.Keys);
  }

  /** As long as no more jobs have arrived than the queue has room for, none has been refused. */
  lemma {:induction false} NoRefusalWithRoom(limit: int, events: seq<Event>)
    requires IsRun(limit, events) && |After(limit, events).handlers| <= Room(limit)
    ensures After(limit, events).dropped == {}
  {
    if events != [] {
      hide Apply, Enabled, Inv;
      var s, e := After(limit, Front(events)), Last(events);
      RunKeepsInv(limit, Front(events));
      HandlersGrow(s, e);
      NoRefusalWithRoom(limit, Front(events));
      LimitKept(limit, Front(events));
      if Apply(s, e).dropped != s.dropped {
        RefusalNeedsCrowd(s, e);
      }
    }
  }

  // ----- one job too many can be

  /** Jobs 0..n-1 have arrived, `k` of them are in the FIFO, and the shared goroutines are idle. */
  predicate Lobby(s: State, limit: int, n: nat, k: nat) {
    && s.limit == limit && s.handlers.Keys == Below(n) && |s.fifo| == k
    && s.worker == WorkerIdle && s.queue == QueueIdle && s.db == None
  }

  predicate Poised(s: State, h: nat, kind: Kind, pc: Pc) {
    At(s, h, pc) && s.handlers[h].job == Job(s.handlers[h].job.id, kind, Ready, false, CLEAR)
  }

  ghost predicate Waits(limit: int, events: seq<Event>, n: nat, k: nat) {
    IsRun(limit, events) && Lobby(After(limit, events), limit, n, k)
  }

  lemma EnterPass(limit: int, events: seq<Event>, n: nat, k: nat, kind: Kind) returns (more: seq<Event>)
    requires Waits(limit, events, n, k)
    ensures Waits(limit, more, n + 1, k) && Poised(After(limit, more), n, kind, Start)
    ensures After(limit, more).dropped == After(limit, events).dropped
  {
    hide IsRun, After;
    more := Extend(limit, events, Arrive(n, Job("", kind, Ready, false, CLEAR)));
    assert Below(n + 1) == Below(n) + {n};
  }

  lemma BeginPass(limit: int, events: seq<Event>, n: nat, k: nat, h: nat, kind: Kind) returns (more: seq<Event>)
    requires Waits(limit, events, n, k) && Poised(After(limit, events), h, kind, Start)
    ensures Waits(limit, more, n, k) && Poised(After(limit, more), h, kind, PublishPre)
  {
    hide IsRun, After, Below;
    more := Extend(limit, events, Begin(h));
    more := Extend(limit, more, PreReturn(h, After(limit, more).handlers[h].job));
  }

  lemma PublishStep(s: State, limit: int, n: nat, k: nat, h: nat, kind: Kind)
    requires Lobby(s, limit, n, k) && Poised(s, h, kind, PublishPre)
    ensures Enabled(s, Publish(h))
    ensures var s' := Apply(s, Publish(h));
            && Lobby(s'.(db := None), limit, n, k) && Poised(s', h, kind, Submit)
            && s'.db == Some(Record(h, Ready, false))
  {
    hide Below;
  }

  lemma ConsumeStep(s: State, limit: int, n: nat, k: nat, h: nat, kind: Kind)
    requires Lobby(s.(db := None), limit, n, k) && Poised(s, h, kind, Submit) && s.db == Some(Record(h, Ready, false))
    ensures Enabled(s, Consume)
    ensures Lobby(Apply(s, Consume), limit, n, k) && Poised(Apply(s, Consume), h, kind, Submit)
  {
    hide Below;
  }

  lemma SubmitPass(limit: int, events: seq<Event>, n: nat, k: nat, h: nat, kind: Kind) returns (more: seq<Event>)
    requires Waits(limit, events, n, k) && Poised(After(limit, events), h, kind, PublishPre)
    ensures Waits(limit, more, n, k) && Poised(After(limit, more), h, kind, Submit)
  {
    hide IsRun, After, Apply, Enabled, Lobby, Poised;
    PublishStep(After(limit, events), limit, n, k, h, kind);
    more := Extend(limit, events, Publish(h));
    ConsumeStep(After(limit, more), limit, n, k, h, kind);
    more := Extend(limit, more, Consume);
  }

  lemma AdmitPass(limit: int, events: seq<Event>, n: nat, k: nat, h: nat, kind: Kind) returns (more: seq<Event>)
    requires Waits(limit, events, n, k) && Poised(After(limit, events), h, kind, Submit) && k < limit
    ensures Waits(limit, more, n, k + 1)
  {
    hide IsRun, After, Below;
    more := Extend(limit, events, Enqueue(h));
    more := Extend(limit, more, QueueAdmit);
    more := Extend(limit, more, QueuePut);
  }

  lemma RefusePass(limit: int, events: seq<Event>, n: nat, k: nat, h: nat, kind: Kind) returns (more: seq<Event>)
    requires Waits(limit, events, n, k) && Poised(After(limit, events), h, kind, Submit) && limit <= k
    ensures Waits(limit, more, n, k) && h in After(limit, more).dropped
  {
    hide IsRun, After, Below;
    more := Extend(limit, events, Enqueue(h));
    more := Extend(limit, more, QueueRefuse);
  }

  /** One more job comes as far as handing itself to the queue goroutine. */
  lemma Approach(limit: int, events: seq<Event>, n: nat, k: nat, kind: Kind) returns (more: seq<Event>)
    requires Waits(limit, events, n, k)
    ensures Waits(limit, more, n + 1, k) && Poised(After(limit, more), n, kind, Submit)
  {
    hide Waits, Poised;
    more := EnterPass(limit, events, n, k, kind);
    more := BeginPass(limit, more, n + 1, k, n, kind);
    more := SubmitPass(limit, more, n + 1, k, n, kind);
  }

  /** With the worker idle, the first jobs fill the queue. */
  lemma {:induction false} Fill(limit: int, n: nat, kind: Kind) returns (events: seq<Event>)
    requires n <= Room(limit)
    ensures Waits(limit, events, n, n)
  {
    if n == 0 {
      events := [];
    } else {
      hide Waits, Poised;
      events := Fill(limit, n - 1, kind);
      events := Approach(limit, events, n - 1, n - 1, kind);
      events := AdmitPass(limit, events, n, n - 1, n - 1, kind);
    }
  }

  /** Further jobs only have to arrive. */
  lemma {:induction false} Crowd(limit: int, events: seq<Event>, n: nat, k: nat, extra: nat, kind: Kind)
    returns (more: seq<Event>)
    requires Waits(limit, events, n, k)
    ensures Waits(limit, more, n + extra, k) && After(limit, more).dropped == After(limit, events).dropped
  {
    hide Waits;
    if extra == 0 {
      more := events;
    } else {
      more := Crowd(limit, events, n, k, extra - 1, kind);
      more := EnterPass(limit, more, n + extra - 1, k, kind);
    }
  }

  /** For every queue size, every larger number of arrivals and every kind, a run in which a job is refused. */
  lemma RefusalHappens(limit: int, n: nat, kind: Kind) returns (events: seq<Event>)
    requires n > Room(limit)
    ensures IsRun(limit, events) && |After(limit, events).handlers| == n
    ensures Room(limit) in After(limit, events).dropped
  {
    hide Waits;
    var room := Room(limit);
    events := Fill(limit, room, kind);
    events := Approach(limit, events, room, room, kind);
    events := RefusePass(limit, events, room + 1, room, room, kind);
    events := Crowd(limit, events, room + 1, room, n - room - 1, kind);
    WaitsFor(limit, events, n, room);
  }

  lemma WaitsFor(limit: int, events: seq<Event>, n: nat, k: nat)
    requires Waits(limit, events, n, k)
    ensures IsRun(limit, events) && |After(limit, events).handlers| == n
  {
    hide IsRun, After;
    assert |After(limit, events).handlers| == |After(limit, events).handlers.Keys|;
  }

  ghost predicate RefusesSome(limit: int, events: seq<Event>, n: nat) {
    IsRun(limit, events) && |After(limit, events).handlers| == n && After(limit, events).dropped != {}
  }

  /** Among n arrivals a job can be refused exactly if n exceeds the room in the queue. */
  lemma RefusalPossibleIff(limit: int, n: nat)
    ensures (exists events :: RefusesSome(limit, events, n)) <==> n > Room(limit)
  {
    hide IsRun, After;
    if n > Room(limit) {
      var events := RefusalHappens(limit, n, Normal);
      assert RefusesSome(limit, events, n);
    } else {
      forall events ensures !RefusesSome(limit, events, n) {
        if IsRun(limit, events) && |After(limit, events).handlers| == n {
          NoRefusalWithRoom(limit, events);
        }
      }
    }
  }
}
