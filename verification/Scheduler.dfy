/**
 The scheduler as a transition system: any number of handler goroutines, the queue
 goroutine, the single worker, and the consumer of the record channel. Both channels are
 unbuffered, so a send is a rendezvous with a receiver that is idle. Each event is one
 step of one goroutine between two synchronisation points; nondeterministic outcomes of
 the job methods are part of the event.
 */
module Scheduler {
  import opened Collections
  import opened Jobs

  /** A remote call made for a record: the running patch or the job-info patch. */
  datatype Call = PatchRunning | PatchInfo(status: Status)

  /** A clone of a job on its way to the record consumer. */
  datatype Record = Record(owner: nat, status: Status, useJobInfo: bool)

  /** Unknown statuses are reported to the cloud as failed. */
  function CloudStatus(s: Status): Status {
    if s == Cancelled then Failed else s
  }

  /** The remote calls of one update. */
  function CallsFor(r: Record): seq<Call> {
    if r.useJobInfo then [PatchInfo(CloudStatus(r.status))]
    else if CloudStatus(r.status) == Running then [PatchRunning]
    else []
  }

  datatype Pc =
    | Start | Pre | PublishPre | RecordPre | Submit | Waiting
    | PublishDone | RecordDone | RepublishDone
    | Post | RecordPost | PublishPost
    | RecoverRecord | RecoverPublish
    | Cleanup | Ended

  /**
   One handler goroutine: the job, its program counter and its wait group. `passes`,
   `submitted`, `served` and `log` count its PreProcess calls, its submissions, the
   submissions the worker has ended and its own status-history entries; `calls` are the
   remote calls made for it.
   */
  datatype Handler = Handler(
    job: Job, pc: Pc, wg: int,
    passes: nat, submitted: nat, served: nat, log: seq<Status>, calls: seq<Call>)

  datatype Queue = QueueIdle | Holding(owner: nat) | Admitted(owner: nat)

  datatype Worker =
    | WorkerIdle
    | Marking(owner: nat)
    | Announcing(owner: nat)
    | Processing(owner: nat)
    | CrashAnnouncing(owner: nat)
    | Releasing(owner: nat)

  datatype State = State(
    limit: int,
    handlers: map<nat, Handler>,
    history: map<string, seq<Status>>,
    queue: Queue, fifo: seq<nat>, worker: Worker, db: Option<Record>,
    dropped: set<nat>, accepted: seq<nat>, started: seq<nat>)

  function Init(limit: int): State {
    State(limit, map[], map[], QueueIdle, [], WorkerIdle, None, {}, [], [])
  }

  datatype Event =
    | Arrive(h: nat, job: Job)
    | Begin(h: nat)
    | PreReturn(h: nat, after: Job)
    | PrePanic(h: nat, after: Job)
    | Publish(h: nat)
    | Note(h: nat)
    | Enqueue(h: nat)
    | Wake(h: nat)
    | PostReturn(h: nat, after: Job)
    | PostPanic(h: nat, after: Job)
    | Exit(h: nat)
    | QueueRefuse
    | QueueAdmit
    | QueuePut
    | Dequeue
    | MarkRunning
    | Announce
    | ProcessReturn(after: Job)
    | ProcessPanic(after: Job)
    | AnnounceCrash
    | Release
    | Consume

  function Noted(history: map<string, seq<Status>>, id: string): seq<Status> {
    if id in history then history[id] else []
  }

  /** Appends to a job's status history, creating the entry if needed. */
  function Append(history: map<string, seq<Status>>, id: string, st: Status): map<string, seq<Status>> {
    history[id := Noted(history, id) + [st]]
  }

  predicate At(s: State, h: nat, pc: Pc) {
    h in s.handlers && s.handlers[h].pc == pc
  }

  predicate Publishing(pc: Pc) {
    pc == PublishPre || pc == PublishDone || pc == RepublishDone || pc == PublishPost || pc == RecoverPublish
  }

  predicate Noting(pc: Pc) {
    pc == RecordPre || pc == RecordDone || pc == RecordPost || pc == RecoverRecord
  }

  /**
   What an update sends, whatever the record: with the job-info flag one patch of the status,
   a cancelled job as failed; without it a running patch for a running job and nothing else.
   */
  lemma UpdateSends(r: Record)
    ensures r.useJobInfo && r.status != Cancelled ==> CallsFor(r) == [PatchInfo(r.status)]
    ensures r.useJobInfo && r.status == Cancelled ==> CallsFor(r) == [PatchInfo(Failed)]
    ensures !r.useJobInfo && r.status == Running ==> CallsFor(r) == [PatchRunning]
    ensures !r.useJobInfo && r.status != Running ==> CallsFor(r) == []
  {
  }

  /** Where a handler goes after its record has been received. */
  function AfterPublish(x: Handler): Pc {
    match x.pc
    case PublishPre => if IsFinished(x.job) then RecordPre else Submit
    case PublishDone => RecordDone
    case _ => Cleanup
  }

  /** Where a handler goes after a history entry. */
  function AfterNote(pc: Pc): Pc {
    match pc
    case RecordDone => RepublishDone
    case RecordPost => PublishPost
    case RecoverRecord => RecoverPublish
    case _ => Cleanup
  }


  predicate Enabled(s: State, e: Event) {
    match e
    case Arrive(h, job) => h !in s.handlers && job.flags == CLEAR
    case Begin(h) => At(s, h, Start)
    case PreReturn(h, after) => At(s, h, Pre) && PreReturns(s.handlers[h].job, after)
    case PrePanic(h, after) => At(s, h, Pre) && PrePanics(s.handlers[h].job, after)
    case Publish(h) => h in s.handlers && Publishing(s.handlers[h].pc) && s.db == None
    case Note(h) => h in s.handlers && Noting(s.handlers[h].pc)
    case Enqueue(h) => At(s, h, Submit) && s.queue == QueueIdle
    case Wake(h) => At(s, h, Waiting) && s.handlers[h].wg == 0
    case PostReturn(h, after) => At(s, h, Post) && PostReturns(s.handlers[h].job, after)
    case PostPanic(h, after) => At(s, h, Post) && PostPanics(s.handlers[h].job, after)
    case Exit(h) => At(s, h, Cleanup)
    case QueueRefuse => s.queue.Holding? && s.limit <= |s.fifo|
    case QueueAdmit => s.queue.Holding? && |s.fifo| < s.limit
    case QueuePut => s.queue.Admitted?
    case Dequeue => s.worker == WorkerIdle && s.fifo != []
    case MarkRunning => s.worker.Marking? && s.worker.owner in s.handlers
    case Announce => s.worker.Announcing? && s.worker.owner in s.handlers && s.db == None
    case ProcessReturn(after) =>
      s.worker.Processing? && s.worker.owner in s.handlers && ProcessReturns(s.handlers[s.worker.owner].job, after)
    case ProcessPanic(after) =>
      s.worker.Processing? && s.worker.owner in s.handlers && ProcessPanics(s.handlers[s.worker.owner].job, after)
    case AnnounceCrash => s.worker.CrashAnnouncing? && s.worker.owner in s.handlers && s.db == None
    case Release => s.worker.Releasing? && s.worker.owner in s.handlers
    case Consume => s.db.Some? && s.db.value.owner in s.handlers
  }

  function Put(s: State, h: nat, x: Handler): State {
    s.(handlers := s.handlers[h := x])
  }

  function RecordOf(h: nat, j: Job): Record {
    Record(h, j.status, j.useJobInfo)
  }

  // ----- a handler's steps

  function DoBegin(s: State, h: nat): State
    requires h in s.handlers
  {
    var x, j := s.handlers[h], s.handlers[h].job;
    var go := j.status == Ready;
    Put(s, h, x.(job := j.(useJobInfo := false), log := x.log + [j.status],
                 passes := if go then x.passes + 1 else x.passes,
                 pc := if go then Pre else Cleanup))
    .(history := Append(s.history, j.id, j.status))
  }

  function DoPreReturn(s: State, h: nat, after: Job): State
    requires h in s.handlers
  {
    Put(s, h, s.handlers[h].(job := after.(useJobInfo := after.useJobInfo || IsFinished(after)), pc := PublishPre))
  }

  /** Recovery from a panic in PreProcess or PostProcess. */
  function DoRecover(s: State, h: nat, after: Job): State
    requires h in s.handlers
  {
    Put(s, h, s.handlers[h].(job := after.(status := Failed), pc := RecoverRecord))
  }

  function DoPublish(s: State, h: nat): State
    requires h in s.handlers
  {
    var x := s.handlers[h];
    Put(s, h, x.(pc := AfterPublish(x))).(db := Some(RecordOf(h, x.job)))
  }

  function DoNote(s: State, h: nat): State
    requires h in s.handlers
  {
    var x, j := s.handlers[h], s.handlers[h].job;
    Put(s, h, x.(log := x.log + [j.status], pc := AfterNote(x.pc))).(history := Append(s.history, j.id, j.status))
  }

  function DoEnqueue(s: State, h: nat): State
    requires h in s.handlers
  {
    var x := s.handlers[h];
    Put(s, h, x.(pc := Waiting, wg := 1, submitted := x.submitted + 1)).(queue := Holding(h))
  }

  function DoWake(s: State, h: nat): State
    requires h in s.handlers
  {
    var j := s.handlers[h].job.(useJobInfo := true);
    Put(s, h, s.handlers[h].(job := j, pc := if IsFinished(j) then PublishDone else Post))
  }

  function DoPostReturn(s: State, h: nat, after: Job): State
    requires h in s.handlers
  {
    Put(s, h, s.handlers[h].(job := after, pc := if IsFinished(after) then RecordPost else Start))
  }

  function DoExit(s: State, h: nat): State
    requires h in s.handlers
  {
    Put(s, h, s.handlers[h].(pc := Ended)).(history := s.history - {s.handlers[h].job.id})
  }

  // ----- the worker's steps on job `h`

  function DoMark(s: State, h: nat): State
    requires h in s.handlers
  {
    var x, j := s.handlers[h], s.handlers[h].job;
    Put(s, h, x.(job := j.(status := Running), log := x.log + [Running]))
    .(history := Append(s.history, j.id, Running), worker := Announcing(h))
  }

  function DoAnnounce(s: State, h: nat, next: Worker): State
    requires h in s.handlers
  {
    s.(db := Some(RecordOf(h, s.handlers[h].job)), worker := next)
  }

  function DoProcess(s: State, h: nat, after: Job, next: Worker): State
    requires h in s.handlers
  {
    Put(s, h, s.handlers[h].(job := after)).(worker := next)
  }

  function DoRelease(s: State, h: nat): State
    requires h in s.handlers
  {
    var x := s.handlers[h];
    Put(s, h, x.(wg := x.wg - 1, served := x.served + 1)).(worker := WorkerIdle)
  }

  // ----- the record consumer's step

  function DoConsume(s: State, r: Record): State
    requires r.owner in s.handlers
  {
    var x := s.handlers[r.owner];
    Put(s, r.owner, x.(calls := x.calls + CallsFor(r))).(db := None)
  }

  function Apply(s: State, e: Event): State
    requires Enabled(s, e)
  {
    match e
    case Arrive(h, job) => Put(s, h, Handler(job, Start, 0, 0, 0, 0, [], []))
    case Begin(h) => DoBegin(s, h)
    case PreReturn(h, after) => DoPreReturn(s, h, after)
    case PrePanic(h, after) => DoRecover(s, h, after)
    case Publish(h) => DoPublish(s, h)
    case Note(h) => DoNote(s, h)
    case Enqueue(h) => DoEnqueue(s, h)
    case Wake(h) => DoWake(s, h)
    case PostReturn(h, after) => DoPostReturn(s, h, after)
    case PostPanic(h, after) => DoRecover(s, h, after)
    case Exit(h) => DoExit(s, h)
    case QueueRefuse => s.(queue := QueueIdle, dropped := s.dropped + {s.queue.owner})
    case QueueAdmit => s.(queue := Admitted(s.queue.owner))
    case QueuePut =>
      s.(queue := QueueIdle, fifo := s.fifo + [s.queue.owner], accepted := s.accepted + [s.queue.owner])
    case Dequeue => s.(fifo := s.fifo[1..], worker := Marking(s.fifo[0]), started := s.started + [s.fifo[0]])
    case MarkRunning => DoMark(s, s.worker.owner)
    case Announce => DoAnnounce(s, s.worker.owner, Processing(s.worker.owner))
    case ProcessReturn(after) => DoProcess(s, s.worker.owner, after, Releasing(s.worker.owner))
    case ProcessPanic(after) =>
      DoProcess(s, s.worker.owner, after.(status := Failed), CrashAnnouncing(s.worker.owner))
    case AnnounceCrash => DoAnnounce(s, s.worker.owner, Releasing(s.worker.owner))
    case Release => DoRelease(s, s.worker.owner)
    case Consume => DoConsume(s, s.db.value)
  }

  // ----- runs

  /** A sequence of events that can happen, one after the other, from the empty scheduler. */
  predicate IsRun(limit: int, events: seq<Event>)
    decreases |events|, 0
  {
    events == [] || (IsRun(limit, Front(events)) && Enabled(After(limit, Front(events)), Last(events)))
  }

  /** The state a run leads to. */
  function After(limit: int, events: seq<Event>): State
    requires IsRun(limit, events)
    decreases |events|, 1
  {
    if events == [] then Init(limit) else Apply(After(limit, Front(events)), Last(events))
  }

  function Front(events: seq<Event>): seq<Event>
    requires events != []
  {
    events[..|events| - 1]
  }

  function Last(events: seq<Event>): Event
    requires events != []
  {
    events[|events| - 1]
  }

  /** A state some run leads to. */
  ghost predicate Reachable(s: State) {
    exists events :: IsRun(s.limit, events) && After(s.limit, events) == s
  }

  /** Every prefix of a run is a run. */
  lemma {:induction false} PrefixRuns(limit: int, events: seq<Event>, i: nat)
    requires IsRun(limit, events) && i <= |events|
    ensures IsRun(limit, events[..i])
  {
    if i == |events| {
      assert events[..i] == events;
    } else {
      PrefixRuns(limit, Front(events), i);
      assert Front(events)[..i] == events[..i];
    }
  }

  /** The state after the first `i` events of a run. */
  function StateAt(limit: int, events: seq<Event>, i: nat): State
    requires IsRun(limit, events) && i <= |events|
  {
    PrefixRuns(limit, events, i);
    After(limit, events[..i])
  }
}
