/**
 Which jobs are post-processed, and what that means for their results: no Manual job
 succeeds undivided, no Sampling job that asked for mitigation succeeds unmitigated, and the
 number of terminal patches tells whether a job finished after Process or after PostProcess.
 */
module SchedulerPostProcessing {
  import opened Collections
  import opened Jobs
  import opened Scheduler
  import opened SchedulerInvariant
  import opened SchedulerReports

  predicate HandledOnce(kind: Kind) {
    kind == Normal || kind == Sampling || kind == Estimation || kind == Manual
  }

  /** A processed job whose handler goes on to PostProcess. */
  predicate NeedsPost(j: Job) {
    match j.kind
    case Manual => j.status == Succeeded
    case Sampling => j.status == Succeeded && j.flags.mitigate
    case Estimation => !j.flags.finished
    case Normal => false
    case Unknown => true
    case Sse => j.status != Succeeded && j.status != Failed
  }

  /** A post-processed job. */
  predicate Marked(j: Job) {
    match j.kind
    case Manual => j.flags.postProcessed
    case Sampling => j.flags.mitigate && j.flags.mitigated
    case Estimation => j.flags.finished
    case _ => false
  }

  /** A job that is finished without post-processing. */
  predicate DoneAfterProcess(j: Job) {
    match j.kind
    case Manual => j.status == Failed && !j.flags.postProcessed
    case Sampling => (j.status == Failed || !j.flags.mitigate) && !j.flags.mitigated
    case Estimation => j.status == Failed
    case _ => true
  }

  // ----- the three decisions of a handler

  /** After its wait a handler goes on to PostProcess exactly for these jobs. */
  lemma WakeDecides(s: State, h: nat)
    requires Reachable(s) && Enabled(s, Wake(h))
    ensures h in Apply(s, Wake(h)).handlers
    ensures Apply(s, Wake(h)).handlers[h].pc == if NeedsPost(s.handlers[h].job) then Post else PublishDone
  {
    hide Reachable;
    ReachableInv(s);
    assert JobOk(s, h);
  }

  /** After pre-processing it gives up exactly for a failed job. */
  lemma PublishDecides(s: State, h: nat)
    requires Reachable(s) && Enabled(s, Publish(h)) && At(s, h, PublishPre) && s.handlers[h].job.kind != Sse
    ensures h in Apply(s, Publish(h)).handlers
    ensures Apply(s, Publish(h)).handlers[h].pc == if s.handlers[h].job.status == Failed then RecordPre else Submit
  {
    hide Reachable;
    ReachableInv(s);
    assert JobOk(s, h);
  }

  // ----- over whole runs

  predicate IsPostReturn(e: Event, h: nat) {
    e.PostReturn? && e.h == h
  }

  predicate IsPostPanic(e: Event, h: nat) {
    e.PostPanic? && e.h == h
  }

  ghost predicate PostedIn(events: seq<Event>, h: nat) {
    exists i :: 0 <= i < |events| && IsPostReturn(events[i], h)
  }

  ghost predicate PostPanickedIn(events: seq<Event>, h: nat) {
    exists i :: 0 <= i < |events| && IsPostPanic(events[i], h)
  }

  lemma PostsFront(events: seq<Event>, h: nat)
    requires events != []
    ensures PostedIn(events, h) <==> PostedIn(Front(events), h) || IsPostReturn(Last(events), h)
    ensures PostPanickedIn(events, h) <==> PostPanickedIn(Front(events), h) || IsPostPanic(Last(events), h)
  {
    hide IsPostReturn, IsPostPanic;
    var n := |events| - 1;
    assert Last(events) == events[n];
    assert forall i :: 0 <= i < n ==> Front(events)[i] == events[i];
    if PostedIn(Front(events), h) {
      var i :| 0 <= i < n && IsPostReturn(Front(events)[i], h);
      assert IsPostReturn(events[i], h);
    }
    if PostPanickedIn(Front(events), h) {
      var i :| 0 <= i < n && IsPostPanic(Front(events)[i], h);
      assert IsPostPanic(events[i], h);
    }
    if PostedIn(events, h) {
      var i :| 0 <= i < |events| && IsPostReturn(events[i], h);
      assert i < n ==> IsPostReturn(Front(events)[i], h);
    }
    if PostPanickedIn(events, h) {
      var i :| 0 <= i < |events| && IsPostPanic(events[i], h);
      assert i < n ==> IsPostPanic(Front(events)[i], h);
    }
  }

  /**
   A one-shot job at each point of its life: `posted` and `panicked` tell whether PostProcess
   has returned or panicked, `issued` are its remote calls including a pending one.
   */
  predicate PostShape(x: Handler, posted: bool, panicked: bool, issued: seq<Call>) {
    var j := x.job;
    match x.pc
    case PublishDone | RecordDone | RepublishDone => !posted && !panicked && DoneAfterProcess(j)
    case Post => !posted && !panicked && NeedsPost(j)
    case RecordPost | PublishPost => posted && !panicked && Marked(j)
    case RecoverRecord | RecoverPublish => !posted && (panicked <==> j.useJobInfo)
    case Cleanup | Ended =>
      if |x.log| == 3 then
        && (posted ==> !panicked && Marked(j))
        && (panicked ==> j.status == Failed)
        && (!posted && !panicked ==> DoneAfterProcess(j))
        && |issued| == (if posted || panicked then 2 else 3)
      else !posted && !panicked
    case _ => !posted && !panicked
  }

  lemma PublishPosts(s: State, h: nat, posted: bool, panicked: bool)
    requires Enabled(s, Publish(h)) && JobOk(s, h) && HandledOnce(s.handlers[h].job.kind)
    requires PostShape(s.handlers[h], posted, panicked, Issued(s, h))
    ensures h in Apply(s, Publish(h)).handlers
    ensures PostShape(Apply(s, Publish(h)).handlers[h], posted, panicked, Issued(Apply(s, Publish(h)), h))
  {
    hide Located, Marked, DoneAfterProcess;
    assert Issued(s, h) == s.handlers[h].calls;
  }

  lemma EarlyPosts(s: State, e: Event, posted: bool, panicked: bool)
    requires Enabled(s, e) && OfHandler(e) && BeforeWait(e) && !e.Publish?
    requires JobOk(s, e.h) && HandledOnce(s.handlers[e.h].job.kind)
    requires PostShape(s.handlers[e.h], posted, panicked, Issued(s, e.h))
    ensures e.h in Apply(s, e).handlers
    ensures PostShape(Apply(s, e).handlers[e.h], posted, panicked, Issued(Apply(s, e), e.h))
  {
    hide Located, Append, CallsFor, NeedsPost, Marked, DoneAfterProcess, IsFinished;
  }

  lemma LatePosts(s: State, e: Event, posted: bool, panicked: bool)
    requires Enabled(s, e) && OfHandler(e) && !BeforeWait(e) && JobOk(s, e.h) && HandledOnce(s.handlers[e.h].job.kind)
    requires PostShape(s.handlers[e.h], posted, panicked, Issued(s, e.h))
    ensures e.h in Apply(s, e).handlers
    ensures PostShape(Apply(s, e).handlers[e.h], posted || e.PostReturn?, panicked || e.PostPanic?,
                      Issued(Apply(s, e), e.h))
  {
    hide Located, Append, CallsFor;
  }

  lemma WorkerPosts(s: State, e: Event, posted: bool, panicked: bool)
    requires Enabled(s, e) && OfWorker(e) && JobOk(s, s.worker.owner)
    requires PostShape(s.handlers[s.worker.owner], posted, panicked, Issued(s, s.worker.owner))
    ensures var h := s.worker.owner;
            h in Apply(s, e).handlers && PostShape(Apply(s, e).handlers[h], posted, panicked, Issued(Apply(s, e), h))
  {
    hide Shaped, Append, Issued;
  }

  lemma OtherPosts(s: State, e: Event, posted: bool, panicked: bool)
    requires Known(s) && Enabled(s, e) && !OfHandler(e) && !OfWorker(e)
    requires var h := JobOf(s, e);
             if h in s.handlers then PostShape(s.handlers[h], posted, panicked, Issued(s, h)) else !posted && !panicked
    ensures var h := JobOf(s, e);
            h in Apply(s, e).handlers && PostShape(Apply(s, e).handlers[h], posted, panicked, Issued(Apply(s, e), h))
  {
    hide CallsFor, Marked, DoneAfterProcess, NeedsPost;
  }

  lemma PostShapeStep(s: State, e: Event, h: nat, posted: bool, panicked: bool)
    requires Inv(s) && Enabled(s, e) && h in Apply(s, e).handlers && HandledOnce(Apply(s, e).handlers[h].job.kind)
    requires if h in s.handlers then PostShape(s.handlers[h], posted, panicked, Issued(s, h)) else !posted && !panicked
    ensures PostShape(Apply(s, e).handlers[h], posted || IsPostReturn(e, h), panicked || IsPostPanic(e, h),
                      Issued(Apply(s, e), h))
  {
    hide Apply, JobOk, OwnStep, PostShape;
    StepIsOwn(s, e);
    OwnKeys(s, Apply(s, e), JobOf(s, e));
    if h in s.handlers {
      assert JobOk(s, h);
      IdentityKept(s, e, h);
    }
    if h != JobOf(s, e) {
      OthersUntouched(s, Apply(s, e), JobOf(s, e), h);
    } else if e.Publish? {
      PublishPosts(s, h, posted, panicked);
    } else if OfHandler(e) && BeforeWait(e) {
      EarlyPosts(s, e, posted, panicked);
    } else if OfHandler(e) {
      LatePosts(s, e, posted, panicked);
    } else if OfWorker(e) {
      WorkerPosts(s, e, posted, panicked);
    } else {
      OtherPosts(s, e, posted, panicked);
    }
  }

  lemma PostNeedsHandler(s: State, e: Event, h: nat)
    requires Enabled(s, e) && h !in s.handlers
    ensures !IsPostReturn(e, h) && !IsPostPanic(e, h)
  {
  }

  lemma {:induction false} RunKeepsPostShape(limit: int, events: seq<Event>, h: nat)
    requires IsRun(limit, events)
    ensures var s := After(limit, events);
            && (h !in s.handlers ==> !PostedIn(events, h) && !PostPanickedIn(events, h))
            && (h in s.handlers && HandledOnce(s.handlers[h].job.kind) ==>
                  PostShape(s.handlers[h], PostedIn(events, h), PostPanickedIn(events, h), Issued(s, h)))
  {
    if events != [] {
      hide Apply, Enabled, JobOk, OwnStep, PostedIn, PostPanickedIn, PostShape, IsPostReturn, IsPostPanic;
      var s, e := After(limit, Front(events)), Last(events);
      RunKeepsPostShape(limit, Front(events), h);
      RunKeepsInv(limit, Front(events));
      PostsFront(events, h);
      StepIsOwn(s, e);
      OwnKeys(s, Apply(s, e), JobOf(s, e));
      if h in s.handlers {
        IdentityKept(s, e, h);
      } else {
        PostNeedsHandler(s, e, h);
      }
      if h in Apply(s, e).handlers && HandledOnce(Apply(s, e).handlers[h].job.kind) {
        PostShapeStep(s, e, h, PostedIn(Front(events), h), PostPanickedIn(Front(events), h));
      }
    }
  }

  /**
   PostProcess is only ever called on a Manual job that Process left SUCCEEDED, a Sampling job
   left SUCCEEDED that asked for mitigation, or an Estimation job not finished yet.
   */
  lemma PostOnlyIfNeeded(s: State, h: nat)
    requires Reachable(s) && At(s, h, Post)
    ensures var j := s.handlers[h].job;
            && (j.kind == Manual ==> j.status == Succeeded)
            && (j.kind == Sampling ==> j.status == Succeeded && j.flags.mitigate)
            && (j.kind == Estimation ==> !j.flags.finished)
            && j.kind != Normal
  {
    var events :| IsRun(s.limit, events) && After(s.limit, events) == s;
    hide IsRun, After;
    RunKeepsPostShape(s.limit, events, h);
  }

  /**
   Results are complete: a job that arrived READY and ended SUCCEEDED has been divided if it
   is a Manual job, mitigated if it is a Sampling job that asked for it, and evaluated if it is
   an Estimation job. PostProcess returned for no other job.
   */
  lemma SuccessIsComplete(limit: int, events: seq<Event>, h: nat)
    requires IsRun(limit, events) && h in After(limit, events).handlers && After(limit, events).handlers[h].pc == Ended
    ensures var j := After(limit, events).handlers[h].job;
            var success, posted := ArrivedReady(events, h) && j.status == Succeeded, PostedIn(events, h);
            && (j.kind == Manual ==> (success ==> posted) && (posted ==> j.flags.postProcessed))
            && (j.kind == Sampling ==> (success && j.flags.mitigate ==> posted)
                                       && (posted ==> j.flags.mitigate && j.flags.mitigated))
            && (j.kind == Estimation ==> (success ==> posted) && (posted ==> j.flags.finished))
            && (j.kind == Normal ==> !posted)
  {
    hide Located, IsRun, After, PostedIn, PostPanickedIn, ArrivedReady;
    RunKeepsPostShape(limit, events, h);
    FirstStatusIsArrival(limit, events, h);
    RunKeepsInv(limit, events);
    assert JobOk(After(limit, events), h);
  }

  /**
   The exact history and remote calls of an ended job whose records are consumed. A job that
   finished after Process is published twice, one that reached PostProcess once.
   */
  lemma FinalTrace(limit: int, events: seq<Event>, h: nat)
    requires IsRun(limit, events) && h in After(limit, events).handlers
    requires var s := After(limit, events);
             s.handlers[h].pc == Ended && s.db == None && HandledOnce(s.handlers[h].job.kind)
    ensures var x := After(limit, events).handlers[h];
            var st := x.job.status;
            if !ArrivedReady(events, h) then x.log == [st] && x.calls == []
            else if PanickedIn(events, h) then x.log == [Ready, Failed] && st == Failed && x.calls == []
            else if |x.log| == 2 then x.log == [Ready, Failed] && st == Failed && x.calls == [PatchInfo(Failed)]
            else
              && x.log == [Ready, Running, st] && (st == Succeeded || st == Failed)
              && (PostPanickedIn(events, h) ==> st == Failed)
              && x.calls == if PostedIn(events, h) || PostPanickedIn(events, h) then [PatchRunning, PatchInfo(st)]
                            else [PatchRunning, PatchInfo(st), PatchInfo(st)]
  {
    hide Located, IsRun, After, PostedIn, PostPanickedIn, ArrivedReady, PanickedIn;
    RunKeepsPostShape(limit, events, h);
    FirstStatusIsArrival(limit, events, h);
    MarredIffPanicked(limit, events, h);
    RunKeepsInv(limit, events);
    assert JobOk(After(limit, events), h);
    assert Issued(After(limit, events), h) == After(limit, events).handlers[h].calls;
  }
}
