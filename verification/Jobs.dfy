/**
 The job types the engine ships: their status, the flags behind `IsFinished`, and what
 each of the three job methods may leave behind when it returns or panics. Calls to the
 transpiler, the device, the mitigator and the estimator are nondeterministic outcomes.
 */
module Jobs {

  datatype Status = Submitted | Ready | Running | Succeeded | Failed | Cancelled

  datatype Kind = Normal | Sampling | Estimation | Manual | Unknown | Sse

  /** Mitigation requested and done, estimation finished, manual job post-processed. */
  datatype Flags = Flags(mitigate: bool, mitigated: bool, finished: bool, postProcessed: bool)

  datatype Job = Job(id: string, kind: Kind, status: Status, useJobInfo: bool, flags: Flags)

  const CLEAR: Flags := Flags(false, false, false, false)

  predicate Terminal(s: Status) {
    s == Succeeded || s == Failed
  }

  predicate IsFinished(j: Job) {
    match j.kind
    case Sampling => j.status == Failed || (if j.flags.mitigate then j.flags.mitigated else j.status == Succeeded)
    case Estimation => j.flags.finished
    case Manual => j.flags.postProcessed || j.status == Failed
    case _ => Terminal(j.status)
  }

  /** What a method may change: never the identity or the type of the job. */
  predicate SameJob(j: Job, k: Job) {
    j.id == k.id && j.kind == k.kind
  }

  /** PreProcess returned. */
  predicate PreReturns(j: Job, k: Job) {
    && SameJob(j, k)
    && match j.kind
       case Unknown => k == j
       case Normal | Sse => k == j || k == j.(status := Failed)
       case Sampling => k == j.(status := Failed) || k == j.(flags := CLEAR.(mitigate := k.flags.mitigate))
       case Estimation => k == j || k == j.(status := Failed, flags := j.flags.(finished := true))
       case Manual => k == j || k == j.(status := Failed) || k == j.(status := Failed, useJobInfo := true)
  }

  /** PreProcess panicked, possibly after the failure was written. */
  predicate PrePanics(j: Job, k: Job) {
    j.kind != Unknown && (k == j || k == j.(status := Failed))
  }

  /** Process returned: the device reports success or failure, an error means failure. */
  predicate ProcessReturns(j: Job, k: Job) {
    && SameJob(j, k)
    && match j.kind
       case Unknown => k == j
       case Sse => k == j.(status := k.status)
       case Estimation =>
         || k == j
         || k == j.(status := Succeeded)
         || k == j.(status := Failed, flags := j.flags.(finished := true))
       case _ => Terminal(k.status) && k == j.(status := k.status)
  }

  /** Process panicked, with whatever the device had reported so far. */
  predicate ProcessPanics(j: Job, k: Job) {
    && j.kind != Unknown
    && k == j.(status := k.status)
    && (k.status == j.status || Terminal(k.status) || j.kind == Sse)
  }

  /** The flag every PostProcess with work to do sets first. */
  function PostFlags(j: Job): Flags {
    match j.kind
    case Sampling => j.flags.(mitigated := true)
    case Estimation => j.flags.(finished := true)
    case Manual => j.flags.(postProcessed := true)
    case _ => j.flags
  }

  /** PostProcess returned. */
  predicate PostReturns(j: Job, k: Job) {
    && k == j.(status := k.status, flags := PostFlags(j))
    && match j.kind
       case Sampling => k.status == j.status || Terminal(k.status)
       case Estimation | Manual => Terminal(k.status)
       case _ => k.status == j.status
  }

  /** PostProcess panicked. */
  predicate PostPanics(j: Job, k: Job) {
    && (j.kind == Sampling || j.kind == Estimation || j.kind == Manual)
    && k == j.(status := k.status, flags := PostFlags(j))
    && (k.status == j.status || Terminal(k.status))
  }
}
