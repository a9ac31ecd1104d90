/**
 The poller's back-off machine and the ticker that drives it, refined to one number: how
 many polls in a row have brought no job.
 */
module Poller {

  datatype Mode = Polling | SubIdle | Idle

  /** The identifiers of the jobs the cloud has ready, or a failed request. */
  datatype Reply = Jobs(ids: seq<string>) | RequestError

  /** What one poll meets: the queue, the device and the cloud's reply. */
  datatype Poll = Poll(queueOverThreshold: bool, deviceAvailable: bool, reply: Reply)

  /** A poll is productive if it passes the polling condition and brings at least one job. */
  predicate Productive(p: Poll) {
    !p.queueOverThreshold && p.deviceAvailable && p.reply.Jobs? && |p.reply.ids| > 0
  }

  /** The jobs a poll hands to the scheduler. */
  function Brought(p: Poll): (r: seq<string>)
    ensures r != [] <==> Productive(p)
    ensures Productive(p) ==> r == p.reply.ids
  {
    if !p.queueOverThreshold && p.deviceAvailable && p.reply.Jobs? then p.reply.ids else []
  }

  function AllBrought(polls: seq<Poll>): seq<string> {
    if polls == [] then [] else AllBrought(polls[..|polls| - 1]) + Brought(polls[|polls| - 1])
  }

  /** The number of unproductive polls since the last productive one. */
  function Streak(polls: seq<Poll>): nat {
    if polls == [] || Productive(polls[|polls| - 1]) then 0 else Streak(polls[..|polls| - 1]) + 1
  }

  /** `Streak` is the length of the longest unproductive tail. */
  lemma {:induction false} StreakIsTail(polls: seq<Poll>)
    ensures Streak(polls) <= |polls|
    ensures forall i :: |polls| - Streak(polls) <= i < |polls| ==> !Productive(polls[i])
    ensures Streak(polls) < |polls| ==> Productive(polls[|polls| - 1 - Streak(polls)])
  {
    if polls != [] && !Productive(polls[|polls| - 1]) {
      var front := polls[..|polls| - 1];
      StreakIsTail(front);
      forall i | |polls| - Streak(polls) <= i < |polls| ensures !Productive(polls[i]) {
        if i < |front| {
          assert polls[i] == front[i];
        }
      }
    }
  }

  lemma OnePollMore(polls: seq<Poll>, p: Poll)
    ensures Streak(polls + [p]) == if Productive(p) then 0 else Streak(polls) + 1
    ensures AllBrought(polls + [p]) == AllBrought(polls) + if Productive(p) then p.reply.ids else []
  {
    assert (polls + [p])[..|polls|] == polls;
  }

  class Poller {
    const normalPeriod: int
    const idlePeriod: int
    const maxRetry: int
    var mode: Mode
    var noJobsCount: int
    var currentPeriod: int
    var scheduled: seq<string>
    ghost var polls: seq<Poll>

    /** The state is a function of the streak, and every job brought has been scheduled once, in order. */
    ghost predicate Valid()
      reads this
    {
      var r := Streak(polls);
      && mode == (if r == 0 then Polling else if r < 2 || r < maxRetry then SubIdle else Idle)
      && noJobsCount == (if r < 2 || r < maxRetry then r else 0)
      && currentPeriod == (if r < 2 || r < maxRetry then normalPeriod else idlePeriod)
      && scheduled == AllBrought(polls)
    }

    constructor (normalPeriod: int, idlePeriod: int, maxRetry: int)
      ensures Valid() && polls == []
      ensures this.normalPeriod == normalPeriod && this.idlePeriod == idlePeriod && this.maxRetry == maxRetry
    {
      this.normalPeriod := normalPeriod;
      this.idlePeriod := idlePeriod;
      this.maxRetry := maxRetry;
      mode := Polling;
      noJobsCount := 0;
      currentPeriod := normalPeriod;
      scheduled := [];
      polls := [];
    }

    /** One poll: every job brought goes to the scheduler. */
    method GetJobs(p: Poll) returns (handled: nat, failed: bool)
      modifies this`scheduled
      ensures failed <==> p.queueOverThreshold || !p.deviceAvailable || p.reply.RequestError?
      ensures !failed ==> handled == |p.reply.ids| && scheduled == old(scheduled) + p.reply.ids
      ensures failed ==> handled == 0 && scheduled == old(scheduled)
    {
      handled, failed := 0, false;
      if p.queueOverThreshold || !p.deviceAvailable {
        return 0, true;
      }
      if p.reply.RequestError? {
        return 0, true;
      }
      var jobs := p.reply.ids;
      for i := 0 to |jobs|
        invariant handled == i && scheduled == old(scheduled) + jobs[..i]
      {
        scheduled := scheduled + [jobs[i]];
        handled := handled + 1;
      }
      assert jobs[..|jobs|] == jobs;
    }

    method Task(p: Poll)
      requires Valid()
      modifies this`mode, this`noJobsCount, this`currentPeriod, this`scheduled, this`polls
      ensures Valid() && polls == old(polls) + [p]
      ensures scheduled == old(scheduled) + if Productive(p) then p.reply.ids else []
    {
      hide Streak, AllBrought, Brought;
      var handled, failed := GetJobs(p);
      OnePollMore(polls, p);
      polls := polls + [p];
      if failed || handled == 0 {
        match mode
        case Polling =>
          noJobsCount := 1;
          mode := SubIdle;
        case SubIdle =>
          noJobsCount := noJobsCount + 1;
          if noJobsCount >= maxRetry {
            noJobsCount := 0;
            mode := Idle;
            currentPeriod := idlePeriod;
          }
        case Idle =>
      } else {
        match mode
        case Polling =>
        case SubIdle =>
          mode := Polling;
          noJobsCount := 0;
        case Idle =>
          currentPeriod := normalPeriod;
          mode := Polling;
          noJobsCount := 0;
      }
    }
  }

  /** The period the ticker should have after the polls so far. */
  function PeriodAfter(polls: seq<Poll>, normal: int, idle: int, maxRetry: int): int {
    if Streak(polls) < 2 || Streak(polls) < maxRetry then normal else idle
  }

  /**
   The periodic task: one poll at once, then one poll per tick. `periods` is the ticker's
   period from each tick on; before the first tick it is `period`, whatever the poller says.
   */
  method RunPeriodically(poller: Poller, period: int, first: Poll, ticks: seq<Poll>) returns (periods: seq<int>)
    requires poller.Valid()
    modifies poller`mode, poller`noJobsCount, poller`currentPeriod, poller`scheduled, poller`polls
    ensures poller.Valid() && poller.polls == old(poller.polls) + [first] + ticks
    ensures |periods| == |ticks|
    ensures forall i :: 0 <= i < |ticks| ==>
                          periods[i] == PeriodAfter(old(poller.polls) + [first] + ticks[..i + 1],
                                                    poller.normalPeriod, poller.idlePeriod, poller.maxRetry)
  {
    var lastPeriod, ticker := period, period;
    periods := [];
    poller.Task(first);
    for i := 0 to |ticks|
      invariant poller.Valid() && poller.polls == old(poller.polls) + [first] + ticks[..i]
      invariant ticker == lastPeriod && |periods| == i
      invariant forall j :: 0 <= j < i ==>
                              periods[j] == PeriodAfter(old(poller.polls) + [first] + ticks[..j + 1],
                                                        poller.normalPeriod, poller.idlePeriod, poller.maxRetry)
    {
      poller.Task(ticks[i]);
      assert old(poller.polls) + [first] + ticks[..i] + [ticks[i]] == old(poller.polls) + [first] + ticks[..i + 1];
      var newPeriod := poller.currentPeriod;
      if newPeriod != lastPeriod {
        ticker := newPeriod;
        lastPeriod := newPeriod;
      }
      periods := periods + [ticker];
    }
    assert ticks[..|ticks|] == ticks;
  }

  /** The last `n` polls exist and were all unproductive. */
  predicate QuietFor(polls: seq<Poll>, n: int) {
    |polls| >= n && forall i :: |polls| - n <= i < |polls| && 0 <= i ==> !Productive(polls[i])
  }

  /**
   With distinct periods, the ticker idles exactly while the streak is at least two and at
   least the retry limit, that is after as many unproductive polls in a row, and two at least.
   */
  lemma IdlePeriodIffStreak(polls: seq<Poll>, normal: int, idle: int, maxRetry: int)
    requires normal != idle
    ensures PeriodAfter(polls, normal, idle, maxRetry) == idle <==> Streak(polls) >= 2 && Streak(polls) >= maxRetry
    ensures PeriodAfter(polls, normal, idle, maxRetry) == idle <==> QuietFor(polls, 2) && QuietFor(polls, maxRetry)
  {
    StreakIsTail(polls);
  }
}
