/** The trade executor: safety limits, order tracking by polling, and the daily volume. */
module TradeExecutor {
  import opened Basics

  datatype Status = Pending | Submitted | Filled | PartiallyFilled | Cancelled | Rejected | Failed

  datatype Execution = Execution(quantity: real, status: Status, filledQuantity: Option<real>)

  /** What the exchange answers to one status request. A failed request answers nothing. */
  datatype Reply =
    | NoUpdate
    | FilledReply(executed: Option<real>)
    | PartialReply(executed: Option<real>)
    | CancelledReply
    | RejectedReply
    | OtherReply

  // ---- Tracking one order --------------------------------------------------------------------

  /** The clock readings and replies of the polling loop: reading k follows k sleeps. */
  datatype Polling = Polling(start: real, timeout: real, clock: seq<real>, replies: seq<Reply>)

  /** Every sleep lasts at least `interval`, and the readings outlast the timeout: `rounds`
      intervals cover it. */
  ghost predicate Steady(p: Polling, interval: real, rounds: nat) {
    && 0.0 < interval
    && p.timeout <= Times(rounds, interval)
    && rounds < |p.clock| == |p.replies|
    && forall k :: 0 <= k < |p.clock| ==> Times(k, interval) <= p.clock[k] - p.start
  }

  predicate Open(p: Polling, k: nat) {
    k < |p.clock| == |p.replies| && p.clock[k] - p.start < p.timeout
  }

  predicate Decisive(r: Reply) {
    r.FilledReply? || r.CancelledReply? || r.RejectedReply?
  }

  function Updated(e: Execution, r: Reply): Execution {
    match r
    case FilledReply(executed) => e.(status := Filled, filledQuantity := executed)
    case PartialReply(executed) => e.(status := PartiallyFilled, filledQuantity := executed)
    case CancelledReply => e.(status := Cancelled)
    case RejectedReply => e.(status := Rejected)
    case _ => e
  }

  /** The state after `k` polls, if none of them was decisive. */
  function Polled(e: Execution, p: Polling, k: nat): Execution
    requires k <= |p.replies|
  {
    if k == 0 then e else Updated(Polled(e, p, k - 1), p.replies[k - 1])
  }

  /** The loop ends after `k` polls: at the first decisive reply, or at the deadline. */
  ghost predicate EndsAfter(p: Polling, k: nat) {
    && k <= |p.replies|
    && (forall i :: 0 <= i < k ==> Open(p, i))
    && (forall i :: 0 <= i < k - 1 ==> !Decisive(p.replies[i]))
    && (!Open(p, k) || (k != 0 && Decisive(p.replies[k - 1])))
  }

  function TimedOut(e: Execution): Execution {
    if e.status == Submitted then e.(status := Failed) else e
  }

  predicate Settled(s: Status) {
    s == Filled || s == PartiallyFilled || s == Cancelled || s == Rejected || s == Failed
  }

  lemma {:induction false} PolledStatus(e: Execution, p: Polling, k: nat)
    requires e.status == Submitted && e.filledQuantity == None && k <= |p.replies|
    requires forall i :: 0 <= i < k - 1 ==> !Decisive(p.replies[i])
    ensures var e' := Polled(e, p, k);
            && e'.quantity == e.quantity
            && (e'.status == Submitted <==>
                  forall i :: 0 <= i < k ==> p.replies[i].NoUpdate? || p.replies[i].OtherReply?)
            && (e'.status == Filled <==> k != 0 && p.replies[k - 1].FilledReply?)
            && (e'.status == Filled ==> e'.filledQuantity == p.replies[k - 1].executed)
            && (e'.status == Cancelled <==> k != 0 && p.replies[k - 1].CancelledReply?)
            && (e'.status == Rejected <==> k != 0 && p.replies[k - 1].RejectedReply?)
            && (k != 0 && p.replies[k - 1].PartialReply? ==> e'.filledQuantity == p.replies[k - 1].executed)
            && (Settled(e'.status) || e'.status == Submitted) && e'.status != Failed
  {
    if k != 0 {
      PolledStatus(e, p, k - 1);
    }
  }

  /** Tracking always ends, within as many polls as intervals cover the timeout, and there
      is only one place it can end. */
  lemma TrackingEnds(p: Polling, interval: real, rounds: nat, k: nat, k': nat)
    requires Steady(p, interval, rounds) && EndsAfter(p, k)
    ensures k <= rounds
    ensures EndsAfter(p, k') ==> k' == k
  {
    assert !Open(p, rounds) by {
      assert Times(rounds, interval) <= p.clock[rounds] - p.start;
    }
  }

  class TradeExecution {
    const quantity: real
    var status: Status
    var filledQuantity: Option<real>

    function View(): Execution
      reads this
    {
      Execution(quantity, status, filledQuantity)
    }

    constructor (quantity: real)
      ensures View() == Execution(quantity, Pending, None)
    {
      this.quantity, status, filledQuantity := quantity, Pending, None;
    }

    /** Polls the exchange until a decisive reply or the deadline. */
    method TrackOrderStatus(p: Polling, ghost interval: real, ghost rounds: nat) returns (polls: nat)
      requires status == Submitted && filledQuantity == None && Steady(p, interval, rounds)
      modifies this
      ensures EndsAfter(p, polls) && polls <= rounds
      ensures View() == TimedOut(Polled(old(View()), p, polls))
      ensures Settled(status)
    {
      polls := 0;
      assert Times(0, interval) <= p.clock[0] - p.start;
      while p.clock[polls] - p.start < p.timeout
        invariant polls <= rounds
        invariant forall i :: 0 <= i < polls ==> Open(p, i) && !Decisive(p.replies[i])
        invariant View() == Polled(old(View()), p, polls)
        decreases rounds - polls
      {
        assert Open(p, polls);
        assert polls != rounds by {
          assert Times(polls, interval) <= p.clock[polls] - p.start;
        }
        var reply := p.replies[polls];
        polls := polls + 1;
        match reply {
          case NoUpdate =>
          case FilledReply(executed) =>
            status, filledQuantity := Filled, executed;
            break;
          case PartialReply(executed) =>
            status, filledQuantity := PartiallyFilled, executed;
          case CancelledReply =>
            status := Cancelled;
            break;
          case RejectedReply =>
            status := Rejected;
            break;
          case OtherReply =>
        }
      }
      PolledStatus(old(View()), p, polls);
      if status == Submitted {
        status := Failed;
      }
    }
  }

  /** The outcome of tracking in terms of the replies alone: filled, cancelled or rejected
      exactly when the last reply polled said so, with the amount it gave; failed exactly when
      no reply said anything, never left submitted; and if no fill reply exceeds the order, no
      counted fill does. */
  lemma TrackingOutcome(p: Polling, quantity: real, k: nat)
    requires EndsAfter(p, k)
    ensures var e := TimedOut(Polled(Execution(quantity, Submitted, None), p, k));
            && Settled(e.status)
            && (e.status == Filled <==> k != 0 && p.replies[k - 1].FilledReply?)
            && (e.status == Cancelled <==> k != 0 && p.replies[k - 1].CancelledReply?)
            && (e.status == Rejected <==> k != 0 && p.replies[k - 1].RejectedReply?)
            && (k != 0 && (p.replies[k - 1].FilledReply? || p.replies[k - 1].PartialReply?) ==>
                  e.filledQuantity == p.replies[k - 1].executed)
            && (e.status == Failed <==>
                  forall i :: 0 <= i < k ==> p.replies[i].NoUpdate? || p.replies[i].OtherReply?)
            && ((forall r :: r in p.replies && r.FilledReply? ==> Amount(r.executed) <= quantity) ==>
                  e.status == Filled ==> Amount(e.filledQuantity) <= quantity)
  {
    PolledStatus(Execution(quantity, Submitted, None), p, k);
    if k != 0 { assert p.replies[k - 1] in p.replies; }
  }

  // ---- The service -----------------------------------------------------------------------------

  datatype Config = Config(maxOrder: real, maxDaily: real)

  datatype Ledger = Ledger(
    dailyVolume: real,
    resetDay: int,
    submitted: nat,
    filled: nat,
    rejected: nat,
    failed: nat,
    recent: seq<Execution>)

  /** One hedge-trade message and what the outside world answers while it is processed:
      whether the order was placed, how polling ended, whether the message carries the
      fields the confirmation quotes, whether the confirmation could be published, and what
      the exchange executed in the end, whatever it answered: a placement whose call fails
      may have gone through, and an order may fill after tracking has stopped. */
  datatype Job = Job(
    quantity: real,
    day: int,
    placed: bool,
    tracked: Execution,
    complete: bool,
    published: bool,
    executed: real)

  function RolledOver(s: Ledger, day: int): Ledger {
    if day > s.resetDay then s.(dailyVolume := 0.0, resetDay := day) else s
  }

  function Amount(q: Option<real>): real {
    if q.Some? then q.value else 0.0
  }

  function Views(executions: seq<TradeExecution>): (views: seq<Execution>)
    reads executions
    ensures |views| == |executions|
  {
    seq(|executions|, i requires 0 <= i < |executions| reads executions => executions[i].View())
  }

  /** Only completely filled orders count towards the daily volume. */
  function Counted(s: Ledger, e: Execution, shown: Execution): Ledger {
    var s' := s.(submitted := s.submitted + 1, recent := LastUpTo(s.recent + [shown], 10));
    match e.status
    case Filled => s'.(filled := s.filled + 1, dailyVolume := s.dailyVolume + Amount(e.filledQuantity))
    case Rejected => s'.(rejected := s.rejected + 1)
    case Failed => s'.(failed := s.failed + 1)
    case _ => s'
  }

  /** What confirming a tracked execution does to the books. If the confirmation cannot be
      published, the failure handler marks the execution; it never gets to its own counter,
      because the error confirmation it builds first lacks a required field. */
  function Confirmed(s: Ledger, e: Execution, published: bool): Ledger {
    Counted(s, e, if published then e else e.(status := Failed))
  }

  lemma CountedShown(s: Ledger, e: Execution, shown: Execution)
    ensures var kept := Counted(s, e, e).recent;
            |kept| != 0 && Counted(s, e, shown) == Counted(s, e, e).(recent := kept[..|kept| - 1] + [shown])
  {
  }

  lemma OnlyLast<T>(xs: seq<T>, x: T)
    requires x !in xs
    ensures var kept := LastUpTo(xs + [x], 10);
            |kept| != 0 && kept[|kept| - 1] == x && x !in kept[..|kept| - 1]
  {
  }

  predicate WithinLimits(cfg: Config, s: Ledger, j: Job) {
    j.quantity <= cfg.maxOrder && RolledOver(s, j.day).dailyVolume + j.quantity <= cfg.maxDaily
  }

  /** A job that ends in the failure handler before it is counted. */
  predicate Aborted(cfg: Config, s: Ledger, j: Job) {
    !WithinLimits(cfg, s, j) || !j.placed || !j.complete
  }

  function Process(cfg: Config, s: Ledger, j: Job): Ledger {
    if j.quantity > cfg.maxOrder then s
    else
      var s' := RolledOver(s, j.day);
      if s'.dailyVolume + j.quantity > cfg.maxDaily || !j.placed || !j.complete then s'
      else Confirmed(s', j.tracked, j.published)
  }

  function Run(cfg: Config, start: Ledger, jobs: seq<Job>): Ledger {
    if |jobs| == 0 then start else Process(cfg, Run(cfg, start, jobs[..|jobs| - 1]), jobs[|jobs| - 1])
  }

  /** A complete fill never exceeds what was ordered. */
  ghost predicate FillsWithinOrder(j: Job) {
    j.tracked.status == Filled ==> Amount(j.tracked.filledQuantity) <= j.quantity
  }

  /** The daily volume never exceeds its limit, over any run with any day rollovers. */
  lemma {:induction false} DailyVolumeWithinLimit(cfg: Config, start: Ledger, jobs: seq<Job>)
    requires 0.0 <= cfg.maxDaily && start.dailyVolume <= cfg.maxDaily
    requires forall i :: 0 <= i < |jobs| ==> FillsWithinOrder(jobs[i])
    ensures Run(cfg, start, jobs).dailyVolume <= cfg.maxDaily
  {
    if |jobs| != 0 {
      DailyVolumeWithinLimit(cfg, start, jobs[..|jobs| - 1]);
      assert FillsWithinOrder(jobs[|jobs| - 1]);
    }
  }

  // ---- The daily limit, day by day -----------------------------------------------------------

  function LastDay(today: int, jobs: seq<Job>): int {
    if |jobs| == 0 then today else jobs[|jobs| - 1].day
  }

  ghost predicate DaysAdvance(today: int, jobs: seq<Job>) {
    |jobs| == 0 ||
    (var before := jobs[..|jobs| - 1];
     DaysAdvance(today, before) && LastDay(today, before) <= jobs[|jobs| - 1].day)
  }

  /** What was filled on a day: the amounts of its jobs that raised the filled counter. */
  function FilledOn(cfg: Config, start: Ledger, jobs: seq<Job>, day: int): real {
    if |jobs| == 0 then 0.0 else
      var before, j := jobs[..|jobs| - 1], jobs[|jobs| - 1];
      FilledOn(cfg, start, before, day)
      + (if j.day == day && Run(cfg, start, before).filled < Run(cfg, start, jobs).filled
         then Amount(j.tracked.filledQuantity) else 0.0)
  }

  lemma {:induction false} VolumeIsFilledToday(cfg: Config, start: Ledger, jobs: seq<Job>, day: int)
    requires DaysAdvance(start.resetDay, jobs)
    ensures var s := Run(cfg, start, jobs);
            && start.resetDay <= s.resetDay <= LastDay(start.resetDay, jobs)
            && s.dailyVolume == (if s.resetDay == start.resetDay then start.dailyVolume else 0.0)
                                + FilledOn(cfg, start, jobs, s.resetDay)
            && (s.resetDay < day ==> FilledOn(cfg, start, jobs, day) == 0.0)
  {
    if |jobs| != 0 {
      VolumeIsFilledToday(cfg, start, jobs[..|jobs| - 1], day);
      VolumeIsFilledToday(cfg, start, jobs[..|jobs| - 1], jobs[|jobs| - 1].day);
    }
  }

  /** The daily limit, by the days of the jobs alone: while the clock does not run backwards,
      what is filled on any one day stays within the limit, on the first day together with
      the volume the run started with. */
  lemma {:induction false} EachDayStaysWithinLimit(cfg: Config, volume: real, today: int, jobs: seq<Job>, day: int)
    requires 0.0 <= cfg.maxDaily && volume <= cfg.maxDaily && today <= day
    requires DaysAdvance(today, jobs) && forall i :: 0 <= i < |jobs| ==> FillsWithinOrder(jobs[i])
    ensures (if day == today then volume else 0.0)
            + FilledOn(cfg, Ledger(volume, today, 0, 0, 0, 0, []), jobs, day) <= cfg.maxDaily
  {
    if |jobs| != 0 {
      var start, before, j := Ledger(volume, today, 0, 0, 0, 0, []), jobs[..|jobs| - 1], jobs[|jobs| - 1];
      EachDayStaysWithinLimit(cfg, volume, today, before, day);
      VolumeIsFilledToday(cfg, start, before, j.day);
      assert FillsWithinOrder(j);
    }
  }

  /** A second order of the same day finds the volume of the first. */
  lemma SameDayKeepsVolume(cfg: Config, s: Ledger, j: Job, j': Job)
    requires j'.day == j.day && j.quantity <= cfg.maxOrder
    requires j'.quantity <= cfg.maxOrder && !j'.placed
    ensures Process(cfg, Process(cfg, s, j), j') == Process(cfg, s, j)
  {
  }

  /** How many jobs of a run were aborted, how many timed out, and how many were tracked to
      an end no counter names: a partial fill or a cancellation. */
  function AbortedCount(cfg: Config, start: Ledger, jobs: seq<Job>): nat {
    if |jobs| == 0 then 0 else
      var before, j := jobs[..|jobs| - 1], jobs[|jobs| - 1];
      AbortedCount(cfg, start, before) + (if Aborted(cfg, Run(cfg, start, before), j) then 1 else 0)
  }

  function EndedCount(cfg: Config, start: Ledger, jobs: seq<Job>, ends: set<Status>): nat {
    if |jobs| == 0 then 0 else
      var before, j := jobs[..|jobs| - 1], jobs[|jobs| - 1];
      EndedCount(cfg, start, before, ends) +
      (if !Aborted(cfg, Run(cfg, start, before), j) && j.tracked.status in ends then 1 else 0)
  }

  const UNNAMED := {Pending, Submitted, PartiallyFilled, Cancelled}

  lemma JobIsAccounted(cfg: Config, s: Ledger, j: Job)
    ensures var s' := Process(cfg, s, j);
            var counted := if Aborted(cfg, s, j) then 0 else 1;
            && s'.submitted == s.submitted + counted
            && s'.filled == s.filled + (if j.tracked.status == Filled then counted else 0)
            && s'.rejected == s.rejected + (if j.tracked.status == Rejected then counted else 0)
            && s'.failed == s.failed + (if j.tracked.status == Failed then counted else 0)
            && (|s.recent| <= 10 ==> |s'.recent| == if |s.recent| + counted <= 10 then |s.recent| + counted else 10)
    ensures !Aborted(cfg, s, j) ==>
              var recent := Process(cfg, s, j).recent;
              && |recent| != 0 && recent[|recent| - 1].quantity == j.tracked.quantity
              && recent[|recent| - 1].filledQuantity == j.tracked.filledQuantity
              && recent[|recent| - 1].status == if j.published then j.tracked.status else Failed
    ensures !Aborted(cfg, s, j) && j.day <= s.resetDay ==>
              Process(cfg, s, j).dailyVolume - s.dailyVolume ==
              if j.tracked.status == Filled && j.tracked.filledQuantity.Some? then j.tracked.filledQuantity.value
              else 0.0
  {
  }

  /** Over any run whatever, every job is submitted or aborted, and every submitted one is
      filled, rejected, failed or ended without a counter. */
  lemma {:induction false} EveryJobIsAccounted(cfg: Config, today: int, jobs: seq<Job>)
    ensures var start := Ledger(0.0, today, 0, 0, 0, 0, []);
            var s := Run(cfg, start, jobs);
            && s.submitted + AbortedCount(cfg, start, jobs) == |jobs|
            && s.filled + s.rejected + s.failed + EndedCount(cfg, start, jobs, UNNAMED) == s.submitted
            && |s.recent| == (if s.submitted < 10 then s.submitted else 10)
  {
    hide Process, Aborted;
    if |jobs| != 0 {
      var before, j := jobs[..|jobs| - 1], jobs[|jobs| - 1];
      EveryJobIsAccounted(cfg, today, before);
      JobIsAccounted(cfg, Run(cfg, Ledger(0.0, today, 0, 0, 0, 0, []), before), j);
    }
  }

  /** The failed counter counts timeouts and nothing else: the handler of every other
      failure stops before it reaches the counter. */
  lemma {:induction false} OnlyTimeoutsCountAsFailed(cfg: Config, start: Ledger, jobs: seq<Job>)
    ensures Run(cfg, start, jobs).failed == start.failed + EndedCount(cfg, start, jobs, {Failed})
    ensures AbortedCount(cfg, start, jobs) == |jobs| ==>
              var s := Run(cfg, start, jobs);
              s == start.(dailyVolume := s.dailyVolume, resetDay := s.resetDay)
  {
    if |jobs| != 0 {
      OnlyTimeoutsCountAsFailed(cfg, start, jobs[..|jobs| - 1]);
      AbortedAtMostAll(cfg, start, jobs[..|jobs| - 1]);
    }
  }

  lemma AbortedAtMostAll(cfg: Config, start: Ledger, jobs: seq<Job>)
    ensures AbortedCount(cfg, start, jobs) <= |jobs|
  {
  }

  /** While no confirmation can be published, every remembered execution ends failed, whatever
      the counters say it did. */
  lemma {:induction false} UnpublishedEndsFailed(cfg: Config, start: Ledger, jobs: seq<Job>)
    requires forall i :: 0 <= i < |jobs| ==> !jobs[i].published
    requires start.recent == []
    ensures var s := Run(cfg, start, jobs);
            && (forall e :: e in s.recent ==> e.status == Failed)
            && s.filled == start.filled + EndedCount(cfg, start, jobs, {Filled})
  {
    if |jobs| != 0 {
      UnpublishedEndsFailed(cfg, start, jobs[..|jobs| - 1]);
      var j := jobs[|jobs| - 1];
      assert !j.published;
    }
  }

  function Oversized(n: nat): seq<Job> {
    seq(n, i => Job(2.0, 0, false, Execution(2.0, Failed, None), true, true, 0.0))
  }

  /** So any number of refused orders leaves every counter at zero. */
  lemma {:induction false} RefusalsAreNotCounted(n: nat)
    ensures var cfg, start := Config(1.0, 1.0), Ledger(0.0, 0, 0, 0, 0, 0, []);
            Run(cfg, start, Oversized(n)) == start && AbortedCount(cfg, start, Oversized(n)) == n
  {
    if n != 0 {
      RefusalsAreNotCounted(n - 1);
      assert Oversized(n)[..n - 1] == Oversized(n - 1);
    }
  }

  // ---- What the volume leaves out -----------------------------------------------------------------

  /** Submitted, as far as the service can tell. */
  predicate Accepted(cfg: Config, s: Ledger, j: Job) {
    WithinLimits(cfg, s, j) && j.placed
  }

  /** The size test comes before the rollover, so an oversized order does not start a day. */
  predicate RollsOver(cfg: Config, s: Ledger, j: Job) {
    j.quantity <= cfg.maxOrder && j.day > s.resetDay
  }

  /** Tracked to a complete fill, with a message the confirmation can quote. */
  predicate Counts(j: Job) {
    j.placed && j.tracked.status == Filled && j.complete
  }

  /** What a job that passes the limits adds to the volume. */
  function Recorded(j: Job): real {
    if Counts(j) then Amount(j.tracked.filledQuantity) else 0.0
  }

  /** What the exchange executed since the last rollover, counted or not. */
  function Traded(cfg: Config, start: Ledger, jobs: seq<Job>): real {
    if |jobs| == 0 then start.dailyVolume else
      var before, j := jobs[..|jobs| - 1], jobs[|jobs| - 1];
      var s := Run(cfg, start, before);
      var carried := if RollsOver(cfg, s, j) then 0.0 else Traded(cfg, start, before);
      carried + (if WithinLimits(cfg, s, j) then j.executed else 0.0)
  }

  /** The part of it the volume never sees: partial fills, fills of orders then cancelled,
      rejected or timed out, of placements that seemed to fail, and of messages missing a
      quoted field. */
  function Uncounted(cfg: Config, start: Ledger, jobs: seq<Job>): real {
    if |jobs| == 0 then 0.0 else
      var before, j := jobs[..|jobs| - 1], jobs[|jobs| - 1];
      var s := Run(cfg, start, before);
      var carried := if RollsOver(cfg, s, j) then 0.0 else Uncounted(cfg, start, before);
      carried + (if WithinLimits(cfg, s, j) then j.executed - Recorded(j) else 0.0)
  }

  /** The daily volume falls short of what was really traded by exactly the uncounted fills. */
  lemma {:induction false} VolumeMissesUncounted(cfg: Config, start: Ledger, jobs: seq<Job>)
    ensures Traded(cfg, start, jobs) == Run(cfg, start, jobs).dailyVolume + Uncounted(cfg, start, jobs)
  {
    if |jobs| != 0 {
      VolumeMissesUncounted(cfg, start, jobs[..|jobs| - 1]);
    }
  }

  /** The first job of the current day. */
  function DayStart(cfg: Config, start: Ledger, jobs: seq<Job>): (k: nat)
    ensures k <= |jobs|
  {
    if |jobs| == 0 then 0 else
      var before, j := jobs[..|jobs| - 1], jobs[|jobs| - 1];
      if RollsOver(cfg, Run(cfg, start, before), j) then |before| else DayStart(cfg, start, before)
  }

  /** The fill reported was all of it, or nothing was executed. */
  predicate InFull(j: Job) {
    if Counts(j) then Amount(j.tracked.filledQuantity) == j.executed else j.executed == 0.0
  }

  /** Today, every order within the limits came back filled in full with a complete message,
      or executed nothing. */
  ghost predicate EveryFillCounts(cfg: Config, start: Ledger, jobs: seq<Job>) {
    forall i :: DayStart(cfg, start, jobs) <= i < |jobs| ==>
                  WithinLimits(cfg, Run(cfg, start, jobs[..i]), jobs[i]) ==> InFull(jobs[i])
  }

  lemma EveryFillCountsSnoc(cfg: Config, start: Ledger, jobs: seq<Job>)
    requires |jobs| != 0
    ensures var before, j := jobs[..|jobs| - 1], jobs[|jobs| - 1];
            var s := Run(cfg, start, before);
            EveryFillCounts(cfg, start, jobs) <==>
              && (RollsOver(cfg, s, j) || EveryFillCounts(cfg, start, before))
              && (WithinLimits(cfg, s, j) ==> InFull(j))
  {
    hide WithinLimits, RollsOver, InFull;
    var before := jobs[..|jobs| - 1];
    assert forall i :: 0 <= i < |before| ==> before[..i] == jobs[..i] && before[i] == jobs[i];
  }

  /** The exchange executes no negative amount and reports no more than it executed. */
  ghost predicate HonestFills(jobs: seq<Job>) {
    forall i :: 0 <= i < |jobs| ==> 0.0 <= jobs[i].executed && Recorded(jobs[i]) <= jobs[i].executed
  }

  lemma {:induction false} UncountedIsZeroIff(cfg: Config, start: Ledger, jobs: seq<Job>)
    requires HonestFills(jobs)
    ensures 0.0 <= Uncounted(cfg, start, jobs)
    ensures Uncounted(cfg, start, jobs) == 0.0 <==> EveryFillCounts(cfg, start, jobs)
  {
    hide WithinLimits, RollsOver, Counts, Amount, EveryFillCounts;
    if |jobs| == 0 {
      assert EveryFillCounts(cfg, start, jobs) by { NoFills(cfg, start); }
    } else {
      var before, j := jobs[..|jobs| - 1], jobs[|jobs| - 1];
      UncountedIsZeroIff(cfg, start, before);
      EveryFillCountsSnoc(cfg, start, jobs);
      assert 0.0 <= j.executed && Recorded(j) <= j.executed;
    }
  }

  lemma NoFills(cfg: Config, start: Ledger)
    ensures EveryFillCounts(cfg, start, [])
  {
  }

  /** The daily volume is what was traded today exactly when every order of the day within
      the limits was filled in full and confirmed, or executed nothing. */
  lemma VolumeIsTradedIff(cfg: Config, start: Ledger, jobs: seq<Job>)
    requires HonestFills(jobs)
    ensures Run(cfg, start, jobs).dailyVolume <= Traded(cfg, start, jobs)
    ensures Run(cfg, start, jobs).dailyVolume == Traded(cfg, start, jobs) <==> EveryFillCounts(cfg, start, jobs)
  {
    VolumeMissesUncounted(cfg, start, jobs);
    UncountedIsZeroIff(cfg, start, jobs);
  }

  /** Only then does the limit on the volume bound real trading. */
  lemma TradingWithinLimit(cfg: Config, start: Ledger, jobs: seq<Job>)
    requires 0.0 <= cfg.maxDaily && start.dailyVolume <= cfg.maxDaily
    requires forall i :: 0 <= i < |jobs| ==> FillsWithinOrder(jobs[i])
    requires HonestFills(jobs) && EveryFillCounts(cfg, start, jobs)
    ensures Traded(cfg, start, jobs) <= cfg.maxDaily
  {
    DailyVolumeWithinLimit(cfg, start, jobs);
    VolumeIsTradedIff(cfg, start, jobs);
  }

  function Partials(n: nat): seq<Job> {
    seq(n, i => Job(1.0, 0, true, Execution(1.0, PartiallyFilled, Some(0.9)), true, true, 0.9))
  }

  /** So with partial fills real trading has no daily limit at all. */
  lemma {:induction false} PartialFillsEscapeTheLimit(n: nat)
    ensures var cfg, start := Config(1.0, 1.0), Ledger(0.0, 0, 0, 0, 0, 0, []);
            && Run(cfg, start, Partials(n)).dailyVolume == 0.0
            && Run(cfg, start, Partials(n)).resetDay == 0
            && Traded(cfg, start, Partials(n)) == 0.9 * n as real
  {
    if n != 0 {
      PartialFillsEscapeTheLimit(n - 1);
      assert Partials(n)[..n - 1] == Partials(n - 1);
    }
  }

  class Service {
    const config: Config
    var dailyVolume: real
    var resetDay: int
    var submitted: nat
    var filled: nat
    var rejected: nat
    var failed: nat
    var recent: seq<TradeExecution>
    var pendingExecutions: map<int, TradeExecution>

    function State(): Ledger
      reads this, recent
    {
      Ledger(dailyVolume, resetDay, submitted, filled, rejected, failed, Views(recent))
    }

    constructor (cfg: Config, today: int)
      ensures config == cfg && pendingExecutions == map[]
      ensures State() == Ledger(0.0, today, 0, 0, 0, 0, [])
    {
      config, dailyVolume, resetDay := cfg, 0.0, today;
      submitted, filled, rejected, failed, recent, pendingExecutions := 0, 0, 0, 0, [], map[];
    }

    method CheckSafetyLimits(quantity: real, today: int) returns (ok: bool)
      modifies this`dailyVolume, this`resetDay
      ensures State() == if quantity > config.maxOrder then old(State()) else RolledOver(old(State()), today)
      ensures quantity <= config.maxOrder ==> resetDay == if old(resetDay) < today then today else old(resetDay)
      ensures quantity <= config.maxOrder ==> dailyVolume == if old(resetDay) < today then 0.0 else old(dailyVolume)
      ensures ok <==> quantity <= config.maxOrder && dailyVolume + quantity <= config.maxDaily
    {
      if quantity > config.maxOrder {
        return false;
      }
      if today > resetDay {
        dailyVolume := 0.0;
        resetDay := today;
      }
      return !(dailyVolume + quantity > config.maxDaily);
    }

    /** Keeps the ten latest executions. */
    method Remember(e: TradeExecution)
      modifies this`recent
      ensures recent == LastUpTo(old(recent) + [e], 10)
      ensures Views(recent) == LastUpTo(old(Views(recent)) + [e.View()], 10)
    {
      recent := recent + [e];
      assert Views(recent) == old(Views(recent)) + [e.View()];
      if |recent| > 10 {
        recent := recent[|recent| - 10..];
      }
    }

    method UpdateStatistics(e: TradeExecution)
      modifies this`submitted, this`filled, this`rejected, this`failed, this`dailyVolume, this`recent
      ensures State() == Counted(old(State()), e.View(), e.View())
      ensures recent == LastUpTo(old(recent) + [e], 10)
    {
      hide LastUpTo, Views;
      submitted := submitted + 1;
      match e.status {
        case Filled =>
          filled := filled + 1;
          dailyVolume := dailyVolume + (if e.filledQuantity.Some? then e.filledQuantity.value else 0.0);
        case Rejected =>
          rejected := rejected + 1;
        case Failed =>
          failed := failed + 1;
        case _ =>
      }
      Remember(e);
    }

    /** The failure handler. It marks the execution and then raises while it builds the error
        confirmation, which lacks the fill latency: nothing is published and the counter
        after it is not reached. */
    method Fail(e: TradeExecution)
      modifies e`status
      ensures e.status == Failed
    {
      e.status := Failed;
    }

    /** Confirms a tracked execution. The execution recorded among the recent ones is the
        object itself, so a confirmation that cannot be published turns it failed there too. */
    method Confirm(e: TradeExecution, published: bool)
      requires e !in recent
      modifies this`submitted, this`filled, this`rejected, this`failed, this`dailyVolume, this`recent, e`status
      ensures State() == Confirmed(old(State()), old(e.View()), published)
    {
      hide Counted, LastUpTo;
      ghost var s, before, after := State(), e.View(), e.View().(status := Failed);
      UpdateStatistics(e);
      if !published {
        OnlyLast(old(recent), e);
        CountedShown(s, before, after);
        var n := |recent| - 1;
        ghost var kept := Views(recent)[..n];
        Fail(e);
        assert Views(recent)[..n] == kept;
        assert Views(recent) == kept + [after];
      }
    }

    /** Tracks a placed order and confirms it; a message missing a quoted field fails
        before anything is counted. */
    method TrackAndConfirm(e: TradeExecution, p: Polling, ghost interval: real, ghost rounds: nat,
                           complete: bool, published: bool)
      returns (polls: nat)
      requires e !in recent && e.View() == Execution(e.quantity, Submitted, None)
      requires Steady(p, interval, rounds)
      modifies this`submitted, this`filled, this`rejected, this`failed, this`dailyVolume, this`recent, e
      ensures EndsAfter(p, polls) && polls <= rounds
      ensures var tracked := TimedOut(Polled(Execution(e.quantity, Submitted, None), p, polls));
              State() == if complete then Confirmed(old(State()), tracked, published)
                         else old(State())
    {
      polls := e.TrackOrderStatus(p, interval, rounds);
      assert State() == old(State());
      if complete {
        Confirm(e, published);
      } else {
        Fail(e);
      }
    }

    /** Checks the limits, then submits, tracks and confirms, or fails. */
    method Execute(e: TradeExecution, today: int, placed: bool, p: Polling,
                   ghost interval: real, ghost rounds: nat,
                   complete: bool, published: bool, ghost executed: real)
      returns (polls: nat)
      requires e !in recent && e.View() == Execution(e.quantity, Pending, None)
      requires Steady(p, interval, rounds)
      modifies this`submitted, this`filled, this`rejected, this`failed, this`dailyVolume, this`resetDay, this`recent, e
      ensures polls <= rounds && polls <= |p.replies|
      ensures var j := Job(e.quantity, today, placed,
                           TimedOut(Polled(Execution(e.quantity, Submitted, None), p, polls)),
                           complete, published, executed);
              && (Accepted(config, old(State()), j) ==> EndsAfter(p, polls))
              && State() == Process(config, old(State()), j)
    {
      hide Confirmed, Polled, TimedOut, Views;
      polls := 0;
      var ok := CheckSafetyLimits(e.quantity, today);
      if ok && placed {
        ghost var checked := State();
        e.status := Submitted;
        assert State() == checked;
        polls := TrackAndConfirm(e, p, interval, rounds, complete, published);
      } else {
        Fail(e);
      }
    }

    /** Processes one message; whatever happens, nothing is left pending. */
    method ProcessHedgeTrade(id: int, quantity: real, today: int, placed: bool, p: Polling,
                             ghost interval: real, ghost rounds: nat,
                             complete: bool, published: bool, ghost executed: real)
      returns (polls: nat)
      requires id !in pendingExecutions && Steady(p, interval, rounds)
      modifies this
      ensures pendingExecutions == old(pendingExecutions)
      ensures polls <= rounds && polls <= |p.replies|
      ensures var j := Job(quantity, today, placed,
                           TimedOut(Polled(Execution(quantity, Submitted, None), p, polls)),
                           complete, published, executed);
              && (Accepted(config, old(State()), j) ==> EndsAfter(p, polls))
              && State() == Process(config, old(State()), j)
    {
      hide Process, Accepted, Polled, TimedOut, Views;
      var e := new TradeExecution(quantity);
      pendingExecutions := pendingExecutions[id := e];
      polls := Execute(e, today, placed, p, interval, rounds, complete, published, executed);
      pendingExecutions := pendingExecutions - {id};
    }
  }
}
