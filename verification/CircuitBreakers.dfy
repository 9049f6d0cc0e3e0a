/** Circuit breakers with a cooldown, driven by two independent loops. */
module CircuitBreakers {
  import opened Basics

  // ---- One breaker -------------------------------------------------------------------------

  datatype Breaker = Breaker(
    threshold: real,
    cooldown: real,
    autoReset: bool,
    isActive: bool,
    triggeredAt: Option<real>,
    triggerCount: nat,
    lastValue: real)

  function NewBreaker(threshold: real, cooldownMinutes: int): Breaker {
    Breaker(threshold, cooldownMinutes as real * 60.0, true, false, None, 0, 0.0)
  }

  function Triggered(b: Breaker, value: real, now: real): Breaker {
    if !b.isActive && value >= b.threshold then
      b.(isActive := true, triggeredAt := Some(now), triggerCount := b.triggerCount + 1, lastValue := value)
    else b
  }

  function Reset(b: Breaker, now: real): Breaker {
    if b.isActive && b.autoReset && b.triggeredAt.Some? && now - b.triggeredAt.value >= b.cooldown
    then b.(isActive := false)
    else b
  }

  /** What either loop does to one breaker. */
  datatype Event = Check(value: real, now: real) | ResetCheck(now: real)

  function Step(b: Breaker, e: Event): Breaker {
    match e
    case Check(value, now) => Triggered(b, value, now)
    case ResetCheck(now) => Reset(b, now)
  }

  function Run(b: Breaker, events: seq<Event>): Breaker {
    if |events| == 0 then b else Step(Run(b, events[..|events| - 1]), events[|events| - 1])
  }

  function ClockAfter(from: real, events: seq<Event>): real {
    if |events| == 0 then from else events[|events| - 1].now
  }

  ghost predicate Timely(from: real, events: seq<Event>) {
    |events| == 0 ||
    (var before := events[..|events| - 1];
     Timely(from, before) && ClockAfter(from, before) <= events[|events| - 1].now)
  }

  /** Each trigger came at least a cooldown after the one before it, and an inactive
      breaker has sat out its cooldown. */
  ghost predicate Paced(b: Breaker, start: real, now: real) {
    if b.triggerCount == 0 then !b.isActive
    else
      && b.triggeredAt.Some?
      && start + Times(b.triggerCount - 1, b.cooldown) <= b.triggeredAt.value <= now
      && (!b.isActive ==> b.autoReset && b.triggeredAt.value + b.cooldown <= now)
  }

  lemma StepKeepsPaced(b: Breaker, e: Event, start: real, now: real)
    requires Paced(b, start, now) && start <= now <= e.now
    ensures Paced(Step(b, e), start, e.now)
  {
    OneMore(b.triggerCount - 1, b.cooldown);
  }

  lemma {:induction false} RunKeepsPaced(b: Breaker, start: real, events: seq<Event>)
    requires b.triggerCount == 0 && !b.isActive && Timely(start, events)
    ensures start <= ClockAfter(start, events)
    ensures Paced(Run(b, events), start, ClockAfter(start, events))
    ensures Run(b, events).cooldown == b.cooldown && Run(b, events).autoReset == b.autoReset
  {
    if |events| != 0 {
      var before, e := events[..|events| - 1], events[|events| - 1];
      RunKeepsPaced(b, start, before);
      StepKeepsPaced(Run(b, before), e, start, ClockAfter(start, before));
    }
  }

  /** Under any interleaving of checks and resets, a run spanning D triggers a breaker at
      most D / cooldown + 1 times, and only once if it never resets by itself. */
  lemma TriggersAreSpaced(b: Breaker, start: real, events: seq<Event>)
    requires b.triggerCount == 0 && !b.isActive && Timely(start, events)
    ensures var n := Run(b, events).triggerCount;
            && (n != 0 ==> Times(n - 1, b.cooldown) <= ClockAfter(start, events) - start)
            && (!b.autoReset ==> n <= 1)
  {
    RunKeepsPaced(b, start, events);
    if !b.autoReset { NoResetOneTrigger(b, events); }
  }

  /** In any run a breaker is active exactly while it should be: after a check that
      breaches the threshold it is active, and after a reset check of a breaker that resets
      itself it is active exactly when it triggered less than a cooldown ago. */
  lemma ActiveExactlyDuringCooldown(b: Breaker, start: real, events: seq<Event>)
    requires b.triggerCount == 0 && !b.isActive && Timely(start, events) && |events| != 0
    ensures var last, b' := events[|events| - 1], Run(b, events);
            && (last.Check? && last.value >= b.threshold ==> b'.isActive)
            && (last.ResetCheck? && b.autoReset ==>
                  (b'.isActive <==> b'.triggerCount != 0 && b'.triggeredAt.Some? &&
                                    last.now < b'.triggeredAt.value + b.cooldown))
  {
    RunKeepsPaced(b, start, events);
    RunKeepsPaced(b, start, events[..|events| - 1]);
    RunKeepsThreshold(b, events[..|events| - 1]);
  }

  lemma {:induction false} RunKeepsThreshold(b: Breaker, events: seq<Event>)
    ensures Run(b, events).threshold == b.threshold
  {
    if |events| != 0 { RunKeepsThreshold(b, events[..|events| - 1]); }
  }

  lemma {:induction false} NoResetOneTrigger(b: Breaker, events: seq<Event>)
    requires b.triggerCount == 0 && !b.isActive && !b.autoReset
    ensures var b' := Run(b, events);
            !b'.autoReset && b'.triggerCount == (if b'.isActive then 1 else 0)
  {
    if |events| != 0 { NoResetOneTrigger(b, events[..|events| - 1]); }
  }

  /** A new breaker is quiet; once a value trips it, it keeps that value and stays active until a
      reset check at least its cooldown in minutes later. */
  lemma BreakerSitsOutItsMinutes(threshold: real, minutes: int, value: real, now: real, later: real)
    requires threshold <= value
    ensures var quiet := NewBreaker(threshold, minutes);
            var tripped := Triggered(quiet, value, now);
            && !quiet.isActive && quiet.triggerCount == 0 && quiet.lastValue == 0.0
            && tripped.isActive && tripped.triggerCount == 1 && tripped.lastValue == value
            && (Reset(tripped, later).isActive <==> later - now < 60.0 * minutes as real)
  {
  }

  // ---- The four breakers of the safety manager ------------------------------------------------

  datatype Name = DailyLoss | FundingCost | Volatility | ConsecutiveLosses

  const NAMES := [DailyLoss, FundingCost, Volatility, ConsecutiveLosses]

  datatype Panel = Panel(breakers: seq<Breaker>, listed: seq<Name>)

  type Metrics = map<Name, real>

  /** Losses are compared by size. */
  function Measured(metrics: Metrics, n: Name): real
    requires n in metrics
  {
    if n == DailyLoss then Abs(metrics[n]) else metrics[n]
  }

  function ActiveNames(breakers: seq<Breaker>, n: nat): seq<Name>
    requires n <= |breakers| && n <= |NAMES|
  {
    if n == 0 then [] else
      ActiveNames(breakers, n - 1) + (if breakers[n - 1].isActive then [NAMES[n - 1]] else [])
  }

  /** A step of either loop. The monitoring loop checks the four breakers, lists the active
      ones and then resets, without yielding; each breaker reads the clock for itself and
      `done` is when the pass ends. The reset loop yields after every breaker it resets, so
      each of its checks is a step of its own. */
  datatype Pass =
    | Monitor(metrics: Metrics, at: seq<real>, resetAt: seq<real>, done: real)
    | ResetOne(which: nat, done: real)

  ghost predicate WellFormed(p: Pass) {
    match p
    case Monitor(_, at, resetAt, _) => |at| == 4 && |resetAt| == 4
    case ResetOne(which, _) => which < 4
  }

  function CheckOne(b: Breaker, i: nat, metrics: Metrics, now: real): Breaker
    requires i < 4
  {
    if NAMES[i] in metrics then Triggered(b, Measured(metrics, NAMES[i]), now) else b
  }

  function Checked(bs: seq<Breaker>, metrics: Metrics, at: seq<real>): (r: seq<Breaker>)
    requires |bs| == |at| == 4
    ensures |r| == 4
  {
    seq(4, i requires 0 <= i < 4 => CheckOne(bs[i], i, metrics, at[i]))
  }

  predicate Fires(b: Breaker, i: nat, metrics: Metrics)
    requires i < 4
  {
    NAMES[i] in metrics && !b.isActive && Measured(metrics, NAMES[i]) >= b.threshold
  }

  /** The names that a check of the first `n` breakers returns. */
  function FiredNames(bs: seq<Breaker>, metrics: Metrics, n: nat): seq<Name>
    requires n <= |bs| && n <= 4
  {
    if n == 0 then [] else
      FiredNames(bs, metrics, n - 1) + (if Fires(bs[n - 1], n - 1, metrics) then [NAMES[n - 1]] else [])
  }

  lemma {:induction false} FiredNamesFire(bs: seq<Breaker>, metrics: Metrics, n: nat, i: nat)
    requires |bs| == 4 && n <= 4 && i < 4
    ensures NAMES[i] in FiredNames(bs, metrics, n) <==> i < n && Fires(bs[i], i, metrics)
  {
    hide Fires;
    if n != 0 { FiredNamesFire(bs, metrics, n - 1, i); }
  }

  /** They are the breakers whose trigger counts rise. */
  lemma FiredNamesCountTriggers(bs: seq<Breaker>, metrics: Metrics, at: seq<real>, i: nat)
    requires |bs| == |at| == 4 && i < 4
    ensures NAMES[i] in FiredNames(bs, metrics, 4) <==>
            Checked(bs, metrics, at)[i].triggerCount > bs[i].triggerCount
  {
    FiredNamesFire(bs, metrics, 4, i);
  }

  /** What fires a breaker, in terms of what was reported: a daily loss or gain of at least the
      threshold in size, any other metric of at least it. A breaker that is active already or
      whose metric is missing does not fire. */
  lemma BreakersFireBySize(p: Panel, pass: Pass)
    requires |p.breakers| == 4 && WellFormed(pass) && pass.Monitor?
    ensures var bs, m, names := p.breakers, pass.metrics, FiredNames(p.breakers, pass.metrics, 4);
            && (0.0 < bs[0].threshold ==>
                  (DailyLoss in names <==>
                     && !bs[0].isActive && DailyLoss in m
                     && (m[DailyLoss] <= -bs[0].threshold || bs[0].threshold <= m[DailyLoss])))
            && (FundingCost in names <==>
                  !bs[1].isActive && FundingCost in m && bs[1].threshold <= m[FundingCost])
            && (Volatility in names <==>
                  !bs[2].isActive && Volatility in m && bs[2].threshold <= m[Volatility])
            && (ConsecutiveLosses in names <==>
                  !bs[3].isActive && ConsecutiveLosses in m && bs[3].threshold <= m[ConsecutiveLosses])
  {
    FiredNamesFire(p.breakers, pass.metrics, 4, 0);
    FiredNamesFire(p.breakers, pass.metrics, 4, 1);
    FiredNamesFire(p.breakers, pass.metrics, 4, 2);
    FiredNamesFire(p.breakers, pass.metrics, 4, 3);
    hide FiredNames;
  }

  /** The breakers that fire are stamped and counted, and no other. */
  lemma PassCountsTheFired(p: Panel, pass: Pass, i: nat)
    requires |p.breakers| == 4 && WellFormed(pass) && pass.Monitor? && i < 4
    ensures var b, b' := p.breakers[i], PassOver(p, pass).breakers[i];
            if NAMES[i] in FiredNames(p.breakers, pass.metrics, 4)
            then b'.triggerCount == b.triggerCount + 1 && b'.triggeredAt == Some(pass.at[i])
            else b'.triggerCount == b.triggerCount && b'.triggeredAt == b.triggeredAt
  {
    FiredNamesFire(p.breakers, pass.metrics, 4, i);
    hide FiredNames;
  }

  function Position(name: Name): (i: nat)
    ensures i < 4 && NAMES[i] == name
  {
    match name
    case DailyLoss => 0
    case FundingCost => 1
    case Volatility => 2
    case ConsecutiveLosses => 3
  }

  lemma PositionOf(i: nat)
    requires i < 4
    ensures Position(NAMES[i]) == i
  {
    assert i == 0 || i == 1 || i == 2 || i == 3;
  }

  ghost predicate InOrder(names: seq<Name>) {
    forall j, k :: 0 <= j < k < |names| ==> Position(names[j]) < Position(names[k])
  }

  /** Each is named once, in the order checked. */
  lemma {:induction false} FiredNamesAreInOrder(bs: seq<Breaker>, metrics: Metrics, n: nat)
    requires |bs| == 4 && n <= 4
    ensures InOrder(FiredNames(bs, metrics, n))
  {
    if n != 0 {
      FiredNamesAreInOrder(bs, metrics, n - 1);
      PositionOf(n - 1);
      forall x | x in FiredNames(bs, metrics, n - 1) ensures Position(x) < n - 1 {
        FiredNamesFire(bs, metrics, n - 1, Position(x));
      }
      var before := FiredNames(bs, metrics, n - 1);
      assert forall j :: 0 <= j < |before| ==> before[j] in before;
    }
  }

  function AllReset(bs: seq<Breaker>, at: seq<real>): (r: seq<Breaker>)
    requires |bs| == |at| == 4
    ensures |r| == 4
  {
    seq(4, i requires 0 <= i < 4 => Reset(bs[i], at[i]))
  }

  function PassOver(p: Panel, pass: Pass): (p': Panel)
    requires |p.breakers| == 4 && WellFormed(pass)
    ensures |p'.breakers| == 4
  {
    match pass
    case Monitor(metrics, at, resetAt, _) =>
      var checked := Checked(p.breakers, metrics, at);
      Panel(AllReset(checked, resetAt), ActiveNames(checked, 4))
    case ResetOne(which, now) =>
      Panel(p.breakers[which := Reset(p.breakers[which], now)], p.listed)
  }

  ghost function PanelRun(p: Panel, passes: seq<Pass>): (p': Panel)
    requires |p.breakers| == 4 && forall i :: 0 <= i < |passes| ==> WellFormed(passes[i])
    ensures |p'.breakers| == 4
  {
    if |passes| == 0 then p else PassOver(PanelRun(p, passes[..|passes| - 1]), passes[|passes| - 1])
  }

  ghost predicate ActiveAreListed(p: Panel)
    requires |p.breakers| == 4
  {
    forall i :: 0 <= i < 4 && p.breakers[i].isActive ==> NAMES[i] in p.listed
  }

  lemma {:induction false} ActiveNamesAreActive(bs: seq<Breaker>, n: nat, i: nat)
    requires n <= |bs| == 4 && i < 4
    ensures NAMES[i] in ActiveNames(bs, n) <==> i < n && bs[i].isActive
  {
    if n != 0 { ActiveNamesAreActive(bs, n - 1, i); }
  }

  /** Under any interleaving of the two loops, every active breaker is listed as active. */
  lemma {:induction false} EveryActiveBreakerIsListed(p: Panel, passes: seq<Pass>)
    requires |p.breakers| == 4 && ActiveAreListed(p)
    requires forall i :: 0 <= i < |passes| ==> WellFormed(passes[i])
    ensures ActiveAreListed(PanelRun(p, passes))
  {
    if |passes| != 0 {
      var before, pass := passes[..|passes| - 1], passes[|passes| - 1];
      EveryActiveBreakerIsListed(p, before);
      if pass.Monitor? {
        var checked := Checked(PanelRun(p, before).breakers, pass.metrics, pass.at);
        forall i: nat | i < 4 ensures NAMES[i] in ActiveNames(checked, 4) <==> checked[i].isActive {
          ActiveNamesAreActive(checked, 4, i);
        }
      }
    }
  }

  /** The breaker as the last listing saw it. */
  ghost function AtListing(p: Panel, passes: seq<Pass>, i: nat): Breaker
    requires |p.breakers| == 4 && i < 4 && forall k :: 0 <= k < |passes| ==> WellFormed(passes[k])
  {
    if |passes| == 0 then p.breakers[i] else
      var before, last := passes[..|passes| - 1], passes[|passes| - 1];
      match last
      case Monitor(metrics, at, _, _) =>
        assert WellFormed(last);
        Checked(PanelRun(p, before).breakers, metrics, at)[i]
      case ResetOne(_, _) => AtListing(p, before, i)
  }

  /** The clock readings at which either loop has offered the breaker a reset since. */
  function ResetsSince(passes: seq<Pass>, i: nat): seq<real>
    requires i < 4 && forall k :: 0 <= k < |passes| ==> WellFormed(passes[k])
  {
    if |passes| == 0 then [] else
      var before, last := passes[..|passes| - 1], passes[|passes| - 1];
      match last
      case Monitor(_, _, resetAt, _) =>
        assert WellFormed(last);
        [resetAt[i]]
      case ResetOne(which, now) => ResetsSince(before, i) + (if which == i then [now] else [])
  }

  predicate CooledAt(b: Breaker, now: real) {
    b.autoReset && b.triggeredAt.Some? && now - b.triggeredAt.value >= b.cooldown
  }

  ghost predicate CooledAtSome(b: Breaker, readings: seq<real>) {
    exists k :: 0 <= k < |readings| && CooledAt(b, readings[k])
  }

  /** A breaker after resets were offered at the given readings. */
  ghost function Offered(b: Breaker, readings: seq<real>): Breaker {
    b.(isActive := b.isActive && !CooledAtSome(b, readings))
  }

  lemma OneMoreOffer(b: Breaker, readings: seq<real>, now: real)
    ensures Offered(b, readings + [now]) == Reset(Offered(b, readings), now)
    ensures Offered(b, []) == b
  {
    var more := readings + [now];
    assert CooledAtSome(b, more) <==> CooledAtSome(b, readings) || CooledAt(b, now) by {
      if k :| 0 <= k < |readings| && CooledAt(b, readings[k]) { assert more[k] == readings[k]; }
      assert more[|readings|] == now;
    }
  }

  /** Between listings a breaker changes only by the resets offered to it. */
  lemma {:induction false} BreakerSinceListing(p: Panel, passes: seq<Pass>, i: nat)
    requires |p.breakers| == 4 && i < 4 && p.listed == ActiveNames(p.breakers, 4)
    requires forall k :: 0 <= k < |passes| ==> WellFormed(passes[k])
    ensures var p', b := PanelRun(p, passes), AtListing(p, passes, i);
            && p'.breakers[i] == Offered(b, ResetsSince(passes, i))
            && (NAMES[i] in p'.listed <==> b.isActive)
  {
    hide Offered, Reset, CheckOne;
    if |passes| == 0 {
      OneMoreOffer(p.breakers[i], [], 0.0);
      ActiveNamesAreActive(p.breakers, 4, i);
    } else {
      var before, last := passes[..|passes| - 1], passes[|passes| - 1];
      BreakerSinceListing(p, before, i);
      var b := AtListing(p, passes, i);
      match last {
        case Monitor(metrics, at, resetAt, _) =>
          ActiveNamesAreActive(Checked(PanelRun(p, before).breakers, metrics, at), 4, i);
          OneMoreOffer(b, [], resetAt[i]);
          assert [] + [resetAt[i]] == [resetAt[i]];
        case ResetOne(which, now) =>
          OneMoreOffer(b, ResetsSince(before, i), now);
          assert which != i ==> ResetsSince(passes, i) == ResetsSince(before, i);
      }
    }
  }

  /** The converse fails for breakers reset since they were listed. Under any interleaving, a
      breaker is listed and inactive exactly when it was active at the last listing and a
      reset was offered since, by either loop, at least a cooldown after it triggered. */
  lemma ListedButInactive(p: Panel, passes: seq<Pass>, i: nat)
    requires |p.breakers| == 4 && i < 4 && p.listed == ActiveNames(p.breakers, 4)
    requires forall k :: 0 <= k < |passes| ==> WellFormed(passes[k])
    ensures var p', b, readings := PanelRun(p, passes), AtListing(p, passes, i), ResetsSince(passes, i);
            NAMES[i] in p'.listed && !p'.breakers[i].isActive <==>
              && b.isActive && b.autoReset && b.triggeredAt.Some?
              && (exists k :: 0 <= k < |readings| && readings[k] - b.triggeredAt.value >= b.cooldown)
  {
    BreakerSinceListing(p, passes, i);
    var b, readings := AtListing(p, passes, i), ResetsSince(passes, i);
    hide PanelRun, AtListing, ResetsSince;
    if b.autoReset && b.triggeredAt.Some? {
      assert CooledAtSome(b, readings) <==>
          (exists k :: 0 <= k < |readings| && readings[k] - b.triggeredAt.value >= b.cooldown) by {
        if k :| 0 <= k < |readings| && readings[k] - b.triggeredAt.value >= b.cooldown {
          assert CooledAt(b, readings[k]);
        }
      }
    }
  }

  /** The monitoring loop's own reset leaves such a breaker behind, and so does the reset
      loop: with the cooldowns the manager sets, a funding breaker that triggers at 0 stays
      listed after either resets it half an hour later. */
  lemma BothLoopsLeaveAStaleListing(dailyLoss: real, fundingCost: real, volatility: real, lossDays: real,
                                    byMonitor: bool)
    ensures var p := Panel([NewBreaker(dailyLoss, 60), NewBreaker(fundingCost, 30),
                            NewBreaker(volatility, 120), NewBreaker(lossDays, 1440)], []);
            var metrics := map[FundingCost := fundingCost];
            var first := Monitor(metrics, Four(0.0), Four(0.0), 0.0);
            var second := if byMonitor then Monitor(metrics, Four(1800.0), Four(1800.0), 1800.0)
                          else ResetOne(1, 1800.0);
            var p' := PanelRun(p, [first] + [second]);
            FundingCost in p'.listed && !p'.breakers[1].isActive
  {
    var p := Panel([NewBreaker(dailyLoss, 60), NewBreaker(fundingCost, 30),
                    NewBreaker(volatility, 120), NewBreaker(lossDays, 1440)], []);
    var metrics := map[FundingCost := fundingCost];
    var first := Monitor(metrics, Four(0.0), Four(0.0), 0.0);
    var second := if byMonitor then Monitor(metrics, Four(1800.0), Four(1800.0), 1800.0) else ResetOne(1, 1800.0);
    var p1 := PassOver(p, first);
    assert [first][..0] == [] && ([first] + [second])[..1] == [first];
    assert PanelRun(p, [first]) == p1;
    assert p1.breakers[1].isActive && p1.breakers[1].triggeredAt == Some(0.0);
    ActiveNamesAreActive(Checked(p.breakers, metrics, Four(0.0)), 4, 1);
    ActiveNamesAreActive(Checked(p1.breakers, metrics, Four(1800.0)), 4, 1);
  }

  /** One clock reading for all four breakers. */
  function Four(now: real): (at: seq<real>)
    ensures |at| == 4
  {
    [now, now, now, now]
  }

  // ---- Each breaker sees its own run ------------------------------------------------------------

  ghost function EventsOf(pass: Pass, i: nat): seq<Event>
    requires i < 4 && WellFormed(pass)
  {
    match pass
    case Monitor(metrics, at, resetAt, _) =>
      (if NAMES[i] in metrics then [Check(Measured(metrics, NAMES[i]), at[i])] else [])
      + [ResetCheck(resetAt[i])]
    case ResetOne(which, now) => if which == i then [ResetCheck(now)] else []
  }

  ghost function EventsFor(passes: seq<Pass>, i: nat): seq<Event>
    requires i < 4 && forall k :: 0 <= k < |passes| ==> WellFormed(passes[k])
  {
    if |passes| == 0 then [] else
      var last := passes[|passes| - 1];
      assert WellFormed(last);
      EventsFor(passes[..|passes| - 1], i) + EventsOf(last, i)
  }

  function PassEnd(start: real, passes: seq<Pass>): real {
    if |passes| == 0 then start else passes[|passes| - 1].done
  }

  /** Passes do not overlap, and within one the checks precede the resets. */
  ghost predicate TimelyPasses(start: real, passes: seq<Pass>)
    requires forall k :: 0 <= k < |passes| ==> WellFormed(passes[k])
  {
    |passes| == 0 ||
    (var before, p := passes[..|passes| - 1], passes[|passes| - 1];
     && TimelyPasses(start, before)
     && PassEnd(start, before) <= p.done
     && WellFormed(p)
     && (p.Monitor? ==> forall i :: 0 <= i < 4 ==>
           PassEnd(start, before) <= p.at[i] <= p.resetAt[i] <= p.done))
  }

  lemma RunSnoc(b: Breaker, events: seq<Event>, e: Event)
    ensures Run(b, events + [e]) == Step(Run(b, events), e)
    ensures forall from :: Timely(from, events + [e]) <==> Timely(from, events) && ClockAfter(from, events) <= e.now
    ensures forall from :: ClockAfter(from, events + [e]) == e.now
  {
    assert (events + [e])[..|events|] == events;
  }

  /** One pass acts on each breaker as that breaker's own events do. */
  lemma PassActsPerBreaker(p: Panel, pass: Pass, i: nat, b: Breaker, events: seq<Event>, from: real, now: real)
    requires |p.breakers| == 4 && i < 4 && WellFormed(pass)
    requires p.breakers[i] == Run(b, events) && Timely(from, events) && ClockAfter(from, events) <= now
    requires now <= pass.done
    requires pass.Monitor? ==> now <= pass.at[i] <= pass.resetAt[i] <= pass.done
    ensures PassOver(p, pass).breakers[i] == Run(b, events + EventsOf(pass, i))
    ensures Timely(from, events + EventsOf(pass, i))
    ensures ClockAfter(from, events + EventsOf(pass, i)) <= pass.done
  {
    hide Run, Timely, Triggered, Reset;
    if pass.ResetOne? && pass.which != i {
      assert events + EventsOf(pass, i) == events;
      return;
    }
    var reset := ResetCheck(if pass.Monitor? then pass.resetAt[i] else pass.done);
    if pass.Monitor? && NAMES[i] in pass.metrics {
      var check := Check(Measured(pass.metrics, NAMES[i]), pass.at[i]);
      RunSnoc(b, events, check);
      RunSnoc(b, events + [check], reset);
      assert events + EventsOf(pass, i) == events + [check] + [reset];
    } else {
      RunSnoc(b, events, reset);
      assert events + EventsOf(pass, i) == events + [reset];
    }
  }

  lemma {:induction false} BreakerSeesItsRun(p: Panel, start: real, passes: seq<Pass>, i: nat)
    requires |p.breakers| == 4 && i < 4
    requires forall k :: 0 <= k < |passes| ==> WellFormed(passes[k])
    requires TimelyPasses(start, passes)
    ensures PanelRun(p, passes).breakers[i] == Run(p.breakers[i], EventsFor(passes, i))
    ensures Timely(start, EventsFor(passes, i))
    ensures ClockAfter(start, EventsFor(passes, i)) <= PassEnd(start, passes)
  {
    hide PassOver, EventsOf;
    if |passes| != 0 {
      var before, pass := passes[..|passes| - 1], passes[|passes| - 1];
      BreakerSeesItsRun(p, start, before, i);
      PassActsPerBreaker(PanelRun(p, before), pass, i, p.breakers[i], EventsFor(before, i),
                         start, PassEnd(start, before));
    }
  }

  /** In the safety manager, any run of the two loops spanning D triggers each of the four
      breakers at most D / cooldown + 1 times. */
  lemma PanelTriggersAreSpaced(p: Panel, start: real, passes: seq<Pass>, i: nat)
    requires |p.breakers| == 4 && i < 4 && p.breakers[i].triggerCount == 0 && !p.breakers[i].isActive
    requires forall k :: 0 <= k < |passes| ==> WellFormed(passes[k])
    requires TimelyPasses(start, passes)
    ensures var n := PanelRun(p, passes).breakers[i].triggerCount;
            n != 0 ==> Times(n - 1, p.breakers[i].cooldown) <= PassEnd(start, passes) - start
  {
    hide PassOver, EventsOf, EventsFor, Run, PanelRun, Timely, ClockAfter, TimelyPasses, PassEnd;
    BreakerSeesItsRun(p, start, passes, i);
    TriggersAreSpaced(p.breakers[i], start, EventsFor(passes, i));
  }

  // ---- The objects ----------------------------------------------------------------------------------

  class CircuitBreaker {
    const threshold: real
    const cooldown: real
    const autoReset: bool
    var isActive: bool
    var triggeredAt: Option<real>
    var triggerCount: nat
    var lastValue: real

    function State(): Breaker
      reads this
    {
      Breaker(threshold, cooldown, autoReset, isActive, triggeredAt, triggerCount, lastValue)
    }

    constructor (threshold: real, cooldownMinutes: int)
      ensures State() == NewBreaker(threshold, cooldownMinutes)
    {
      this.threshold, cooldown, autoReset := threshold, cooldownMinutes as real * 60.0, true;
      isActive, triggeredAt, triggerCount, lastValue := false, None, 0, 0.0;
    }

    method CheckTrigger(value: real, now: real) returns (triggered: bool)
      modifies this
      ensures State() == Triggered(old(State()), value, now)
      ensures triggered <==> State() != old(State())
    {
      if isActive {
        return false;
      }
      if value >= threshold {
        isActive := true;
        triggeredAt := Some(now);
        triggerCount := triggerCount + 1;
        lastValue := value;
        return true;
      }
      return false;
    }

    method CheckReset(now: real) returns (wasReset: bool)
      modifies this
      ensures State() == Reset(old(State()), now)
      ensures wasReset <==> State() != old(State())
    {
      if !isActive || !autoReset {
        return false;
      }
      if triggeredAt.Some? {
        var elapsed := now - triggeredAt.value;
        if elapsed >= cooldown {
          isActive := false;
          return true;
        }
      }
      return false;
    }
  }

  class SafetyManager {
    const breakers: seq<CircuitBreaker>
    var circuitBreakersActive: seq<Name>

    ghost predicate Valid() {
      |breakers| == 4 && forall i, j :: 0 <= i < j < 4 ==> breakers[i] != breakers[j]
    }

    ghost function State(): (p: Panel)
      requires Valid()
      reads this, breakers
      ensures |p.breakers| == 4
    {
      Panel(seq(4, i requires 0 <= i < 4 reads breakers => breakers[i].State()), circuitBreakersActive)
    }

    constructor (dailyLoss: real, fundingCost: real, volatility: real, lossDays: real)
      ensures Valid() && fresh(breakers)
      ensures State() == Panel([NewBreaker(dailyLoss, 60), NewBreaker(fundingCost, 30),
                                NewBreaker(volatility, 120), NewBreaker(lossDays, 1440)], [])
    {
      var b0 := new CircuitBreaker(dailyLoss, 60);
      var b1 := new CircuitBreaker(fundingCost, 30);
      var b2 := new CircuitBreaker(volatility, 120);
      var b3 := new CircuitBreaker(lossDays, 1440);
      breakers := [b0, b1, b2, b3];
      circuitBreakersActive := [];
    }

    /** One check of the reset loop. */
    method CheckResetOf(which: nat, now: real) returns (wasReset: bool)
      requires Valid() && which < 4
      modifies breakers[which]
      ensures State() == PassOver(old(State()), ResetOne(which, now))
    {
      wasReset := breakers[which].CheckReset(now);
      assert forall j :: 0 <= j < 4 && j != which ==> breakers[j].State() == old(breakers[j].State());
    }

    /** Checks every breaker whose metric was reported, and names those that fired, in order. */
    method CheckTriggers(metrics: Metrics, at: seq<real>) returns (triggered: seq<Name>)
      requires Valid() && |at| == 4
      modifies breakers
      ensures State() == Panel(Checked(old(State()).breakers, metrics, at), circuitBreakersActive)
      ensures triggered == FiredNames(old(State()).breakers, metrics, 4)
    {
      ghost var panel := State();
      triggered := [];
      for i := 0 to 4
        invariant forall j :: 0 <= j < i ==>
                    breakers[j].State() == CheckOne(old(breakers[j].State()), j, metrics, at[j])
        invariant forall j :: i <= j < 4 ==> breakers[j].State() == old(breakers[j].State())
        invariant triggered == FiredNames(panel.breakers, metrics, i)
      {
        assert panel.breakers[i] == old(breakers[i].State());
        if NAMES[i] in metrics {
          var fired := breakers[i].CheckTrigger(Measured(metrics, NAMES[i]), at[i]);
          if fired {
            triggered := triggered + [NAMES[i]];
          }
        }
      }
      assert State().breakers == Checked(old(State()).breakers, metrics, at);
    }

    method ListActive()
      requires Valid()
      modifies this`circuitBreakersActive
      ensures State() == Panel(old(State()).breakers, ActiveNames(old(State()).breakers, 4))
    {
      ghost var panel := State();
      var active := [];
      for i := 0 to 4
        invariant active == ActiveNames(panel.breakers, i)
      {
        assert panel.breakers[i] == breakers[i].State();
        if breakers[i].isActive {
          active := active + [NAMES[i]];
        }
      }
      circuitBreakersActive := active;
      assert State().breakers == panel.breakers;
    }

    method ResetAll(at: seq<real>)
      requires Valid() && |at| == 4
      modifies breakers
      ensures State() == Panel(AllReset(old(State()).breakers, at), circuitBreakersActive)
    {
      for i := 0 to 4
        invariant forall j :: 0 <= j < i ==> breakers[j].State() == Reset(old(breakers[j].State()), at[j])
        invariant forall j :: i <= j < 4 ==> breakers[j].State() == old(breakers[j].State())
      {
        var _ := breakers[i].CheckReset(at[i]);
      }
      assert State().breakers == AllReset(old(State()).breakers, at);
    }

    /** One pass of the monitoring loop over the breakers: check, list, then reset. */
    method CheckCircuitBreakers(metrics: Metrics, at: seq<real>, resetAt: seq<real>, ghost done: real)
      returns (triggered: seq<Name>)
      requires Valid() && |at| == |resetAt| == 4
      modifies this`circuitBreakersActive, breakers
      ensures State() == PassOver(old(State()), Monitor(metrics, at, resetAt, done))
      ensures triggered == FiredNames(old(State()).breakers, metrics, 4)
    {
      triggered := CheckTriggers(metrics, at);
      ListActive();
      ResetAll(resetAt);
    }
  }
}
