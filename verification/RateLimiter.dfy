/** The order rate limiter of the exchange client: a counter over a one-second window
    that is reopened when it has passed, and a sleep when it is full. */
module RateLimiter {
  import opened Basics

  const WINDOW := 1.0

  datatype Limiter = Limiter(lastOrderTime: real, orderCount: int)

  /** One call: the clock reading it starts with and the reading it would wake up to if
      it had to sleep. */
  datatype Call = Call(now: real, wake: real)

  /** An admitted order: when, in the window opened when, and at which place in it. */
  datatype Admission = Admission(time: real, window: real, place: int)

  /** The window is reopened once it has passed. */
  function Reopened(s: Limiter, now: real): Limiter {
    if now - s.lastOrderTime > WINDOW then Limiter(now, 0) else s
  }

  predicate MustSleep(s: Limiter, limit: int, now: real) {
    var r := Reopened(s, now);
    r.orderCount >= limit && SleepTime(s, now) > 0.0
  }

  function SleepTime(s: Limiter, now: real): real {
    WINDOW - (now - Reopened(s, now).lastOrderTime)
  }

  function Admit(s: Limiter, limit: int, c: Call): Admission {
    if MustSleep(s, limit, c.now) then
      Admission(c.wake, c.wake, 1)
    else
      var r := Reopened(s, c.now);
      Admission(c.now, r.lastOrderTime, r.orderCount + 1)
  }

  function Next(s: Limiter, limit: int, c: Call): Limiter {
    var a := Admit(s, limit, c);
    Limiter(a.window, a.place)
  }

  const INITIAL := Limiter(0.0, 0)

  datatype Trace = Trace(state: Limiter, log: seq<Admission>)

  function Run(limit: int, calls: seq<Call>): (r: Trace)
    ensures |r.log| == |calls|
  {
    if |calls| == 0 then Trace(INITIAL, []) else
      var t, c := Run(limit, calls[..|calls| - 1]), calls[|calls| - 1];
      Trace(Next(t.state, limit, c), t.log + [Admit(t.state, limit, c)])
  }

  /** When the last order was admitted; the first reading is past the first second of the
      epoch. */
  function LastTime(t: Trace): real {
    if |t.log| == 0 then 1.0 else t.log[|t.log| - 1].time
  }

  /** The clock never runs backwards, though it may repeat a reading, and a sleep never
      returns early. */
  ghost predicate Timely(limit: int, calls: seq<Call>) {
    |calls| == 0 ||
    (var before, c := calls[..|calls| - 1], calls[|calls| - 1];
     var t := Run(limit, before);
     && Timely(limit, before)
     && LastTime(t) <= c.now && 1.0 < c.now
     && (MustSleep(t.state, limit, c.now) ==> c.wake >= c.now + SleepTime(t.state, c.now)))
  }

  /** Even a limit below one lets one order through each window. */
  function Effective(limit: int): int {
    if limit < 1 then 1 else limit
  }

  /** A call that finds the window full and exactly one second old: too old to sleep for,
      and too young to reopen. */
  predicate AtFullEdge(s: Limiter, limit: int, now: real) {
    Effective(limit) <= s.orderCount && now - s.lastOrderTime == WINDOW
  }

  /** No call finds at its edge a window that is past its limit already. */
  ghost predicate EdgesOnce(limit: int, calls: seq<Call>) {
    |calls| == 0 ||
    (var before, c := calls[..|calls| - 1], calls[|calls| - 1];
     var s := Run(limit, before).state;
     EdgesOnce(limit, before) && !(AtFullEdge(s, limit, c.now) && Effective(limit) < s.orderCount))
  }

  // ---- What every run keeps --------------------------------------------------------

  ghost predicate InWindow(limit: int, a: Admission) {
    && 1 <= a.place
    && a.window <= a.time <= a.window + WINDOW
    && (a.place == 1 ==> a.time == a.window)
    && (a.place > Effective(limit) ==> a.time == a.window + WINDOW)
  }

  ghost predicate Follows(a: Admission, b: Admission) {
    && a.time <= b.time
    && ((b.window == a.window && b.place == a.place + 1) ||
        (b.window >= a.window + WINDOW && b.place == 1))
  }

  ghost predicate Ordered(limit: int, t: Trace) {
    && (forall i :: 0 <= i < |t.log| ==> InWindow(limit, t.log[i]))
    && (forall i, j :: 0 <= i && j == i + 1 < |t.log| ==> Follows(t.log[i], t.log[j]))
    && (|t.log| != 0 ==> t.log[0].place == 1)
    && t.state == (if |t.log| == 0 then INITIAL
                   else Limiter(t.log[|t.log| - 1].window, t.log[|t.log| - 1].place))
  }

  lemma {:induction false} RunIsOrdered(limit: int, calls: seq<Call>)
    requires Timely(limit, calls)
    ensures Ordered(limit, Run(limit, calls))
  {
    if |calls| != 0 {
      RunIsOrdered(limit, calls[..|calls| - 1]);
    }
  }

  /** No window takes more than one order past its limit. */
  ghost predicate Bounded(limit: int, t: Trace) {
    forall i :: 0 <= i < |t.log| ==> t.log[i].place <= Effective(limit) + 1
  }

  /** That is so exactly while no call finds, at its edge, a window past its limit already. */
  lemma {:induction false} BoundedIffEdgesOnce(limit: int, calls: seq<Call>)
    requires Timely(limit, calls)
    ensures Bounded(limit, Run(limit, calls)) <==> EdgesOnce(limit, calls)
  {
    if |calls| != 0 {
      var before, c := calls[..|calls| - 1], calls[|calls| - 1];
      BoundedIffEdgesOnce(limit, before);
      RunIsOrdered(limit, before);
      var t, t' := Run(limit, before), Run(limit, calls);
      BoundedSnoc(limit, t, Admit(t.state, limit, c), t');
      PlaceIsPastIff(limit, t.state, c);
      if |before| != 0 { assert InWindow(limit, t.log[|t.log| - 1]); }
      hide Admit, AtFullEdge, Bounded, InWindow, Follows;
    }
  }

  lemma BoundedSnoc(limit: int, t: Trace, a: Admission, t': Trace)
    requires t'.log == t.log + [a]
    ensures Bounded(limit, t') <==> Bounded(limit, t) && a.place <= Effective(limit) + 1
  {
    assert t'.log[|t.log|] == a;
    assert forall i :: 0 <= i < |t.log| ==> t'.log[i] == t.log[i];
  }

  /** An order takes a place past the limit exactly when it finds the window full at its
      edge. */
  lemma PlaceIsPastIff(limit: int, s: Limiter, c: Call)
    requires s == INITIAL || 1 <= s.orderCount
    requires s == INITIAL ==> 1.0 < c.now
    ensures Admit(s, limit, c).place > Effective(limit) <==> AtFullEdge(s, limit, c.now)
    ensures AtFullEdge(s, limit, c.now) ==> Admit(s, limit, c) == Admission(c.now, s.lastOrderTime, s.orderCount + 1)
  {
  }

  /** A later admission is further along in the same window, or in a later window. */
  lemma {:induction false} WindowsAdvance(limit: int, t: Trace, i: nat, j: nat)
    requires Ordered(limit, t) && i <= j < |t.log|
    ensures var a, b := t.log[i], t.log[j];
            || (b.window == a.window && b.place == a.place + (j - i))
            || b.window >= a.window + WINDOW
    ensures t.log[i].time <= t.log[j].time
    decreases j
  {
    if i < j {
      WindowsAdvance(limit, t, i, j - 1);
      assert Follows(t.log[j - 1], t.log[j]);
    }
  }

  lemma StateOf(limit: int, calls: seq<Call>, j: nat)
    requires Timely(limit, calls) && j < |calls|
    ensures var t := Run(limit, calls[..j]);
            && Timely(limit, calls[..j])
            && 1.0 < calls[j].now
            && t.log == Run(limit, calls).log[..j]
            && Run(limit, calls).log[j] == Admit(t.state, limit, calls[j])
  {
    if j == |calls| - 1 {
    } else {
      var before := calls[..|calls| - 1];
      StateOf(limit, before, j);
      assert before[..j] == calls[..j];
    }
  }

  /** Whatever the clock repeats, a window takes an order past place `limit` + 1 exactly when
      an earlier call had already found it full and exactly one second old. */
  lemma WindowOverrunsIff(limit: int, calls: seq<Call>, j: nat)
    requires Timely(limit, calls) && j < |calls|
    ensures var log := Run(limit, calls).log;
            log[j].place > Effective(limit) + 1 <==>
            exists i :: 0 <= i < j && log[i].window == log[j].window &&
                        AtFullEdge(Run(limit, calls[..i]).state, limit, calls[i].now)
  {
    var t := Run(limit, calls);
    RunIsOrdered(limit, calls);
    hide AtFullEdge, Admit, Timely, Follows, InWindow;
    if i :| 0 <= i < j && t.log[i].window == t.log[j].window &&
            AtFullEdge(Run(limit, calls[..i]).state, limit, calls[i].now)
    {
      CallIsPastIff(limit, calls, i);
      WindowsAdvance(limit, t, i, j);
    }
    if t.log[j].place > Effective(limit) + 1 {
      PlaceBefore(limit, t, j);
      CallIsPastIff(limit, calls, j - 1);
    }
  }

  lemma PlaceBefore(limit: int, t: Trace, j: nat)
    requires Ordered(limit, t) && j < |t.log| && 1 < t.log[j].place
    ensures 0 < j && t.log[j - 1].window == t.log[j].window && t.log[j - 1].place == t.log[j].place - 1
  {
    assert j != 0;
    assert Follows(t.log[j - 1], t.log[j]);
  }

  lemma CallIsPastIff(limit: int, calls: seq<Call>, j: nat)
    requires Timely(limit, calls) && j < |calls|
    ensures Run(limit, calls).log[j].place > Effective(limit) <==>
            AtFullEdge(Run(limit, calls[..j]).state, limit, calls[j].now)
  {
    StateOf(limit, calls, j);
    RunIsOrdered(limit, calls[..j]);
    var t := Run(limit, calls[..j]);
    if j != 0 { assert InWindow(limit, t.log[|t.log| - 1]); }
    PlaceIsPastIff(limit, t.state, calls[j]);
  }

  /** The clock strictly increases from one call to the next. */
  ghost predicate StrictClock(limit: int, calls: seq<Call>) {
    |calls| == 0 ||
    (var before := calls[..|calls| - 1];
     StrictClock(limit, before) && LastTime(Run(limit, before)) < calls[|calls| - 1].now)
  }

  lemma {:induction false} StrictClockAdvances(limit: int, calls: seq<Call>, i: nat, j: nat)
    requires Timely(limit, calls) && StrictClock(limit, calls) && i < j < |calls|
    ensures Run(limit, calls).log[i].time < Run(limit, calls).log[j].time
  {
    var before := calls[..|calls| - 1];
    if j < |before| {
      StrictClockAdvances(limit, before, i, j);
    } else {
      RunIsOrdered(limit, before);
      WindowsAdvance(limit, Run(limit, before), i, j - 1);
    }
  }

  lemma {:induction false} StrictClockIsEnough(limit: int, calls: seq<Call>)
    requires Timely(limit, calls) && StrictClock(limit, calls)
    ensures EdgesOnce(limit, calls)
  {
    if |calls| != 0 {
      var before := calls[..|calls| - 1];
      StrictClockIsEnough(limit, before);
      RunIsOrdered(limit, before);
      var t := Run(limit, before);
      if |before| != 0 { assert InWindow(limit, t.log[|t.log| - 1]); }
    }
  }

  /** Seen from an admission, a later one is either further along in the same window, or
      in the next window with only the two windows' places between them, or in a window
      that opened at least two window lengths later. */
  lemma {:induction false} PlacesBetween(limit: int, t: Trace, i: nat, j: nat)
    requires Ordered(limit, t) && Bounded(limit, t) && i <= j < |t.log|
    ensures var a, b := t.log[i], t.log[j];
            || (b.window == a.window && b.place == a.place + (j - i))
            || (b.window >= a.window + WINDOW && j - i <= Effective(limit) + 1 - a.place + b.place)
            || b.window >= a.window + 2.0 * WINDOW
    decreases j
  {
    if i < j {
      PlacesBetween(limit, t, i, j - 1);
      assert Follows(t.log[j - 1], t.log[j]);
      assert InWindow(limit, t.log[j - 1]);
    }
  }

  /** Each window admits at most `limit` orders in its own second, and the place an order
      takes is how many its window has admitted. */
  lemma WindowAdmitsAtMostLimit(limit: int, calls: seq<Call>, i: nat, j: nat)
    requires Timely(limit, calls) && i <= j < |calls|
    requires var log := Run(limit, calls).log;
             log[i].window == log[j].window && log[j].time < log[j].window + WINDOW
    ensures j - i + 1 <= Effective(limit)
  {
    RunIsOrdered(limit, calls);
    WindowsAdvance(limit, Run(limit, calls), i, j);
    assert InWindow(limit, Run(limit, calls).log[i]);
    assert InWindow(limit, Run(limit, calls).log[j]);
  }

  lemma {:induction false} WindowGoesBack(limit: int, t: Trace, j: nat, back: nat)
    requires Ordered(limit, t) && j < |t.log| && back < t.log[j].place
    ensures back <= j && t.log[j - back].window == t.log[j].window
    ensures t.log[j - back].place == t.log[j].place - back
  {
    if back != 0 {
      WindowGoesBack(limit, t, j, back - 1);
      var k := j - (back - 1);
      assert k != 0;
      assert Follows(t.log[k - 1], t.log[k]);
    }
  }

  /** The limiter holds an order back only when it must: a call sleeps only if the window
      is full, and then `limit` orders were admitted in the second before the call. */
  lemma SleepsOnlyWhenFull(limit: int, calls: seq<Call>, now: real)
    requires 1 <= limit && Timely(limit, calls) && MustSleep(Run(limit, calls).state, limit, now)
    ensures var log := Run(limit, calls).log;
            limit <= |log| && log[|log| - limit].time > now - WINDOW
  {
    RunIsOrdered(limit, calls);
    var t := Run(limit, calls);
    WindowGoesBack(limit, t, |t.log| - 1, limit - 1);
    assert InWindow(limit, t.log[|t.log| - limit]);
  }

  /** Two admissions less than a second apart are fewer than twice the limit apart. */
  lemma AdmissionsSpread(limit: int, t: Trace, i: nat, j: nat)
    requires Ordered(limit, t) && Bounded(limit, t) && i <= j < |t.log|
    requires t.log[j].time < t.log[i].time + WINDOW
    ensures j - i + 1 <= 2 * Effective(limit)
  {
    PlacesBetween(limit, t, i, j);
    assert InWindow(limit, t.log[i]);
    assert InWindow(limit, t.log[j]);
  }

  function CountIn(log: seq<Admission>, from: real): nat {
    if |log| == 0 then 0 else
      var a := log[|log| - 1];
      CountIn(log[..|log| - 1], from) + (if from <= a.time < from + WINDOW then 1 else 0)
  }

  lemma CountSnoc(log: seq<Admission>, a: Admission, from: real)
    ensures CountIn(log + [a], from) == CountIn(log, from) + (if from <= a.time < from + WINDOW then 1 else 0)
  {
    assert (log + [a])[..|log|] == log;
  }

  lemma {:induction false} CountSkips(log: seq<Admission>, from: real, skipped: nat)
    requires skipped <= |log|
    requires forall k :: 0 <= k < skipped ==> log[k].time < from
    ensures CountIn(log, from) <= |log| - skipped
  {
    if skipped < |log| {
      CountSkips(log[..|log| - 1], from, skipped);
    } else if |log| != 0 {
      CountSkips(log[..|log| - 1], from, skipped - 1);
    }
  }

  lemma {:induction false} CountIsBounded(limit: int, t: Trace, n: nat, from: real)
    requires Ordered(limit, t) && Bounded(limit, t) && n <= |t.log|
    ensures CountIn(t.log[..n], from) <= 2 * Effective(limit)
  {
    if n != 0 {
      var log, bound := t.log[..n], 2 * Effective(limit);
      assert log[..n - 1] == t.log[..n - 1];
      CountIsBounded(limit, t, n - 1, from);
      if n <= bound {
        CountSkips(log, from, 0);
      } else if from <= t.log[n - 1].time < from + WINDOW {
        forall k | 0 <= k < n - bound
          ensures log[k].time < from
        {
          if t.log[n - 1].time < t.log[k].time + WINDOW {
            AdmissionsSpread(limit, t, k, n - 1);
          }
        }
        CountSkips(log, from, n - bound);
      }
    }
  }

  /** Any half-open second, wherever it starts, of any run holds at most twice the limit, as
      long as no window overruns at its edge; a strictly increasing clock sees to that. */
  lemma AnySecondAdmitsAtMostTwiceTheLimit(limit: int, calls: seq<Call>, from: real)
    requires Timely(limit, calls) && (EdgesOnce(limit, calls) || StrictClock(limit, calls))
    ensures CountIn(Run(limit, calls).log, from) <= 2 * Effective(limit)
  {
    RunIsOrdered(limit, calls);
    if StrictClock(limit, calls) { StrictClockIsEnough(limit, calls); }
    BoundedIffEdgesOnce(limit, calls);
    var t := Run(limit, calls);
    assert t.log[..|t.log|] == t.log;
    CountIsBounded(limit, t, |t.log|, from);
  }

  // ---- The bound is reached, and needs its condition on the clock ---------------------

  lemma RunSnoc(limit: int, calls: seq<Call>, c: Call)
    ensures var t := Run(limit, calls);
            Run(limit, calls + [c]) == Trace(Next(t.state, limit, c), t.log + [Admit(t.state, limit, c)])
    ensures var t := Run(limit, calls);
            Timely(limit, calls + [c]) <==>
            && Timely(limit, calls)
            && LastTime(t) <= c.now && 1.0 < c.now
            && (MustSleep(t.state, limit, c.now) ==> c.wake >= c.now + SleepTime(t.state, c.now))
    ensures StrictClock(limit, calls + [c]) <==>
              StrictClock(limit, calls) && LastTime(Run(limit, calls)) < c.now
  {
    assert (calls + [c])[..|calls|] == calls;
  }

  function Filling(n: nat): seq<Call> {
    if n == 0 then [] else Filling(n - 1) + [Call(10.0, 0.0)]
  }

  function Repeated(limit: nat, n: nat): seq<Call> {
    if n == 0 then Filling(limit) else Repeated(limit, n - 1) + [Call(11.0, 0.0)]
  }

  lemma Admits(limit: nat, n: nat, late: bool)
    requires if late then limit <= n && 1 <= n else n < limit
    ensures var s := if n == 0 then INITIAL else Limiter(10.0, n);
            var now := if late then 11.0 else 10.0;
            && !MustSleep(s, limit, now)
            && Admit(s, limit, Call(now, 0.0)) == Admission(now, 10.0, n + 1)
  {
  }

  lemma Extends(limit: int, calls: seq<Call>, c: Call, a: Admission, from: real)
    requires var t := Run(limit, calls);
             && Timely(limit, calls) && LastTime(t) <= c.now && 1.0 < c.now
             && !MustSleep(t.state, limit, c.now) && Admit(t.state, limit, c) == a
    ensures var t, t' := Run(limit, calls), Run(limit, calls + [c]);
            && Timely(limit, calls + [c]) && LastTime(t') == a.time
            && t'.state == Limiter(a.window, a.place)
            && CountIn(t'.log, from) == CountIn(t.log, from) + (if from <= a.time < from + WINDOW then 1 else 0)
            && (StrictClock(limit, calls) && LastTime(t) < c.now ==> StrictClock(limit, calls + [c]))
  {
    hide Admit, MustSleep, SleepTime;
    RunSnoc(limit, calls, c);
    CountSnoc(Run(limit, calls).log, a, from);
  }

  lemma {:induction false} FillingFills(limit: nat, n: nat)
    requires n <= limit
    ensures var t := Run(limit, Filling(n));
            && Timely(limit, Filling(n)) && LastTime(t) <= 10.0
            && t.state == (if n == 0 then INITIAL else Limiter(10.0, n))
            && CountIn(t.log, 11.0) == 0
  {
    if n == 0 {
      assert LastTime(Run(limit, [])) == 1.0;
    } else {
      hide Admit, MustSleep, LastTime;
      FillingFills(limit, n - 1);
      Admits(limit, n - 1, false);
      Extends(limit, Filling(n - 1), Call(10.0, 0.0), Admission(10.0, 10.0, n), 11.0);
    }
  }

  /** `n` orders so far at the edge of a full window. */
  ghost predicate AtEdge(limit: nat, calls: seq<Call>, n: nat) {
    var t := Run(limit, calls);
    && Timely(limit, calls) && LastTime(t) <= 11.0
    && t.state == Limiter(10.0, limit + n) && CountIn(t.log, 11.0) == n
  }

  lemma OneMoreAtEdge(limit: nat, calls: seq<Call>, n: nat)
    requires 1 <= limit && AtEdge(limit, calls, n)
    ensures AtEdge(limit, calls + [Call(11.0, 0.0)], n + 1)
  {
    hide Admit, MustSleep, LastTime;
    Admits(limit, limit + n, true);
    Extends(limit, calls, Call(11.0, 0.0), Admission(11.0, 10.0, limit + n + 1), 11.0);
  }

  /** With a clock that only never runs backwards there is no bound at all, at any limit:
      once a full window is exactly one second old, every call at that same instant is
      admitted. */
  lemma {:induction false} RepeatedInstantsAreUnbounded(limit: nat, n: nat)
    requires 1 <= limit
    ensures var calls := Repeated(limit, n);
            Timely(limit, calls) && CountIn(Run(limit, calls).log, 11.0) == n
    ensures AtEdge(limit, Repeated(limit, n), n)
  {
    if n == 0 {
      FillingFills(limit, limit);
    } else {
      RepeatedInstantsAreUnbounded(limit, n - 1);
      OneMoreAtEdge(limit, Repeated(limit, n - 1), n - 1);
    }
  }

  // ---- The bound is reached at every limit -------------------------------------------------

  /** `calls` followed by `n` calls `step` apart. */
  function Burst(calls: seq<Call>, at: real, step: real, n: nat): seq<Call> {
    if n == 0 then calls else Burst(calls, at, step, n - 1) + [Call(at + Times(n - 1, step), 0.0)]
  }

  /** A strictly timed run whose window has taken `place` orders, `count` of all its orders at
      10.9 or later. */
  ghost predicate Reached(limit: int, calls: seq<Call>, window: real, place: nat, last: real, count: nat) {
    var t := Run(limit, calls);
    && Timely(limit, calls) && StrictClock(limit, calls)
    && t.state == Limiter(window, place) && LastTime(t) == last && CountIn(t.log, 10.9) == count
  }

  lemma AdmitsInWindow(limit: nat, window: real, place: nat, now: real)
    requires window <= now <= window + WINDOW && place < limit
    ensures !MustSleep(Limiter(window, place), limit, now)
    ensures Admit(Limiter(window, place), limit, Call(now, 0.0)) == Admission(now, window, place + 1)
  {
  }

  lemma Reaches(limit: nat, calls: seq<Call>, window: real, place: nat, last: real, count: nat, now: real)
    requires Reached(limit, calls, window, place, last, count)
    requires 10.9 <= now < 11.9 && 1 < limit && last < now && window <= now <= window + WINDOW && place < limit
    ensures Reached(limit, calls + [Call(now, 0.0)], window, place + 1, now, count + 1)
  {
    hide Admit, MustSleep, LastTime;
    AdmitsInWindow(limit, window, place, now);
    Extends(limit, calls, Call(now, 0.0), Admission(now, window, place + 1), 10.9);
  }

  lemma TimesOrdered(j: nat, k: nat, step: real)
    requires 0.0 < step && j <= k
    ensures 0.0 <= Times(j, step) <= Times(k, step)
    ensures j < k ==> Times(j, step) < Times(k, step)
  {
    MulNonNegative(j as real, step);
    MulNonNegative((k - j) as real, step);
    if j < k { MulPositive((k - j) as real, step); }
    assert (k - j) as real * step == k as real * step - j as real * step;
  }

  lemma {:induction false} BurstReaches(limit: nat, calls: seq<Call>, window: real, place: nat, last: real,
                                        count: nat, at: real, step: real, n: nat)
    requires Reached(limit, calls, window, place, last, count)
    requires 1 < limit && 10.9 <= at && last < at && 0.0 < step && at + Times(n, step) < 11.9
    requires window <= at && at + Times(n, step) <= window + WINDOW && place + n <= limit
    ensures Reached(limit, Burst(calls, at, step, n), window, place + n,
                    if n == 0 then last else at + Times(n - 1, step), count + n)
  {
    hide Reached, Times;
    if n != 0 {
      TimesOrdered(n - 1, n, step);
      if n != 1 { TimesOrdered(n - 2, n - 1, step); }
      TimesOrdered(0, n - 1, step);
      OneMore(0, step);
      BurstReaches(limit, calls, window, place, last, count, at, step, n - 1);
      Reaches(limit, Burst(calls, at, step, n - 1), window, place + n - 1,
              if n == 1 then last else at + Times(n - 2, step), count + n - 1, at + Times(n - 1, step));
    }
  }

  /** A full window, its edge, and a full window after it. */
  function Straddling(limit: nat, step: real): seq<Call>
    requires 1 <= limit
  {
    var first := Burst([Call(10.0, 0.0)], 10.9, step, limit - 1) + [Call(11.0, 0.0)];
    Burst(first + [Call(11.01, 0.0)], 11.02, step, limit - 1)
  }

  lemma Opens(limit: nat)
    requires 1 <= limit
    ensures Reached(limit, [Call(10.0, 0.0)], 10.0, 1, 10.0, 0)
  {
    RunSnoc(limit, [], Call(10.0, 0.0));
    assert [] + [Call(10.0, 0.0)] == [Call(10.0, 0.0)];
    CountSnoc([], Admission(10.0, 10.0, 1), 10.9);
    assert [] + [Admission(10.0, 10.0, 1)] == [Admission(10.0, 10.0, 1)];
  }

  lemma EdgeAndReopening(limit: nat, calls: seq<Call>, last: real)
    requires 1 <= limit && Reached(limit, calls, 10.0, limit, last, limit - 1) && last < 11.0
    ensures Reached(limit, calls + [Call(11.0, 0.0)] + [Call(11.01, 0.0)], 11.01, 1, 11.01, limit + 1)
  {
    hide LastTime;
    Extends(limit, calls, Call(11.0, 0.0), Admission(11.0, 10.0, limit + 1), 10.9);
    Extends(limit, calls + [Call(11.0, 0.0)], Call(11.01, 0.0), Admission(11.01, 11.01, 1), 10.9);
  }

  /** Twice the limit is reached, whatever the limit and with a strictly increasing clock: all
      but the first order of a window late in it, one at its edge, and a full window after. */
  lemma TwiceTheLimitIsReached(limit: nat, step: real)
    requires 1 <= limit && step == 0.01 / limit as real
    ensures var calls := Straddling(limit, step);
            Timely(limit, calls) && StrictClock(limit, calls) && CountIn(Run(limit, calls).log, 10.9) == 2 * limit
  {
    hide Times;
    assert Times(limit, step) == 0.01 && 0.0 < step by { StepsAddUp(limit, step); }
    TimesOrdered(limit - 1, limit, step);
    var start := [Call(10.0, 0.0)];
    Opens(limit);
    var filled := Burst(start, 10.9, step, limit - 1);
    var reopened := filled + [Call(11.0, 0.0)] + [Call(11.01, 0.0)];
    if limit == 1 {
      EdgeAndReopening(limit, start, 10.0);
    } else {
      TimesOrdered(limit - 2, limit - 1, step);
      BurstReaches(limit, start, 10.0, 1, 10.0, 0, 10.9, step, limit - 1);
      EdgeAndReopening(limit, filled, 10.9 + Times(limit - 2, step));
      BurstReaches(limit, reopened, 11.01, 1, 11.01, limit + 1, 11.02, step, limit - 1);
    }
  }

  lemma StepsAddUp(limit: nat, step: real)
    requires 1 <= limit && step == 0.01 / limit as real
    ensures Times(limit, step) == 0.01 && 0.0 < step
  {
    assert step * limit as real == 0.01;
    FactorNonNegative(step, limit as real);
  }

  // ---- The client's counters ---------------------------------------------------------

  class OrderClient {
    const maxOrdersPerSecond: int
    var lastOrderTime: real
    var orderCount: int
    ghost var calls: seq<Call>

    ghost predicate Valid()
      reads this
    {
      Limiter(lastOrderTime, orderCount) == Run(maxOrdersPerSecond, calls).state
    }

    constructor (limit: int)
      ensures Valid() && maxOrdersPerSecond == limit && calls == []
    {
      maxOrdersPerSecond := limit;
      lastOrderTime, orderCount := 0.0, 0;
      calls := [];
    }

    /** `wake` is the reading of the clock after the sleep, when there is one. */
    method CheckRateLimit(currentTime: real, wake: real) returns (admittedAt: real)
      requires Valid()
      modifies this
      ensures Valid() && calls == old(calls) + [Call(currentTime, wake)]
      ensures Run(maxOrdersPerSecond, calls).log ==
              Run(maxOrdersPerSecond, old(calls)).log + [Admission(admittedAt, lastOrderTime, orderCount)]
    {
      RunSnoc(maxOrdersPerSecond, calls, Call(currentTime, wake));
      admittedAt := currentTime;
      if currentTime - lastOrderTime > WINDOW {
        orderCount := 0;
        lastOrderTime := currentTime;
      }
      if orderCount >= maxOrdersPerSecond {
        var sleepTime := WINDOW - (currentTime - lastOrderTime);
        if sleepTime > 0.0 {
          orderCount := 0;
          lastOrderTime := wake;
          admittedAt := wake;
        }
      }
      orderCount := orderCount + 1;
      calls := calls + [Call(currentTime, wake)];
    }
  }
}
