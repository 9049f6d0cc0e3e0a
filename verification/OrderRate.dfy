/** The safety service's order-rate window, maintained incrementally. */
module OrderRate {
  const MINUTE := 60.0

  /** The timestamps strictly after a cutoff, in order. */
  function Recent(log: seq<real>, cutoff: real): seq<real> {
    if |log| == 0 then []
    else Recent(log[..|log| - 1], cutoff) + (if log[|log| - 1] > cutoff then [log[|log| - 1]] else [])
  }

  /** One trade execution: the clock is read for its timestamp and again for the cutoff. */
  datatype Execution = Execution(at: real, now: real)

  datatype Window = Window(recent: seq<real>, rate: nat)

  function Step(w: Window, e: Execution): Window {
    var recent := Recent(w.recent + [e.at], e.now - MINUTE);
    Window(recent, |recent|)
  }

  function Run(executions: seq<Execution>): Window {
    if |executions| == 0 then Window([], 0) else
      Step(Run(executions[..|executions| - 1]), executions[|executions| - 1])
  }

  /** Every execution ever handled. */
  function Log(executions: seq<Execution>): seq<real> {
    if |executions| == 0 then [] else
      Log(executions[..|executions| - 1]) + [executions[|executions| - 1].at]
  }

  /** Neither of the two readings ever runs backwards. */
  ghost predicate Timely(executions: seq<Execution>) {
    |executions| == 0 ||
    (var n := |executions| - 1;
     && Timely(executions[..n])
     && executions[n].at <= executions[n].now
     && (n != 0 ==> executions[n - 1].now <= executions[n].at))
  }

  lemma RecentSnoc(log: seq<real>, x: real, cutoff: real)
    ensures Recent(log + [x], cutoff) == Recent(log, cutoff) + (if x > cutoff then [x] else [])
  {
    assert (log + [x])[..|log|] == log;
  }

  lemma {:induction false} RecentTwice(log: seq<real>, early: real, late: real)
    requires early <= late
    ensures Recent(Recent(log, early), late) == Recent(log, late)
  {
    if |log| != 0 {
      var before, x := log[..|log| - 1], log[|log| - 1];
      RecentTwice(before, early, late);
      RecentSnoc(Recent(before, early), x, late);
      assert Recent(before, early) + [] == Recent(before, early);
    }
  }

  /** Filtering early and again late, with one timestamp added in between, is filtering
      everything late. */
  lemma FilterIncrementally(log: seq<real>, x: real, early: real, late: real)
    requires early <= late
    ensures Recent(Recent(log, early) + [x], late) == Recent(log + [x], late)
  {
    RecentSnoc(log, x, late);
    RecentSnoc(Recent(log, early), x, late);
    RecentTwice(log, early, late);
  }

  /** The incremental window is the whole log filtered by the latest cutoff, and the rate
      is its length. */
  lemma {:induction false} WindowIsFilteredLog(executions: seq<Execution>)
    requires Timely(executions) && |executions| != 0
    ensures var truth := Recent(Log(executions), executions[|executions| - 1].now - MINUTE);
            Run(executions) == Window(truth, |truth|)
  {
    hide Recent;
    var n := |executions| - 1;
    var before, e := executions[..n], executions[n];
    if n == 0 {
      FilterIncrementally([], e.at, e.now - MINUTE, e.now - MINUTE);
      NothingLogged(e.now - MINUTE);
    } else {
      WindowIsFilteredLog(before);
      FilterIncrementally(Log(before), e.at, executions[n - 1].now - MINUTE, e.now - MINUTE);
    }
  }

  lemma NothingLogged(cutoff: real)
    ensures Recent([], cutoff) == []
  {
  }

  /** So after an execution the window holds exactly the timestamps less than sixty seconds old,
      and the rate is their number. */
  lemma WindowInSeconds(executions: seq<Execution>, x: real)
    requires Timely(executions) && |executions| != 0
    ensures var w := Run(executions);
            && w.rate == |w.recent|
            && (x in w.recent <==> x in Log(executions) && executions[|executions| - 1].now - x < 60.0)
  {
    hide Log, Run;
    WindowIsFilteredLog(executions);
    RecentMembers(Log(executions), executions[|executions| - 1].now - MINUTE, x);
  }

  lemma {:induction false} RecentMembers(log: seq<real>, cutoff: real, x: real)
    ensures x in Recent(log, cutoff) <==> x in log && x > cutoff
  {
    if |log| != 0 {
      var n := |log| - 1;
      RecentMembers(log[..n], cutoff, x);
      assert log == log[..n] + [log[n]];
    }
  }

  // ---- Between executions ----------------------------------------------------------------------

  lemma {:induction false} RecentLength(log: seq<real>, cutoff: real)
    ensures |Recent(log, cutoff)| <= |log|
    ensures |Recent(log, cutoff)| == |log| <==> forall i :: 0 <= i < |log| ==> log[i] > cutoff
  {
    if |log| != 0 { RecentLength(log[..|log| - 1], cutoff); }
  }

  /** The reported rate is only recomputed when a trade executes. Read at any later time it
      never understates the true count of the last minute, and equals it exactly when no
      timestamp in the window has expired since. */
  lemma ReportedRateIsCurrentIff(executions: seq<Execution>, now: real)
    requires Timely(executions) && |executions| != 0 && executions[|executions| - 1].now <= now
    ensures var w, truth := Run(executions), |Recent(Log(executions), now - MINUTE)|;
            && truth <= w.rate
            && (w.rate == truth <==> forall i :: 0 <= i < |w.recent| ==> w.recent[i] > now - MINUTE)
  {
    hide Recent, Run, Log;
    WindowIsFilteredLog(executions);
    RecentTwice(Log(executions), executions[|executions| - 1].now - MINUTE, now - MINUTE);
    RecentLength(Run(executions).recent, now - MINUTE);
  }

  /** So a breach outlives its cause: a minute after the last execution the true count is
      nothing, while the reported rate is still at least one. */
  lemma QuietMinuteStillReportsOrders(executions: seq<Execution>, now: real)
    requires Timely(executions) && |executions| != 0
    requires executions[|executions| - 1].now + MINUTE <= now
    requires executions[|executions| - 1].now < executions[|executions| - 1].at + MINUTE
    ensures Recent(Log(executions), now - MINUTE) == []
    ensures Run(executions).rate >= 1
  {
    hide Recent, Log;
    var n := |executions| - 1;
    LogIsPast(executions, executions[n].now);
    NothingRecent(Log(executions), now - MINUTE);
    RecentSnoc(Run(executions[..n]).recent, executions[n].at, executions[n].now - MINUTE);
  }

  lemma {:induction false} LogIsPast(executions: seq<Execution>, now: real)
    requires Timely(executions) && (|executions| != 0 ==> executions[|executions| - 1].now <= now)
    ensures forall x :: x in Log(executions) ==> x <= now
  {
    if |executions| != 0 {
      var n := |executions| - 1;
      LogIsPast(executions[..n], now);
    }
  }

  lemma {:induction false} NothingRecent(log: seq<real>, cutoff: real)
    requires forall x :: x in log ==> x <= cutoff
    ensures Recent(log, cutoff) == []
  {
    if |log| != 0 {
      var before := log[..|log| - 1];
      forall x | x in before ensures x <= cutoff {
        var i :| 0 <= i < |before| && before[i] == x;
        assert log[i] in log;
      }
      NothingRecent(before, cutoff);
      assert log[|log| - 1] in log;
    }
  }

  class Tracker {
    var orderRateWindow: seq<real>
    var orderRate: nat

    function State(): Window
      reads this
    {
      Window(orderRateWindow, orderRate)
    }

    constructor ()
      ensures State() == Run([])
    {
      orderRateWindow, orderRate := [], 0;
    }

    method HandleTradeExecution(at: real, now: real)
      modifies this
      ensures State() == Step(old(State()), Execution(at, now))
    {
      orderRateWindow := orderRateWindow + [at];
      var cutoff := now - MINUTE;
      var kept := [];
      for i := 0 to |orderRateWindow|
        invariant kept == Recent(orderRateWindow[..i], cutoff)
      {
        assert orderRateWindow[..i + 1][..i] == orderRateWindow[..i];
        if orderRateWindow[i] > cutoff {
          kept := kept + [orderRateWindow[i]];
        }
      }
      assert orderRateWindow[..|orderRateWindow|] == orderRateWindow;
      orderRateWindow := kept;
      orderRate := |orderRateWindow|;
    }
  }
}
