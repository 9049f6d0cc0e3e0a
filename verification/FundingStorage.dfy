/** Funding-rate history: a sorted set trimmed to a week, and a cached current rate. */
module FundingStorage {
  import opened Basics

  const WINDOW_HOURS := 168
  const HOUR := 3600.0
  const CACHE_SECONDS := 3600.0

  /** A stored rate: its funding time, which is its score, and its serialised text, of
      which only the order among equal scores matters. */
  datatype Rate = Rate(time: real, text: int)

  predicate Before(a: Rate, b: Rate) {
    a.time < b.time || (a.time == b.time && a.text < b.text)
  }

  ghost predicate Sorted(s: seq<Rate>) {
    forall i, j :: 0 <= i < j < |s| ==> Before(s[i], s[j])
  }

  /** zadd: members are unique and kept in order. */
  function Insert(s: seq<Rate>, r: Rate): seq<Rate> {
    if |s| == 0 then [r]
    else if s[0] == r then s
    else if Before(r, s[0]) then [r] + s
    else [s[0]] + Insert(s[1..], r)
  }

  /** The two range tests the store makes on scores, both inclusive: what survives
      removing the scores from 0 to `cutoff`, and what a query from `lo` to `hi` returns. */
  datatype Test = Survives(cutoff: real) | Within(lo: real, hi: real)

  predicate Passes(t: Test, r: Rate) {
    match t
    case Survives(cutoff) => !(0.0 <= r.time <= cutoff)
    case Within(lo, hi) => lo <= r.time <= hi
  }

  function Filter(s: seq<Rate>, t: Test): seq<Rate> {
    if |s| == 0 then []
    else (if Passes(t, s[0]) then [s[0]] else []) + Filter(s[1..], t)
  }

  function Latest(s: seq<Rate>): Option<Rate> {
    if |s| == 0 then None else Some(s[|s| - 1])
  }

  datatype Cache = Cache(rate: Rate, storedAt: real)

  datatype Store = Store(history: seq<Rate>, current: Option<Cache>)

  /** Storing a rate: `now` is read for the cutoff, `cachedAt` when the cache is set. */
  datatype Put = Put(rate: Rate, now: real, cachedAt: real)

  function Cutoff(now: real, hours: int): real {
    now - hours as real * HOUR
  }

  function Stored(s: Store, p: Put): Store {
    Store(Filter(Insert(s.history, p.rate), Survives(Cutoff(p.now, WINDOW_HOURS))),
          Some(Cache(p.rate, p.cachedAt)))
  }

  function Run(puts: seq<Put>): Store {
    if |puts| == 0 then Store([], None) else Stored(Run(puts[..|puts| - 1]), puts[|puts| - 1])
  }

  /** Every rate ever stored, never trimmed. */
  function Full(puts: seq<Put>): seq<Rate> {
    if |puts| == 0 then [] else Insert(Full(puts[..|puts| - 1]), puts[|puts| - 1].rate)
  }

  function History(s: Store, hours: int, now: real): seq<Rate> {
    Filter(s.history, Within(Cutoff(now, hours), now))
  }

  function Current(s: Store, now: real): Option<Rate> {
    if s.current.Some? && now < s.current.value.storedAt + CACHE_SECONDS
    then Some(s.current.value.rate)
    else Latest(s.history)
  }

  ghost predicate Timely(puts: seq<Put>) {
    forall i, j :: 0 <= i < j < |puts| ==> puts[i].now <= puts[j].now
  }

  // ---- Sorted-set algebra --------------------------------------------------------------------

  lemma {:induction false} InsertMembers(s: seq<Rate>, r: Rate, x: Rate)
    ensures x in Insert(s, r) <==> x == r || x in s
  {
    if |s| != 0 && s[0] != r && !Before(r, s[0]) {
      InsertMembers(s[1..], r, x);
    }
  }

  lemma {:induction false} InsertKeepsSorted(s: seq<Rate>, r: Rate)
    requires Sorted(s)
    ensures Sorted(Insert(s, r))
  {
    if |s| != 0 && s[0] != r && !Before(r, s[0]) {
      InsertKeepsSorted(s[1..], r);
      forall x | x in Insert(s[1..], r) ensures Before(s[0], x) {
        InsertMembers(s[1..], r, x);
      }
    }
  }

  lemma {:induction false} FilterMembers(s: seq<Rate>, t: Test, x: Rate)
    ensures x in Filter(s, t) <==> x in s && Passes(t, x)
  {
    if |s| != 0 { FilterMembers(s[1..], t, x); }
  }

  lemma {:induction false} FilterKeepsSorted(s: seq<Rate>, t: Test)
    requires Sorted(s)
    ensures Sorted(Filter(s, t))
  {
    if |s| != 0 {
      FilterKeepsSorted(s[1..], t);
      forall x | x in Filter(s[1..], t) ensures Before(s[0], x) {
        FilterMembers(s[1..], t, x);
      }
    }
  }

  lemma InsertInFront(s: seq<Rate>, r: Rate)
    requires forall x :: x in s ==> Before(r, x)
    ensures Insert(s, r) == [r] + s
  {
    if |s| != 0 { assert s[0] in s; }
  }

  lemma SmallerThanAll(s: seq<Rate>, r: Rate)
    requires Sorted(s) && |s| != 0 && Before(r, s[0])
    ensures forall x :: x in s ==> Before(r, x)
  {
    forall x | x in s ensures Before(r, x) {
      var i :| 0 <= i < |s| && s[i] == x;
      if i != 0 { assert Before(s[0], s[i]); }
    }
  }

  lemma FilterCons(x: Rate, s: seq<Rate>, t: Test)
    ensures Filter([x] + s, t) == if Passes(t, x) then [x] + Filter(s, t) else Filter(s, t)
  {
    assert ([x] + s)[1..] == s;
  }

  lemma InsertBehind(x: Rate, s: seq<Rate>, r: Rate)
    requires x != r && !Before(r, x)
    ensures Insert([x] + s, r) == [x] + Insert(s, r)
  {
    assert ([x] + s)[1..] == s;
  }

  /** Trimming or querying after an insertion is inserting into what was trimmed or
      queried, if the new rate passes at all. */
  lemma {:induction false} FilterInsert(s: seq<Rate>, r: Rate, t: Test)
    requires Sorted(s)
    ensures Filter(Insert(s, r), t) == if Passes(t, r) then Insert(Filter(s, t), r) else Filter(s, t)
  {
    hide Passes, Before;
    if |s| == 0 {
      FilterCons(r, [], t);
      assert [r] + [] == [r];
    } else if s[0] == r {
      FilterCons(r, s[1..], t);
      assert [r] + s[1..] == s;
    } else if Before(r, s[0]) {
      SmallerThanAll(s, r);
      FilterCons(r, s, t);
      forall x | x in Filter(s, t) ensures Before(r, x) {
        FilterMembers(s, t, x);
      }
      InsertInFront(Filter(s, t), r);
    } else {
      var x, tail := s[0], s[1..];
      FilterInsert(tail, r, t);
      assert s == [x] + tail;
      FilterCons(x, tail, t);
      FilterCons(x, Insert(tail, r), t);
      InsertBehind(x, Filter(tail, t), r);
    }
  }

  /** A looser test changes nothing when a stricter one follows it. */
  lemma {:induction false} FilterTwice(s: seq<Rate>, loose: Test, strict: Test)
    requires forall r :: Passes(strict, r) ==> Passes(loose, r)
    ensures Filter(Filter(s, loose), strict) == Filter(s, strict)
  {
    if |s| != 0 {
      FilterTwice(s[1..], loose, strict);
      var rest := Filter(s[1..], loose);
      assert ([s[0]] + rest)[1..] == rest && [] + rest == rest;
      assert [] + Filter(rest, strict) == Filter(rest, strict);
      assert Passes(strict, s[0]) ==> Passes(loose, s[0]);
    }
  }

  lemma {:induction false} FullIsSorted(puts: seq<Put>)
    ensures Sorted(Full(puts))
  {
    if |puts| != 0 {
      FullIsSorted(puts[..|puts| - 1]);
      InsertKeepsSorted(Full(puts[..|puts| - 1]), puts[|puts| - 1].rate);
    }
  }

  lemma {:induction false} FullMembers(puts: seq<Put>, x: Rate)
    ensures x in Full(puts) <==> exists i :: 0 <= i < |puts| && puts[i].rate == x
  {
    if |puts| != 0 {
      var n := |puts| - 1;
      FullMembers(puts[..n], x);
      InsertMembers(Full(puts[..n]), puts[n].rate, x);
      if x in Full(puts[..n]) {
        var i :| 0 <= i < n && puts[..n][i].rate == x;
        assert puts[i].rate == x;
      }
      if i :| 0 <= i < |puts| && puts[i].rate == x {
        if i < n { assert puts[..n][i].rate == x; }
      }
    }
  }

  // ---- Trimming is invisible -------------------------------------------------------------------

  /** The store is the untrimmed log less what the latest cutoff removes, however many
      trimmings there were. */
  lemma {:induction false} StoreIsTrimmedLog(puts: seq<Put>)
    requires Timely(puts) && |puts| != 0
    ensures Run(puts).history ==
            Filter(Full(puts), Survives(Cutoff(puts[|puts| - 1].now, WINDOW_HOURS)))
  {
    var n := |puts| - 1;
    var before, r := puts[..n], puts[n].rate;
    var t := Survives(Cutoff(puts[n].now, WINDOW_HOURS));
    if n != 0 {
      StoreIsTrimmedLog(before);
      var t' := Survives(Cutoff(puts[n - 1].now, WINDOW_HOURS));
      assert puts[n - 1].now <= puts[n].now;
      FullIsSorted(before);
      FilterKeepsSorted(Full(before), t');
      FilterInsert(Full(before), r, t);
      FilterInsert(Run(before).history, r, t);
      FilterTwice(Full(before), t', t);
    }
  }

  ghost predicate HistoryIsWhole(puts: seq<Put>, hours: int, now: real) {
    History(Run(puts), hours, now) == Filter(Full(puts), Within(Cutoff(now, hours), now))
  }

  lemma TrimmingIsInvisible(puts: seq<Put>, hours: int, now: real)
    requires Timely(puts) && hours < WINDOW_HOURS
    requires |puts| != 0 ==> puts[|puts| - 1].now <= now
    ensures HistoryIsWhole(puts, hours, now)
  {
    if |puts| != 0 {
      StoreIsTrimmedLog(puts);
      var cutoff := Cutoff(puts[|puts| - 1].now, WINDOW_HOURS);
      assert cutoff < Cutoff(now, hours);
      FilterTwice(Full(puts), Survives(cutoff), Within(Cutoff(now, hours), now));
    }
  }

  ghost predicate AlwaysWhole(hours: int) {
    forall puts: seq<Put>, now: real ::
      Timely(puts) && (|puts| != 0 ==> puts[|puts| - 1].now <= now) ==> HistoryIsWhole(puts, hours, now)
  }

  /** The history of the last `hours` hours equals the same window of the untrimmed log,
      order included, for every run, exactly when `hours` is below the retention window:
      at 168 hours a rate exactly on the edge is already gone. */
  lemma WholeExactlyBelowTheWindow(hours: int)
    ensures AlwaysWhole(hours) <==> hours < WINDOW_HOURS
  {
    if hours < WINDOW_HOURS {
      forall puts: seq<Put>, now: real | Timely(puts) && (|puts| != 0 ==> puts[|puts| - 1].now <= now)
        ensures HistoryIsWhole(puts, hours, now)
      {
        TrimmingIsInvisible(puts, hours, now);
      }
    } else {
      var now, edge := 604800.0, Rate(0.0, 0);
      var puts := [Put(edge, now, now)];
      assert puts[..0] == [] && Full(puts) == [edge];
      assert Run(puts).history == Filter([edge], Survives(0.0));
      assert [edge][1..] == [];
      assert Cutoff(now, hours) <= 0.0;
      assert !HistoryIsWhole(puts, hours, now);
    }
  }

  // ---- The current rate --------------------------------------------------------------------------

  lemma LatestIsGreatest(s: seq<Rate>, r: Rate)
    requires Sorted(s)
    ensures Latest(s) == Some(r) <==> r in s && forall x :: x in s ==> !Before(r, x)
  {
    if |s| != 0 {
      var last := s[|s| - 1];
      assert last in s;
      if r in s && r != last {
        var i :| 0 <= i < |s| && s[i] == r;
        assert Before(s[i], last);
      }
    }
  }

  /** The cached rate and the history fallback agree exactly when the rate last stored
      survived its own trimming and no surviving rate is later. */
  lemma CacheAgreesIff(puts: seq<Put>)
    requires Timely(puts) && |puts| != 0
    ensures var last := puts[|puts| - 1];
            var t := Survives(Cutoff(last.now, WINDOW_HOURS));
            && Run(puts).current == Some(Cache(last.rate, last.cachedAt))
            && (Latest(Run(puts).history) == Some(last.rate) <==>
                Passes(t, last.rate) &&
                forall i :: 0 <= i < |puts| && Passes(t, puts[i].rate) ==> !Before(last.rate, puts[i].rate))
  {
    var last := puts[|puts| - 1];
    var t := Survives(Cutoff(last.now, WINDOW_HOURS));
    StoreIsTrimmedLog(puts);
    FullIsSorted(puts);
    FilterKeepsSorted(Full(puts), t);
    LatestIsGreatest(Run(puts).history, last.rate);
    forall x ensures x in Run(puts).history <==>
                     Passes(t, x) && exists i :: 0 <= i < |puts| && puts[i].rate == x
    {
      FilterMembers(Full(puts), t, x);
      FullMembers(puts, x);
    }
  }

  ghost predicate Fresh(puts: seq<Put>) {
    && (forall i, j :: 0 <= i < j < |puts| ==> puts[i].rate.time < puts[j].rate.time)
    && (forall i :: 0 <= i < |puts| ==> puts[i].rate.time > Cutoff(puts[i].now, WINDOW_HOURS))
  }

  /** When funding times strictly increase and each is inside the window when stored, the
      current rate is the last one stored, whether or not the cache has expired. */
  lemma CurrentIsLastStored(puts: seq<Put>, now: real)
    requires Timely(puts) && |puts| != 0 && Fresh(puts)
    ensures Current(Run(puts), now) == Some(puts[|puts| - 1].rate)
  {
    CacheAgreesIff(puts);
  }

  /** What a history query returns, in terms of what was ever stored: every rate from `hours`
      ago up to now, both ends included, in order of funding time. */
  lemma HistoryHoldsExactly(puts: seq<Put>, hours: int, now: real, x: Rate)
    requires Timely(puts) && hours < WINDOW_HOURS
    requires |puts| != 0 ==> puts[|puts| - 1].now <= now
    ensures x in History(Run(puts), hours, now) <==>
              && now - 3600.0 * hours as real <= x.time <= now
              && exists i :: 0 <= i < |puts| && puts[i].rate == x
    ensures Sorted(History(Run(puts), hours, now))
  {
    TrimmingIsInvisible(puts, hours, now);
    FilterMembers(Full(puts), Within(Cutoff(now, hours), now), x);
    FullMembers(puts, x);
    FullIsSorted(puts);
    FilterKeepsSorted(Full(puts), Within(Cutoff(now, hours), now));
  }

  /** The cached rate lives for an hour; after that the latest of the last week is current. */
  lemma CacheLivesAnHour(puts: seq<Put>, now: real)
    requires |puts| != 0
    ensures var last := puts[|puts| - 1];
            && (now - last.cachedAt < 3600.0 ==> Current(Run(puts), now) == Some(last.rate))
            && (3600.0 <= now - last.cachedAt ==>
                  var history := Run(puts).history;
                  Current(Run(puts), now) == if history == [] then None else Some(history[|history| - 1]))
  {
  }

  // ---- The store ------------------------------------------------------------------------------------

  class Storage {
    var history: seq<Rate>
    var current: Option<Cache>
    ghost var puts: seq<Put>

    /** The store is the run of everything ever put into it. */
    ghost predicate Valid()
      reads this
    {
      State() == Run(puts)
    }

    /** The puts follow the clock, which has not gone back since. */
    ghost predicate UpToDate(now: real)
      reads this
    {
      Timely(puts) && (|puts| != 0 ==> puts[|puts| - 1].now <= now)
    }

    function State(): Store
      reads this
    {
      Store(history, current)
    }

    constructor ()
      ensures Valid() && puts == []
    {
      history, current, puts := [], None, [];
    }

    method StoreFundingRate(rate: Rate, now: real, cachedAt: real)
      requires Valid()
      modifies this
      ensures Valid() && puts == old(puts) + [Put(rate, now, cachedAt)]
      ensures State() == Stored(old(State()), Put(rate, now, cachedAt))
    {
      history := Insert(history, rate);
      var cutoff := now - WINDOW_HOURS as real * HOUR;
      history := Filter(history, Survives(cutoff));
      current := Some(Cache(rate, cachedAt));
      puts := puts + [Put(rate, now, cachedAt)];
      assert puts[..|puts| - 1] == old(puts);
    }

    /** Below the window, what comes back is the range of everything ever stored. */
    method GetFundingHistory(hours: int, now: real) returns (rates: seq<Rate>)
      requires Valid()
      ensures rates == History(State(), hours, now)
      ensures hours < WINDOW_HOURS && UpToDate(now) ==> rates == Filter(Full(puts), Within(Cutoff(now, hours), now))
    {
      if hours < WINDOW_HOURS && UpToDate(now) {
        TrimmingIsInvisible(puts, hours, now);
      }
      var start := now - hours as real * HOUR;
      rates := Filter(history, Within(start, now));
    }

    /** With funding times that rise and are recent when stored, it is the last one stored. */
    method GetCurrentFundingRate(now: real) returns (rate: Option<Rate>)
      requires Valid()
      ensures rate == Current(State(), now)
      ensures Timely(puts) && |puts| != 0 && Fresh(puts) ==> rate == Some(puts[|puts| - 1].rate)
    {
      if Timely(puts) && |puts| != 0 && Fresh(puts) {
        CurrentIsLastStored(puts, now);
      }
      if current.Some? && now < current.value.storedAt + CACHE_SECONDS {
        return Some(current.value.rate);
      }
      if |history| != 0 {
        return Some(history[|history| - 1]);
      }
      return None;
    }
  }
}
