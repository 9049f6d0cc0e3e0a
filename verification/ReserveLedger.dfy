/** The reserve state machine: deployments, guarded withdrawals and profit rebalancing. */
module ReserveLedger {
  import opened Basics
  import LtvSchedule

  datatype Action = DeployToCollateral | DeployToTrading | WithdrawFromTrading | Rebalance | EmergencyDeploy

  datatype Reserves = Reserves(
    total: real,
    available: real,
    deployed: real,
    toCollateral: real,
    toTrading: real,
    deploymentRatio: real,
    health: real)

  datatype Request = Request(amount: real, action: Action, emergency: bool)

  datatype Record = Record(
    request: Request,
    amountDeployed: real,
    reservesBefore: real,
    reservesAfter: real,
    deployedBefore: real,
    deployedAfter: real,
    success: bool)

  datatype Split = Split(toReserves: real, toLoan: real, toTrading: real)

  const MIN_BALANCE := 1000.0
  const MAX_DEPLOYMENT := 0.9

  function NewReserves(initial: real): Reserves {
    Reserves(initial, initial, 0.0, 0.0, 0.0, 0.0, 100.0)
  }

  function Deployable(s: Reserves): real {
    Max(0.0, Min(s.total * MAX_DEPLOYMENT - s.deployed, s.available - MIN_BALANCE))
  }

  function Capacity(s: Reserves, emergency: bool): real {
    if emergency then Max(0.0, s.available - 100.0) else Deployable(s)
  }

  /** EMERGENCY_DEPLOY and REBALANCE move no balance. */
  function Deploy(s: Reserves, amount: real, action: Action): Reserves {
    var s' :=
      match action
      case DeployToCollateral =>
        s.(toCollateral := s.toCollateral + amount, deployed := s.deployed + amount, available := s.available - amount)
      case DeployToTrading =>
        s.(toTrading := s.toTrading + amount, deployed := s.deployed + amount, available := s.available - amount)
      case WithdrawFromTrading =>
        s.(toTrading := s.toTrading - amount, deployed := s.deployed - amount, available := s.available + amount)
      case _ => s;
    s'.(deploymentRatio := if s'.total > 0.0 then s'.deployed / s'.total else 0.0,
        health := if s'.total > 0.0 then s'.available / s'.total * 100.0 else 0.0)
  }

  function AmountFor(s: Reserves, r: Request): real {
    if r.emergency && r.action == EmergencyDeploy then Min(r.amount, s.available - 100.0)
    else Min(r.amount, Deployable(s))
  }

  function Process(s: Reserves, r: Request): (Reserves, Record) {
    var amount := AmountFor(s, r);
    if amount <= 0.0 then
      (s, Record(r, amount, s.available, 0.0, s.deployed, 0.0, false))
    else
      var s' := Deploy(s, amount, r.action);
      (s', Record(r, amount, s.available, s'.available, s.deployed, s'.deployed, true))
  }

  function Capital(s: Reserves): real {
    s.total + s.toTrading
  }

  function ReserveRatio(s: Reserves): real {
    if Capital(s) > 0.0 then s.total / Capital(s) else 0.0
  }

  /** What the reserves lack of their target share of the capital. */
  function Deficit(s: Reserves, target: real): real {
    target * Capital(s) - s.total
  }

  function SplitProfit(s: Reserves, profit: real, target: real, minAddition: real): Split {
    if profit <= 0.0 then Split(0.0, 0.0, 0.0)
    else
      var toReserves :=
        if ReserveRatio(s) < target then
          Min(profit * 0.5, Deficit(s, target))
        else
          Max(minAddition, profit * 0.2);
      var remaining := profit - toReserves;
      Split(toReserves, remaining * 0.5, remaining * 0.5)
  }

  function AddProfit(s: Reserves, d: Split): Reserves {
    if d.toReserves > 0.0 then
      var s' := s.(total := s.total + d.toReserves, available := s.available + d.toReserves);
      if s'.total == 0.0 then s'  // the source divides by the new total
      else s'.(health := Min(100.0, s'.available / s'.total * 100.0))
    else s
  }

  /** One event: a queued deployment request, a withdrawal through withdraw_from_trading,
      or a realised profit. */
  datatype Event =
    | Deployment(request: Request)
    | Withdrawal(amount: real)
    | Profit(amount: real, target: real, minAddition: real)

  datatype Account = Account(reserves: Reserves, history: seq<Record>, splits: seq<Split>)

  function Step(a: Account, e: Event): Account {
    match e
    case Deployment(r) =>
      var (s, record) := Process(a.reserves, r);
      Account(s, a.history + [record], a.splits)
    case Withdrawal(amount) =>
      if amount > a.reserves.toTrading then a
      else
        var (s, record) := Process(a.reserves, Request(amount, WithdrawFromTrading, false));
        Account(s, a.history + [record], a.splits)
    case Profit(amount, target, minAddition) =>
      var d := SplitProfit(a.reserves, amount, target, minAddition);
      Account(AddProfit(a.reserves, d), a.history, a.splits + [d])
  }

  function Run(initial: real, events: seq<Event>): Account {
    if |events| == 0 then Account(NewReserves(initial), [], []) else
      Step(Run(initial, events[..|events| - 1]), events[|events| - 1])
  }

  /** Request amounts are positive, as validation demands, and withdrawals go through the
      guard of withdraw_from_trading. */
  predicate Valid(e: Event) {
    match e
    case Deployment(r) => r.amount > 0.0 && r.action != WithdrawFromTrading
    case Withdrawal(amount) => amount > 0.0
    case Profit(_, _, _) => true
  }

  ghost predicate AllValid(events: seq<Event>) {
    forall i :: 0 <= i < |events| ==> Valid(events[i])
  }

  // ---- What every reachable state keeps -------------------------------------------------

  ghost predicate Sound(initial: real, s: Reserves) {
    && 0.0 < s.total
    && s.total == s.available + s.deployed
    && s.deployed == s.toCollateral + s.toTrading
    && 0.0 <= s.toCollateral && 0.0 <= s.toTrading
    && s.deployed <= 0.9 * s.total
    && Min(initial, 1000.0) <= s.available
    && s.health == s.available / s.total * 100.0
    && s.deployed / s.total <= s.deploymentRatio
  }

  lemma ShareIsAtMostOne(part: real, whole: real)
    requires 0.0 <= part <= whole && 0.0 < whole
    ensures 0.0 <= part / whole <= 1.0
  {
    var q := part / whole;
    assert q * whole == part;
    FactorNonNegative(q, whole);
    assert (1.0 - q) * whole == whole - part;
    FactorNonNegative(1.0 - q, whole);
  }

  lemma RatioBelow(part: real, whole: real, target: real)
    requires 0.0 < whole
    ensures part / whole < target <==> part < target * whole
  {
    var q := part / whole;
    assert q * whole == part;
    if q < target {
      MulPositive(target - q, whole);
    } else {
      MulNonNegative(q - target, whole);
    }
  }

  lemma RatioIs(part: real, whole: real, ratio: real)
    requires 0.0 < whole && part == ratio * whole
    ensures part / whole == ratio
  {
    RatioBelow(part, whole, ratio);
    var q := part / whole;
    assert q * whole == part;
    if ratio < q {
      MulPositive(q - ratio, whole);
    }
  }

  lemma ToReservesPositive(s: Reserves, profit: real, target: real, minAddition: real)
    requires 0.0 < s.total && 0.0 <= s.toTrading && 0.0 < profit
    ensures 0.0 < SplitProfit(s, profit, target, minAddition).toReserves
  {
    DeficitIffBelow(s, target);
    hide ReserveRatio, Deficit;
  }

  lemma DeficitIffBelow(s: Reserves, target: real)
    requires 0.0 < s.total && 0.0 <= s.toTrading
    ensures ReserveRatio(s) < target <==> 0.0 < Deficit(s, target)
  {
    RatioBelow(s.total, Capital(s), target);
  }

  lemma ProcessKeepsSound(initial: real, s: Reserves, r: Request)
    requires 0.0 < initial && Sound(initial, s) && r.amount > 0.0
    requires r.action == WithdrawFromTrading ==> r.amount <= s.toTrading
    ensures Sound(initial, Process(s, r).0)
  {
  }

  lemma ProfitKeepsSound(initial: real, s: Reserves, e: Event)
    requires 0.0 < initial && Sound(initial, s) && e.Profit?
    ensures Sound(initial, AddProfit(s, SplitProfit(s, e.amount, e.target, e.minAddition)))
  {
    if e.amount > 0.0 {
      ToReservesPositive(s, e.amount, e.target, e.minAddition);
      hide SplitProfit;
      var s' := AddProfit(s, SplitProfit(s, e.amount, e.target, e.minAddition));
      ShareIsAtMostOne(s'.available, s'.total);
      QuotientAntitone(s.deployed, s.total, s'.total);
    }
  }

  lemma StepKeepsSound(initial: real, a: Account, e: Event)
    requires 0.0 < initial && Sound(initial, a.reserves) && Valid(e)
    ensures Sound(initial, Step(a, e).reserves)
  {
    hide Sound, Process, AddProfit, SplitProfit;
    var s := a.reserves;
    match e {
      case Deployment(r) => ProcessKeepsSound(initial, s, r);
      case Withdrawal(amount) =>
        if amount <= s.toTrading {
          ProcessKeepsSound(initial, s, Request(amount, WithdrawFromTrading, false));
        }
      case Profit(_, _, _) => ProfitKeepsSound(initial, s, e);
    }
  }

  /** Over every interleaving: the balances are conserved, nothing is negative, at most
      nine tenths is deployed, the floor on available reserves holds, the health score is
      current, and the reported deployment ratio never understates the real one. */
  lemma {:induction false} EveryStateIsSound(initial: real, events: seq<Event>)
    requires 0.0 < initial && AllValid(events)
    ensures Sound(initial, Run(initial, events).reserves)
  {
    if |events| != 0 {
      var before := events[..|events| - 1];
      EveryStateIsSound(initial, before);
      StepKeepsSound(initial, Run(initial, before), events[|events| - 1]);
    }
  }

  /** The reserve ratio never falls below 10/19. */
  lemma ReserveRatioFloor(initial: real, events: seq<Event>)
    requires 0.0 < initial && AllValid(events)
    ensures 10.0 / 19.0 <= ReserveRatio(Run(initial, events).reserves)
  {
    EveryStateIsSound(initial, events);
    SoundRatioFloor(initial, Run(initial, events).reserves);
  }

  lemma SoundRatioFloor(initial: real, s: Reserves)
    requires Sound(initial, s)
    ensures 10.0 / 19.0 <= ReserveRatio(s)
  {
    RatioBelow(s.total, Capital(s), 10.0 / 19.0);
  }

  // ---- The reported deployment ratio -------------------------------------------------------

  /** A request that moves something recomputes the ratio; a profit does not. */
  predicate Refreshes(s: Reserves, e: Event) {
    match e
    case Deployment(r) => AmountFor(s, r) > 0.0
    case Withdrawal(amount) =>
      amount <= s.toTrading && AmountFor(s, Request(amount, WithdrawFromTrading, false)) > 0.0
    case Profit(_, _, _) => false
  }

  /** Whether a profit was made since the last successful request. */
  predicate ProfitSince(initial: real, events: seq<Event>) {
    |events| != 0 &&
    var before, e := events[..|events| - 1], events[|events| - 1];
    if e.Profit? && e.amount > 0.0 then true
    else !Refreshes(Run(initial, before).reserves, e) && ProfitSince(initial, before)
  }

  /** The total when the ratio was last computed. */
  function TotalWhenSet(initial: real, events: seq<Event>): real {
    if |events| == 0 then initial else
      var before := events[..|events| - 1];
      var s := Run(initial, before).reserves;
      if Refreshes(s, events[|events| - 1]) then s.total else TotalWhenSet(initial, before)
  }

  /** The reported ratio `set` against the total at the time. */
  ghost predicate SetAt(s: Reserves, total: real, stale: bool) {
    && 0.0 < total <= s.total
    && s.deploymentRatio == s.deployed / total
    && (stale <==> total < s.total)
  }

  lemma QuotientsDiffer(part: real, small: real, large: real)
    requires 0.0 < small < large
    ensures part / small == part / large <==> part == 0.0
  {
    var x, y := part / small, part / large;
    assert x * small == part && y * large == part;
    if part == 0.0 {
      RatioIs(part, small, 0.0);
      RatioIs(part, large, 0.0);
    }
  }

  lemma ProfitLeavesTheRatio(initial: real, s: Reserves, e: Event, total: real, stale: bool)
    requires Sound(initial, s) && e.Profit? && SetAt(s, total, stale)
    ensures SetAt(AddProfit(s, SplitProfit(s, e.amount, e.target, e.minAddition)), total, stale || e.amount > 0.0)
  {
    if e.amount > 0.0 {
      ToReservesPositive(s, e.amount, e.target, e.minAddition);
      hide SplitProfit;
    }
  }

  lemma RequestSetsTheRatio(s: Reserves, r: Request, total: real, stale: bool)
    requires 0.0 < s.total && SetAt(s, total, stale)
    ensures var s' := Process(s, r).0;
            if AmountFor(s, r) > 0.0 then SetAt(s', s.total, false) else SetAt(s', total, stale)
  {
    hide AmountFor;
  }

  lemma StepSetsTheRatio(initial: real, a: Account, e: Event, total: real, stale: bool)
    requires Sound(initial, a.reserves) && SetAt(a.reserves, total, stale)
    ensures var s, s' := a.reserves, Step(a, e).reserves;
            if Refreshes(s, e) then SetAt(s', s.total, false)
            else SetAt(s', total, stale || (e.Profit? && e.amount > 0.0))
  {
    hide Process, AmountFor, AddProfit, SplitProfit, SetAt;
    match e {
      case Deployment(r) => RequestSetsTheRatio(a.reserves, r, total, stale);
      case Withdrawal(amount) =>
        RequestSetsTheRatio(a.reserves, Request(amount, WithdrawFromTrading, false), total, stale);
      case Profit(_, _, _) => ProfitLeavesTheRatio(initial, a.reserves, e, total, stale);
    }
  }

  lemma ProfitRefreshesNothing(s: Reserves, e: Event)
    ensures e.Profit? ==> !Refreshes(s, e)
  {
  }

  lemma {:induction false} RatioWasSetAt(initial: real, events: seq<Event>)
    requires 0.0 < initial && AllValid(events)
    ensures SetAt(Run(initial, events).reserves, TotalWhenSet(initial, events), ProfitSince(initial, events))
  {
    hide Step, Refreshes, Sound;
    if |events| != 0 {
      var before, e := events[..|events| - 1], events[|events| - 1];
      RatioWasSetAt(initial, before);
      EveryStateIsSound(initial, before);
      StepSetsTheRatio(initial, Run(initial, before), e, TotalWhenSet(initial, before), ProfitSince(initial, before));
      ProfitRefreshesNothing(Run(initial, before).reserves, e);
    }
  }

  /** Over every run, the reported deployment ratio is the real one exactly when no profit
      was made since the last successful request, or nothing is deployed. */
  lemma DeploymentRatioIsCurrentIff(initial: real, events: seq<Event>)
    requires 0.0 < initial && AllValid(events)
    ensures var s := Run(initial, events).reserves;
            0.0 < s.total &&
            (s.deploymentRatio == s.deployed / s.total <==> !ProfitSince(initial, events) || s.deployed == 0.0)
  {
    RatioWasSetAt(initial, events);
    EveryStateIsSound(initial, events);
    hide Sound;
    var s, total := Run(initial, events).reserves, TotalWhenSet(initial, events);
    if total < s.total {
      QuotientsDiffer(s.deployed, total, s.total);
    }
  }

  /** With half of 10000 deployed, a profit of 1000 adds 200 to the reserves: the report stays
      at 0.5 although 5000 of 10200 are deployed. */
  lemma DeploymentRatioGoesStale()
    ensures var deploy, profit := Deployment(Request(5000.0, DeployToCollateral, false)), Profit(1000.0, 0.2, 100.0);
            var s := Run(10000.0, [deploy, profit]).reserves;
            && s.deploymentRatio == 0.5
            && s.deployed == 5000.0 && s.total == 10200.0
            && s.deployed / s.total < s.deploymentRatio
  {
    var deploy, profit := Deployment(Request(5000.0, DeployToCollateral, false)), Profit(1000.0, 0.2, 100.0);
    RunSnoc(10000.0, [], deploy);
    assert [] + [deploy] == [deploy];
    RunSnoc(10000.0, [deploy], profit);
    assert [deploy] + [profit] == [deploy, profit];
  }

  // ---- The below-target branch ------------------------------------------------------------

  ghost predicate TakesBelowTarget(s: Reserves, profit: real, target: real) {
    profit > 0.0 && ReserveRatio(s) < target
  }

  /** A run that reaches the lowest ratio there is: grow the reserves past 10000, then put
      all that may be deployed into trading. */
  function Drained(initial: real): seq<Event> {
    [Profit(50000.0, 0.2, 100.0)] + [Deployment(Request(initial + 50000.0, DeployToTrading, false))]
  }

  lemma RunSnoc(initial: real, events: seq<Event>, e: Event)
    ensures Run(initial, events + [e]) == Step(Run(initial, events), e)
  {
    assert (events + [e])[..|events|] == events;
  }

  lemma DrainedRatio(initial: real)
    requires 0.0 < initial
    ensures AllValid(Drained(initial))
    ensures ReserveRatio(Run(initial, Drained(initial)).reserves) == 10.0 / 19.0
  {
    var grow, deploy := Profit(50000.0, 0.2, 100.0), Deployment(Request(initial + 50000.0, DeployToTrading, false));
    RunSnoc(initial, [], grow);
    assert [] + [grow] == [grow];
    RunSnoc(initial, [grow], deploy);
    var s0, s1 := NewReserves(initial), Run(initial, [grow]).reserves;
    RatioBelow(initial, initial, 0.2);
    assert s1.total == initial + 10000.0 && s1.available == s1.total && s1.toTrading == 0.0;
    var s2 := Run(initial, Drained(initial)).reserves;
    assert s2.total == s1.total && s2.toTrading == 0.9 * s1.total;
    RatioIs(s2.total, s2.total + s2.toTrading, 10.0 / 19.0);
  }

  /** The below-target branch of the profit split can be reached by some run exactly when
      the target is above 10/19; at the default target of 0.2 it is dead. */
  lemma BelowTargetIffAboveTenNineteenths(initial: real, target: real, profit: real)
    requires 0.0 < initial && 0.0 < profit
    ensures (exists events :: AllValid(events) && TakesBelowTarget(Run(initial, events).reserves, profit, target))
            <==> target > 10.0 / 19.0
  {
    if target > 10.0 / 19.0 {
      DrainedRatio(initial);
      assert TakesBelowTarget(Run(initial, Drained(initial)).reserves, profit, target);
    } else {
      forall events | AllValid(events)
        ensures !TakesBelowTarget(Run(initial, events).reserves, profit, target)
      {
        ReserveRatioFloor(initial, events);
      }
    }
  }

  // ---- Profit splitting -------------------------------------------------------------------

  /** A positive profit is split with nothing lost. Whatever the target, no part is negative
      exactly when the below-target branch is taken or the profit covers the minimum
      addition; otherwise the loan and trading parts are negative. */
  lemma SplitIsSound(initial: real, s: Reserves, profit: real, target: real, minAddition: real)
    requires Sound(initial, s) && 0.0 < profit
    ensures var d := SplitProfit(s, profit, target, minAddition);
            && d.toReserves + d.toLoan + d.toTrading == profit
            && 0.0 < d.toReserves
            && d.toLoan == d.toTrading
            && (0.0 <= d.toLoan <==> TakesBelowTarget(s, profit, target) || minAddition <= profit)
            && (!TakesBelowTarget(s, profit, target) ==>
                  && minAddition <= d.toReserves
                  && 0.2 * profit <= d.toReserves <= Max(minAddition, 0.2 * profit))
  {
    ToReservesPositive(s, profit, target, minAddition);
    hide ReserveRatio, Deficit;
  }

  /** The loan never gets a negative part of a profit that covers the minimum addition; for
      targets up to 10/19 that is also the only way. */
  lemma SplitIsSoundAtLowTargets(initial: real, s: Reserves, profit: real, target: real, minAddition: real)
    requires Sound(initial, s) && 0.0 < profit && target <= 10.0 / 19.0
    ensures 0.0 <= SplitProfit(s, profit, target, minAddition).toLoan <==> minAddition <= profit
  {
    SoundRatioFloor(initial, s);
    SplitIsSound(initial, s, profit, target, minAddition);
  }

  /** Whatever the target, a split loses nothing, and when the below-target branch is
      taken it never asks for more than half the profit nor more than the deficit. */
  lemma SplitConserves(s: Reserves, profit: real, target: real, minAddition: real)
    requires 0.0 < s.total && 0.0 <= s.toTrading
    ensures var d := SplitProfit(s, profit, target, minAddition);
            && d.toReserves + d.toLoan + d.toTrading == Max(0.0, profit)
            && (TakesBelowTarget(s, profit, target) ==>
                  && 0.0 < d.toReserves <= d.toLoan + d.toTrading
                  && d.toReserves <= Deficit(s, target)
                  && d.toLoan == d.toTrading
                  && (d.toReserves == d.toLoan + d.toTrading
                      || (d.toReserves + s.total) == target * (s.total + s.toTrading)))
  {
    DeficitIffBelow(s, target);
    hide ReserveRatio, Deficit;
  }

  // ---- Replay -----------------------------------------------------------------------------

  function AddedBy(splits: seq<Split>): real {
    if |splits| == 0 then 0.0 else
      AddedBy(splits[..|splits| - 1]) + splits[|splits| - 1].toReserves
  }

  /** Net amount the successful records of an action moved. */
  function MovedBy(history: seq<Record>, action: Action): real {
    if |history| == 0 then 0.0 else
      var r := history[|history| - 1];
      MovedBy(history[..|history| - 1], action) +
      (if r.success && r.request.action == action then r.amountDeployed else 0.0)
  }

  ghost predicate Replayed(initial: real, a: Account) {
    && a.reserves.total == initial + AddedBy(a.splits)
    && a.reserves.toCollateral == MovedBy(a.history, DeployToCollateral)
    && a.reserves.toTrading ==
       MovedBy(a.history, DeployToTrading) - MovedBy(a.history, WithdrawFromTrading)
  }

  lemma ProfitReplays(initial: real, a: Account, e: Event)
    requires e.Profit? && Sound(initial, a.reserves) && Replayed(initial, a)
    ensures Replayed(initial, Step(a, e))
  {
    var d := SplitProfit(a.reserves, e.amount, e.target, e.minAddition);
    assert (a.splits + [d])[..|a.splits|] == a.splits;
    if e.amount > 0.0 {
      ToReservesPositive(a.reserves, e.amount, e.target, e.minAddition);
    }
  }

  lemma ProcessReplays(initial: real, a: Account, r: Request)
    requires Replayed(initial, a)
    ensures var (s, record) := Process(a.reserves, r);
            Replayed(initial, Account(s, a.history + [record], a.splits))
  {
    var (s, record) := Process(a.reserves, r);
    assert (a.history + [record])[..|a.history|] == a.history;
  }

  lemma StepReplays(initial: real, a: Account, e: Event)
    requires Sound(initial, a.reserves) && Replayed(initial, a)
    ensures Replayed(initial, Step(a, e))
  {
    match e {
      case Profit(_, _, _) => ProfitReplays(initial, a, e);
      case Deployment(r) => ProcessReplays(initial, a, r);
      case Withdrawal(amount) => ProcessReplays(initial, a, Request(amount, WithdrawFromTrading, false));
    }
  }

  /** The balances can be replayed from the two histories alone. */
  lemma {:induction false} HistoryReplaysBalances(initial: real, events: seq<Event>)
    requires 0.0 < initial && AllValid(events)
    ensures Replayed(initial, Run(initial, events))
  {
    if |events| != 0 {
      var before, e := events[..|events| - 1], events[|events| - 1];
      HistoryReplaysBalances(initial, before);
      EveryStateIsSound(initial, before);
      StepReplays(initial, Run(initial, before), e);
    }
  }

  // ---- Deployments deliver ---------------------------------------------------------------

  /** A deployment request is granted in full up to the limits and exhausts them otherwise:
      it succeeds exactly when something is deployable, and either everything asked for was
      deployed or nothing more can be. */
  lemma DeploymentIsMaximal(initial: real, s: Reserves, r: Request)
    requires Sound(initial, s) && 0.0 < r.amount
    requires r.action == DeployToCollateral || r.action == DeployToTrading
    ensures var (s', record) := Process(s, r);
            var moved := s'.deployed - s.deployed;
            && (record.success <==> 0.0 < Deployable(s))
            && 0.0 <= moved <= r.amount
            && (moved == r.amount || Deployable(s') == 0.0)
            && (record.success <==> s.deployed < 0.9 * s.total && 1000.0 < s.available)
            && (record.success && moved < r.amount ==> s'.deployed == 0.9 * s'.total || s'.available == 1000.0)
            && s'.toTrading - s.toTrading == (if r.action == DeployToTrading then moved else 0.0)
            && record.request == r && record.reservesBefore == s.available && record.deployedBefore == s.deployed
            && (record.success ==>
                  && record.amountDeployed == moved
                  && record.reservesAfter == s'.available && record.deployedAfter == s'.deployed)
            && (!record.success ==> s' == s && record.reservesAfter == record.deployedAfter == 0.0)
  {
  }

  /** An EMERGENCY_DEPLOY request is recorded as a deployment of up to all but $100, and moves no
      balance at all. */
  lemma EmergencyRequestMovesNothing(initial: real, s: Reserves, amount: real)
    requires Sound(initial, s) && 0.0 < amount
    ensures var (s', record) := Process(s, Request(amount, EmergencyDeploy, true));
            && s'.available == s.available && s'.deployed == s.deployed && s'.total == s.total
            && s'.toCollateral == s.toCollateral && s'.toTrading == s.toTrading
            && record.amountDeployed == Min(amount, s.available - 100.0)
            && (record.success <==> 100.0 < s.available)
  {
  }

  // ---- Withdrawals --------------------------------------------------------------------------

  /** A withdrawal is limited like a deployment: it succeeds exactly when it is within what
      trading holds and something is still deployable, and it returns in full exactly when
      it is within the deployable amount. */
  lemma WithdrawalDelivers(initial: real, a: Account, amount: real)
    requires Sound(initial, a.reserves) && 0.0 < amount
    ensures var s, s' := a.reserves, Step(a, Withdrawal(amount)).reserves;
            var returned := s.toTrading - s'.toTrading;
            && s'.available - s.available == returned
            && s'.total == s.total && s'.toCollateral == s.toCollateral
            && (returned > 0.0 <==> amount <= s.toTrading && Deployable(s) > 0.0)
            && (returned == amount <==> amount <= s.toTrading && amount <= Deployable(s))
  {
  }

  /** So once everything deployable is deployed, no withdrawal of any size succeeds. */
  lemma FullyDeployedIsStuck(initial: real, amount: real)
    requires 0.0 < initial && 0.0 < amount
    ensures var a := Run(initial, Drained(initial));
            && a.reserves.toTrading > 0.5 * a.reserves.total
            && Step(a, Withdrawal(amount)).reserves == a.reserves
  {
    DrainedRatio(initial);
    EveryStateIsSound(initial, Drained(initial));
    var s := Run(initial, Drained(initial)).reserves;
    RatioBelow(s.total, s.total + s.toTrading, 10.0 / 19.0);
    var ratio, capital := ReserveRatio(s), s.total + s.toTrading;
    assert ratio * capital == s.total;
    assert s.toTrading == 0.9 * s.total;
    WithdrawalDelivers(initial, Run(initial, Drained(initial)), amount);
  }

  // ---- Deployments for a loan-to-value ratio -------------------------------------------------

  function DeploymentForLtv(s: Reserves, ltv: real): real {
    if ltv < 0.65 then 0.0
    else
      var wanted :=
        if ltv < 0.75 then 3000.0 * (ltv - 0.65) / 0.10
        else if ltv < 0.85 then 3000.0 + 5000.0 * (ltv - 0.75) / 0.10
        else Capacity(s, true);
      Min(wanted, Capacity(s, ltv >= 0.85))
  }

  /** Below 0.85 the reserve side deploys the loan side's schedule capped at the deployable
      amount; from 0.85 on it takes everything above $100. For a fixed reserve state the
      amount never falls as the ratio rises, across all four tiers and the jump to
      emergency capacity. */
  lemma SchedulesAgree(s: Reserves, ltv: real, ltv': real)
    ensures ltv < 0.85 ==> DeploymentForLtv(s, ltv) == Min(LtvSchedule.Wanted(ltv), Deployable(s))
    ensures ltv >= 0.85 ==> DeploymentForLtv(s, ltv) == Max(0.0, s.available - 100.0)
    ensures ltv <= ltv' ==> DeploymentForLtv(s, ltv) <= DeploymentForLtv(s, ltv')
  {
  }

  /** The request the service queues by itself when the ratio is at least 0.65. */
  function AutoRequest(s: Reserves, ltv: real): Request {
    Request(DeploymentForLtv(s, ltv), DeployToCollateral, ltv >= 0.85)
  }

  /** The emergency amount is never deployed automatically: the queued request asks to
      deploy to collateral, so it is held to the normal limits. It deploys in full exactly
      when the deployable amount covers it, which no emergency amount above zero does. */
  lemma AutoDeploymentRespectsLimits(initial: real, s: Reserves, ltv: real)
    requires Sound(initial, s) && 0.65 <= ltv && 0.0 < DeploymentForLtv(s, ltv)
    ensures var r := AutoRequest(s, ltv);
            && AmountFor(s, r) == Min(r.amount, Deployable(s))
            && (AmountFor(s, r) == r.amount <==> ltv < 0.85)
            && r.action == DeployToCollateral && (r.emergency <==> 0.85 <= ltv)
  {
  }

  // ---- The periodic rebalance ----------------------------------------------------------------

  predicate TooMuchInTrading(s: Reserves) {
    s.toTrading > s.total * 0.5
  }

  /** One pass of the rebalance check: above half the reserves in trading, a fifth of it is
      withdrawn. */
  function Rebalanced(a: Account): Account {
    if TooMuchInTrading(a.reserves) then Step(a, Withdrawal(a.reserves.toTrading * 0.2)) else a
  }

  /** A pass acts exactly when more than half of what the reserves total is in trading, and
      takes a fifth of it out, or what is deployable if that is less. */
  lemma PassTakesAFifth(initial: real, a: Account)
    requires 0.0 < initial && Sound(initial, a.reserves)
    ensures var s, s' := a.reserves, Rebalanced(a).reserves;
            s.toTrading - s'.toTrading ==
            if 2.0 * s.toTrading > s.total then Min(s.toTrading / 5.0, Deployable(s)) else 0.0
  {
    if TooMuchInTrading(a.reserves) {
      WithdrawalDelivers(initial, a, a.reserves.toTrading * 0.2);
    }
  }

  /** What a pass announces it withdrew. */
  function PublishedWithdrawal(s: Reserves): Option<real> {
    var amount := s.toTrading * 0.2;
    if TooMuchInTrading(s) && 0.0 < amount && 0.0 < Deployable(s) then Some(amount) else None
  }

  /** A pass announces a withdrawal exactly when it makes one, and announces the right amount
      exactly when that was deployable; otherwise it announces more than came back. */
  lemma PublishedWithdrawalIsRightIff(initial: real, a: Account)
    requires 0.0 < initial && Sound(initial, a.reserves)
    ensures var s, s' := a.reserves, Rebalanced(a).reserves;
            var published, returned := PublishedWithdrawal(s), s.toTrading - s'.toTrading;
            && (published.Some? <==> 0.0 < returned)
            && (published.Some? ==>
                  && returned <= published.value
                  && (returned == published.value <==> s.toTrading * 0.2 <= Deployable(s)))
  {
    if TooMuchInTrading(a.reserves) {
      WithdrawalDelivers(initial, a, a.reserves.toTrading * 0.2);
    }
  }

  function RebalancedTimes(a: Account, n: nat): Account
    decreases n
  {
    if n == 0 then a else RebalancedTimes(Rebalanced(a), n - 1)
  }

  lemma RebalanceStep(initial: real, a: Account, step: real)
    requires 0.0 < initial && Sound(initial, a.reserves)
    requires 0.0 < step <= 0.1 * a.reserves.total && step <= Deployable(a.reserves)
    ensures var s, s' := a.reserves, Rebalanced(a).reserves;
            && Sound(initial, s') && s'.total == s.total && step <= Deployable(s')
            && (TooMuchInTrading(s) ==> s'.toTrading <= s.toTrading - step)
            && (!TooMuchInTrading(s) ==> s' == s)
  {
    if TooMuchInTrading(a.reserves) {
      StepKeepsSound(initial, a, Withdrawal(a.reserves.toTrading * 0.2));
    }
  }

  lemma OneStepLess(n: nat, step: real)
    requires n != 0 && 0.0 < step
    ensures 0.0 <= (n - 1) as real * step == n as real * step - step
  {
    MulNonNegative((n - 1) as real, step);
  }

  lemma {:induction false} RebalanceConverges(initial: real, a: Account, step: real, n: nat)
    requires 0.0 < initial && Sound(initial, a.reserves)
    requires 0.0 < step <= 0.1 * a.reserves.total && step <= Deployable(a.reserves)
    requires a.reserves.toTrading <= a.reserves.total * 0.5 + n as real * step
    ensures !TooMuchInTrading(RebalancedTimes(a, n).reserves)
    decreases n
  {
    hide Rebalanced, Deployable, Sound;
    if n != 0 {
      RebalanceStep(initial, a, step);
      OneStepLess(n, step);
      RebalanceConverges(initial, Rebalanced(a), step, n - 1);
    }
  }

  lemma {:induction false} RebalanceStaysStuck(a: Account, n: nat)
    requires TooMuchInTrading(a.reserves) && Deployable(a.reserves) == 0.0
    ensures TooMuchInTrading(RebalancedTimes(a, n).reserves)
    decreases n
  {
    if n != 0 { RebalanceStaysStuck(Rebalanced(a), n - 1); }
  }

  /** Left alone, the rebalance check brings trading down to half the reserves after
      finitely many passes exactly when it was there already or something was deployable
      to begin with. */
  lemma RebalanceConvergesIff(initial: real, a: Account)
    requires 0.0 < initial && Sound(initial, a.reserves)
    ensures (exists n: nat :: !TooMuchInTrading(RebalancedTimes(a, n).reserves))
            <==> !TooMuchInTrading(a.reserves) || Deployable(a.reserves) > 0.0
  {
    var s := a.reserves;
    if !TooMuchInTrading(s) {
      assert !TooMuchInTrading(RebalancedTimes(a, 0).reserves);
    } else if Deployable(s) > 0.0 {
      var step := Min(0.1 * s.total, Deployable(s));
      var n := Passes(s.toTrading, step);
      RebalanceConverges(initial, a, step, n);
    } else {
      forall n: nat ensures TooMuchInTrading(RebalancedTimes(a, n).reserves) {
        RebalanceStaysStuck(a, n);
      }
    }
  }

  lemma Passes(amount: real, step: real) returns (n: nat)
    requires 0.0 <= amount && 0.0 < step
    ensures amount <= n as real * step
  {
    var q := amount / step;
    assert q * step == amount;
    FactorNonNegative(q, step);
    n := q.Floor + 1;
    MulNonNegative(n as real - q, step);
  }
}
