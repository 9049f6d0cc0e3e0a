/** Hedge decisions and the hedger's position bookkeeping. */
module Hedger {
  import opened Basics
  import opened Funding
  import opened RiskEngine

  datatype Limits = Limits(minOrder: real, maxPosition: real)

  const DEFAULT_LIMITS := Limits(0.001, 10.0)

  datatype Order = Order(buy: bool, size: real)

  /** A zero multiplier is falsy in the source and counts as one. */
  function Effective(multiplier: real): real {
    if multiplier == 0.0 then 1.0 else multiplier
  }

  predicate EmergencyExit(m: Message) {
    m.context.Some? && m.context.value.shouldExit
  }

  function Scaled(distance: real, multiplier: real): real {
    distance * multiplier
  }

  function Decide(limits: Limits, m: Message): Option<Order>
    requires m.recommendation.Some?
  {
    var r := m.recommendation.value;
    var size := Scaled(Abs(r.quantity), Effective(m.multiplier));
    if EmergencyExit(m) then
      Some(Order(!(m.netDelta > 0.0), Abs(m.netDelta)))
    else if size < limits.minOrder then None
    else Some(Order(r.buy, Min(size, limits.maxPosition)))
  }

  function React(limits: Limits, m: Message): Option<Order> {
    if m.recommendation.Some? then Decide(limits, m) else None
  }

  function Filled(delta: real, order: Option<Order>): real {
    match order
    case None => delta
    case Some(o) => if o.buy then delta + o.size else delta - o.size
  }

  /** A multiplier of zero that comes without an exit flag hedges in full. */
  lemma ZeroMultiplierHedgesInFull(limits: Limits, m: Message)
    requires !EmergencyExit(m)
    ensures React(limits, m.(multiplier := 0.0)) == React(limits, m.(multiplier := 1.0))
  {
  }

  // ---- Converging on a fixed target --------------------------------------------------------

  /** The message of a risk state held at `target` when nothing calls for an exit. */
  ghost predicate Steady(cfg: Config, m: Message, target: real) {
    && TargetDelta(cfg, m.state) == target
    && m.recommendation == RecommendHedge(cfg, m.state, m.netDelta)
    && !EmergencyExit(m)
    && 0.0 < m.multiplier <= 1.0
  }

  /** The smallest order ever placed: limits may be configured with the cap below the
      minimum. */
  function Smallest(limits: Limits): real {
    Min(limits.minOrder, limits.maxPosition)
  }

  lemma ScaledSize(quantity: real, multiplier: real)
    requires 0.0 <= quantity && 0.0 < multiplier <= 1.0
    ensures 0.0 <= Scaled(quantity, multiplier) <= quantity
  {
    MulNonNegative(quantity, multiplier);
    MulNonNegative(quantity, 1.0 - multiplier);
  }

  /** An order is for the distance to the target scaled by the multiplier, up to the largest
      order; it moves the delta towards the target by its whole size and never past it. */
  lemma HedgeNeverOvershoots(cfg: Config, limits: Limits, m: Message, target: real)
    requires 0.0 < limits.minOrder && 0.0 < limits.maxPosition && Steady(cfg, m, target)
    ensures var order, delta := React(limits, m), Filled(m.netDelta, React(limits, m));
            && Min(m.netDelta, target) <= delta <= Max(m.netDelta, target)
            && (order.Some? ==>
                  && order.value.size == Min(Scaled(Abs(target - m.netDelta), m.multiplier), limits.maxPosition)
                  && (order.value.buy <==> m.netDelta < target)
                  && Smallest(limits) <= order.value.size <= limits.maxPosition
                  && Abs(target - delta) == Abs(target - m.netDelta) - order.value.size)
            && (order.None? <==>
                  || Abs(target - m.netDelta) < 0.001
                  || Scaled(Abs(target - m.netDelta), m.multiplier) < limits.minOrder)
  {
    hide Scaled;
    var distance := Abs(target - m.netDelta);
    ScaledSize(distance, m.multiplier);
    assert Effective(m.multiplier) == m.multiplier;
    if m.recommendation.Some? {
      assert Abs(m.recommendation.value.quantity) == distance;
      assert m.recommendation.value.buy <==> target > m.netDelta;
      var order := React(limits, m);
      assert order.Some? ==> 0.0 < order.value.size <= Scaled(distance, m.multiplier) <= distance;
    }
  }

  /** In particular: the whole size of an ordinary order. */
  lemma OrderIsScaledDistance(cfg: Config, limits: Limits, m: Message, target: real)
    requires 0.0 < limits.minOrder && 0.0 < limits.maxPosition && Steady(cfg, m, target) && React(limits, m).Some?
    ensures React(limits, m).value.size == Min(Abs(target - m.netDelta) * m.multiplier, limits.maxPosition)
  {
    HedgeNeverOvershoots(cfg, limits, m, target);
    hide React, Steady;
  }

  /** The message a risk state sends in a funding context. */
  function MessageAt(cfg: Config, s: RiskState, delta: real, c: Context): Message {
    Message(s, Some(s), false, delta, RecommendHedge(cfg, s, delta), Some(c), c.multiplier)
  }

  function HedgeOnce(cfg: Config, limits: Limits, s: RiskState, delta: real, c: Context): Option<Order> {
    React(limits, MessageAt(cfg, s, delta, c))
  }

  /** No exit, and a multiplier that is a proper fraction: what every funding rate below
      300% gives. */
  ghost predicate NoExit(c: Context) {
    !c.shouldExit && 0.0 < c.multiplier <= 1.0
  }

  lemma ScaledMonotone(distance: real, small: real, large: real)
    requires 0.0 <= distance && small <= large
    ensures Scaled(distance, small) <= Scaled(distance, large)
  {
    MulNonNegative(distance, large - small);
  }

  lemma HedgeOnceContracts(cfg: Config, limits: Limits, s: RiskState, delta: real, c: Context)
    requires 0.0 < limits.minOrder && 0.0 < limits.maxPosition && NoExit(c)
    ensures var order, target := HedgeOnce(cfg, limits, s, delta, c), TargetDelta(cfg, s);
            var after := Filled(delta, order);
            && Min(delta, target) <= after <= Max(delta, target)
            && Abs(target - after) <= Abs(target - delta) - (if order.Some? then Smallest(limits) else 0.0)
            && (order.None? <==>
                  Abs(target - delta) < 0.001 || Scaled(Abs(target - delta), c.multiplier) < limits.minOrder)
  {
    HedgeNeverOvershoots(cfg, limits, MessageAt(cfg, s, delta, c), TargetDelta(cfg, s));
  }

  /** The delta after a run of messages at one risk state, one funding context each, every
      order filled in full. */
  function DeltaAfter(cfg: Config, limits: Limits, s: RiskState, delta: real, contexts: seq<Context>): real {
    if |contexts| == 0 then delta else
      var n := |contexts| - 1;
      var before := DeltaAfter(cfg, limits, s, delta, contexts[..n]);
      Filled(before, HedgeOnce(cfg, limits, s, before, contexts[n]))
  }

  function OrdersIssued(cfg: Config, limits: Limits, s: RiskState, delta: real, contexts: seq<Context>): nat {
    if |contexts| == 0 then 0 else
      var n := |contexts| - 1;
      var before := DeltaAfter(cfg, limits, s, delta, contexts[..n]);
      OrdersIssued(cfg, limits, s, delta, contexts[..n])
      + (if HedgeOnce(cfg, limits, s, before, contexts[n]).Some? then 1 else 0)
  }

  /** However long the risk state lasts and however the funding varies below an exit, the
      distance to the target only shrinks, the delta never crosses it, and the orders ever
      issued number at most |target - delta| / minimum order. */
  lemma {:induction false} HedgingStops(cfg: Config, limits: Limits, s: RiskState, delta: real, contexts: seq<Context>)
    requires 0.0 < limits.minOrder && 0.0 < limits.maxPosition
    requires forall i :: 0 <= i < |contexts| ==> NoExit(contexts[i])
    ensures var target, after := TargetDelta(cfg, s), DeltaAfter(cfg, limits, s, delta, contexts);
            && Min(delta, target) <= after <= Max(delta, target)
            && Times(OrdersIssued(cfg, limits, s, delta, contexts), Smallest(limits))
               <= Abs(target - delta) - Abs(target - after)
  {
    hide HedgeOnce, Smallest, Filled, Times;
    if |contexts| == 0 {
      OneMore(0, Smallest(limits));
    } else {
      var n := |contexts| - 1;
      HedgingStops(cfg, limits, s, delta, contexts[..n]);
      var before := DeltaAfter(cfg, limits, s, delta, contexts[..n]);
      HedgeOnceContracts(cfg, limits, s, before, contexts[n]);
      OneMore(OrdersIssued(cfg, limits, s, delta, contexts[..n]), Smallest(limits));
    }
  }

  lemma QuietBelow(cfg: Config, limits: Limits, s: RiskState, delta: real, c: Context, c': Context)
    requires 0.0 < limits.minOrder && 0.0 < limits.maxPosition && NoExit(c) && NoExit(c')
    requires HedgeOnce(cfg, limits, s, delta, c).None? && c'.multiplier <= c.multiplier
    ensures HedgeOnce(cfg, limits, s, delta, c').None?
  {
    HedgeOnceContracts(cfg, limits, s, delta, c);
    HedgeOnceContracts(cfg, limits, s, delta, c');
    hide HedgeOnce, Scaled;
    ScaledMonotone(Abs(TargetDelta(cfg, s) - delta), c'.multiplier, c.multiplier);
  }

  /** Once a multiplier draws no order it never will again: nothing that follows at any
      multiplier up to it, in any number of messages, moves the delta. */
  lemma {:induction false} QuietStaysQuiet(cfg: Config, limits: Limits, s: RiskState, delta: real, c: Context,
                                           contexts: seq<Context>)
    requires 0.0 < limits.minOrder && 0.0 < limits.maxPosition && NoExit(c)
    requires HedgeOnce(cfg, limits, s, delta, c).None?
    requires forall i :: 0 <= i < |contexts| ==> NoExit(contexts[i]) && contexts[i].multiplier <= c.multiplier
    ensures DeltaAfter(cfg, limits, s, delta, contexts) == delta
    ensures OrdersIssued(cfg, limits, s, delta, contexts) == 0
  {
    hide HedgeOnce;
    if |contexts| != 0 {
      var n := |contexts| - 1;
      QuietStaysQuiet(cfg, limits, s, delta, c, contexts[..n]);
      QuietBelow(cfg, limits, s, delta, c, contexts[n]);
    }
  }

  function Repeat(c: Context, n: nat): seq<Context> {
    if n == 0 then [] else Repeat(c, n - 1) + [c]
  }

  lemma {:induction false} RepeatIs(c: Context, n: nat)
    ensures |Repeat(c, n)| == n
    ensures forall i :: 0 <= i < n ==> Repeat(c, n)[i] == c
  {
    if n != 0 { RepeatIs(c, n - 1); }
  }

  lemma DeltaSnoc(cfg: Config, limits: Limits, s: RiskState, delta: real, contexts: seq<Context>, c: Context)
    ensures var before := DeltaAfter(cfg, limits, s, delta, contexts);
            var order := HedgeOnce(cfg, limits, s, before, c);
            && (order.None? ==> DeltaAfter(cfg, limits, s, delta, contexts + [c]) == before)
            && OrdersIssued(cfg, limits, s, delta, contexts + [c]) ==
               OrdersIssued(cfg, limits, s, delta, contexts) + (if order.Some? then 1 else 0)
  {
    hide HedgeOnce;
    assert (contexts + [c])[..|contexts|] == contexts;
  }

  /** Each repetition of a message places an order, until one does not. */
  lemma {:induction false} BusyUntilQuiet(cfg: Config, limits: Limits, s: RiskState, delta: real, c: Context, n: nat)
    ensures var contexts := Repeat(c, n);
            || OrdersIssued(cfg, limits, s, delta, contexts) == n
            || HedgeOnce(cfg, limits, s, DeltaAfter(cfg, limits, s, delta, contexts), c).None?
  {
    hide HedgeOnce;
    if n != 0 {
      BusyUntilQuiet(cfg, limits, s, delta, c, n - 1);
      DeltaSnoc(cfg, limits, s, delta, Repeat(c, n - 1), c);
    }
  }

  /** One message repeated more often than its orders can number brings the delta to rest: a
      thousandth from the target, or so close that the scaled hedge is below the minimum. */
  lemma HedgingConverges(cfg: Config, limits: Limits, s: RiskState, delta: real, c: Context, n: nat)
    requires 0.0 < limits.minOrder && 0.0 < limits.maxPosition && NoExit(c)
    requires Times(n, Smallest(limits)) > Abs(TargetDelta(cfg, s) - delta)
    ensures var after := DeltaAfter(cfg, limits, s, delta, Repeat(c, n));
            var distance := Abs(TargetDelta(cfg, s) - after);
            && HedgeOnce(cfg, limits, s, after, c).None?
            && (distance < 0.001 || Scaled(distance, c.multiplier) < limits.minOrder)
  {
    hide HedgeOnce, Smallest, Times, Scaled, TargetDelta, NoExit;
    BusyUntilQuiet(cfg, limits, s, delta, c, n);
    var contexts := Repeat(c, n);
    RepeatIs(c, n);
    HedgingStops(cfg, limits, s, delta, contexts);
    HedgeOnceContracts(cfg, limits, s, DeltaAfter(cfg, limits, s, delta, contexts), c);
  }

  // ---- The whole pipeline --------------------------------------------------------------------

  /** One pass from an account and a funding snapshot to the delta after the hedge. */
  function MessageOf(cfg: Config, a: AccountData, s: Snapshot, regime: Option<Regime>,
                     previous: Option<RiskState>): Message {
    MessageFor(cfg, Assess(cfg, a, Some(ContextOf(s, regime))), previous)
  }

  /** At 300% funding and above, and only there, the multiplier is zero and the whole
      position is closed, however the limits are set, unless no hedge was recommended: a
      delta within 0.001 of the critical target is then left as it is. */
  lemma PipelineExits(cfg: Config, limits: Limits, a: AccountData, s: Snapshot, regime: Option<Regime>,
                      previous: Option<RiskState>)
    ensures var m := MessageOf(cfg, a, s, regime, previous);
            var delta := Filled(a.netDelta, React(limits, m));
            && (EmergencyExit(m) <==> Abs(Annualized(s.current)) >= 300.0)
            && (m.multiplier == 0.0 <==> EmergencyExit(m))
            && (EmergencyExit(m) ==>
                  && m.state == Critical
                  && delta == (if Abs(cfg.deltaCritical - a.netDelta) < 0.001 then a.netDelta else 0.0))
  {
    ExitEquivalences(s, regime);
  }

  /** Below 300% the multiplier is a proper fraction, so the hedge moves towards the target
      of the risk state and not past it. */
  lemma PipelineHedges(cfg: Config, limits: Limits, a: AccountData, s: Snapshot, regime: Option<Regime>,
                       previous: Option<RiskState>)
    requires 0.0 < limits.minOrder && 0.0 < limits.maxPosition && Abs(Annualized(s.current)) < 300.0
    ensures var m := MessageOf(cfg, a, s, regime, previous);
            var delta, target := Filled(a.netDelta, React(limits, m)), TargetDelta(cfg, m.state);
            && Steady(cfg, m, target)
            && NoExit(m.context.value)
            && Min(a.netDelta, target) <= delta <= Max(a.netDelta, target)
  {
    hide Multiplier, Average, Annualized;
    ExitEquivalences(s, regime);
    var m := MessageOf(cfg, a, s, regime, previous);
    HedgeNeverOvershoots(cfg, limits, m, TargetDelta(cfg, m.state));
  }

  /** The target of each risk state. */
  ghost predicate AtTarget(cfg: Config, s: RiskState, delta: real) {
    && (s == Calm ==> delta == cfg.deltaCalm)
    && (s == Caution ==> delta == cfg.deltaCaution)
    && (s == Danger ==> delta == cfg.deltaDanger)
    && (s == Critical ==> delta == cfg.deltaCritical)
  }

  /** An order within the largest one leaves exactly the unscaled part of the distance; below
      10% funding nothing is scaled, and it reaches the target of its risk state at once. */
  lemma UncappedOrderLeavesTheRest(cfg: Config, limits: Limits, a: AccountData, s: Snapshot, regime: Option<Regime>,
                                   previous: Option<RiskState>, target: real)
    requires 0.0 < limits.minOrder && 0.0 < limits.maxPosition && Abs(Annualized(s.current)) < 300.0
    requires AtTarget(cfg, MessageOf(cfg, a, s, regime, previous).state, target)
    requires React(limits, MessageOf(cfg, a, s, regime, previous)).Some?
    requires Abs(target - a.netDelta) <= limits.maxPosition
    ensures var m := MessageOf(cfg, a, s, regime, previous);
            var delta := Filled(a.netDelta, React(limits, m));
            && Abs(target - delta) == (1.0 - m.multiplier) * Abs(target - a.netDelta)
            && (Abs(Annualized(s.current)) < 10.0 ==> delta == target)
  {
    hide MessageOf, Steady, React, Annualized, Filled, TargetDelta, AtTarget, NoExit;
    var m := MessageOf(cfg, a, s, regime, previous);
    UnscaledBelowTen(cfg, a, s, regime, previous);
    PipelineHedges(cfg, limits, a, s, regime, previous);
    AtItsTarget(cfg, m.state, target);
    OrderLeavesTheRest(cfg, limits, m, target);
  }

  lemma UnscaledBelowTen(cfg: Config, a: AccountData, s: Snapshot, regime: Option<Regime>, previous: Option<RiskState>)
    ensures var m := MessageOf(cfg, a, s, regime, previous);
            m.netDelta == a.netDelta && (m.multiplier == 1.0 <==> Abs(Annualized(s.current)) < 10.0)
  {
    MultiplierInNumbers(Annualized(s.current), Average24h(s));
    hide Multiplier, Annualized, Average;
  }

  lemma AtItsTarget(cfg: Config, s: RiskState, target: real)
    requires AtTarget(cfg, s, target)
    ensures TargetDelta(cfg, s) == target
  {
  }

  lemma OrderLeavesTheRest(cfg: Config, limits: Limits, m: Message, target: real)
    requires 0.0 < limits.minOrder && 0.0 < limits.maxPosition && Steady(cfg, m, target)
    requires React(limits, m).Some? && Abs(target - m.netDelta) <= limits.maxPosition
    ensures var delta := Filled(m.netDelta, React(limits, m));
            && Abs(target - delta) == (1.0 - m.multiplier) * Abs(target - m.netDelta)
            && (m.multiplier == 1.0 ==> delta == target)
  {
    HedgeNeverOvershoots(cfg, limits, m, target);
    ScaledSize(Abs(target - m.netDelta), m.multiplier);
    hide React, Filled, Smallest, Steady;
    var distance := Abs(target - m.netDelta);
    assert (1.0 - m.multiplier) * distance == distance - distance * m.multiplier;
  }

  /** What the defaults do in a calm funding market, in numbers: the target by the debt's part of
      the collateral, reached in one order between 0.001 and 10 bitcoin. */
  lemma DefaultsInNumbers(a: AccountData, s: Snapshot, regime: Option<Regime>, previous: Option<RiskState>)
    requires 0.0 < a.collateral && Abs(Annualized(s.current)) < 10.0
    ensures var delta := Filled(a.netDelta, React(DEFAULT_LIMITS, MessageOf(DEFAULTS, a, s, regime, previous)));
            var debt := a.loan + a.interest;
            var target := if debt < 0.65 * a.collateral then 0.0 else if debt < 0.8 * a.collateral then 0.02
                          else if debt < 0.9 * a.collateral then 0.0 else -0.1;
            var distance := Abs(target - a.netDelta);
            && (distance < 0.001 ==> delta == a.netDelta)
            && (0.001 <= distance <= 10.0 ==> delta == target)
            && (10.0 < distance ==> Abs(delta - a.netDelta) == 10.0 && Abs(target - delta) == distance - 10.0)
  {
    var m := MessageOf(DEFAULTS, a, s, regime, previous);
    var debt := a.loan + a.interest;
    var target := if debt < 0.65 * a.collateral then 0.0 else if debt < 0.8 * a.collateral then 0.02
                  else if debt < 0.9 * a.collateral then 0.0 else -0.1;
    DefaultTarget(a, s, regime, previous, target);
    UnscaledBelowTen(DEFAULTS, a, s, regime, previous);
    hide MessageOf, Annualized, TargetDelta;
    PipelineHedges(DEFAULTS, DEFAULT_LIMITS, a, s, regime, previous);
    HedgeNeverOvershoots(DEFAULTS, DEFAULT_LIMITS, m, target);
    ScaledByOne(Abs(target - a.netDelta));
    hide React, Steady, Scaled;
  }

  lemma ScaledByOne(distance: real)
    ensures Scaled(distance, 1.0) == distance
  {
  }

  lemma DefaultTarget(a: AccountData, s: Snapshot, regime: Option<Regime>, previous: Option<RiskState>, target: real)
    requires 0.0 < a.collateral && Abs(Annualized(s.current)) < 10.0
    requires var debt := a.loan + a.interest;
             target == if debt < 0.65 * a.collateral then 0.0 else if debt < 0.8 * a.collateral then 0.02
                       else if debt < 0.9 * a.collateral then 0.0 else -0.1
    ensures TargetDelta(DEFAULTS, MessageOf(DEFAULTS, a, s, regime, previous).state) == target
  {
    StateFromAccountAndFunding(DEFAULTS, a, s, regime);
    hide Annualized, ContextOf;
  }

  /** With the default targets, a short of a tenth of a bitcoin survives every emergency. */
  lemma EmergencyCanLeaveTheShort(a: AccountData, s: Snapshot)
    requires a.netDelta == -0.1 && Abs(Annualized(s.current)) >= 300.0
    ensures React(DEFAULT_LIMITS, MessageOf(DEFAULTS, a, s, None, None)).None?
  {
    ExitEquivalences(s, None);
  }

  // ---- The hedger's books ----------------------------------------------------------------------

  /** What the exchange made of an order: taken, not attempted for want of credentials, or
      failed. */
  datatype Outcome = Placed | Simulated | Failed

  datatype Trade = Trade(order: Order, outcome: Outcome)

  function Position(trades: seq<Trade>): real {
    if |trades| == 0 then 0.0 else
      var t, before := trades[|trades| - 1], Position(trades[..|trades| - 1]);
      if t.outcome == Placed then Filled(before, Some(t.order)) else before
  }

  function Count(trades: seq<Trade>, outcome: Outcome): nat {
    if |trades| == 0 then 0 else
      Count(trades[..|trades| - 1], outcome) + (if trades[|trades| - 1].outcome == outcome then 1 else 0)
  }

  lemma PositionSnoc(log: seq<Trade>, t: Trade)
    ensures Position(log + [t]) ==
            if t.outcome == Placed then Filled(Position(log), Some(t.order)) else Position(log)
  {
    assert (log + [t])[..|log|] == log;
  }

  lemma CountSnoc(log: seq<Trade>, t: Trade, o: Outcome)
    ensures Count(log + [t], o) == Count(log, o) + (if t.outcome == o then 1 else 0)
  {
    assert (log + [t])[..|log|] == log;
  }

  class Books {
    var currentPosition: real
    var orders: seq<Trade>
    var ordersPlaced: nat
    var ordersFailed: nat
    ghost var log: seq<Trade>

    /** The position and the counters are those of every trade ever attempted, although
        only the last hundred are kept. */
    ghost predicate Valid()
      reads this
    {
      && currentPosition == Position(log)
      && orders == LastUpTo(log, 100)
      && ordersPlaced == Count(log, Placed)
      && ordersFailed == Count(log, Failed)
    }

    constructor ()
      ensures Valid() && log == [] && currentPosition == 0.0 && ordersPlaced == ordersFailed == 0
    {
      currentPosition, orders, ordersPlaced, ordersFailed, log := 0.0, [], 0, 0, [];
    }

    method ExecuteHedge(order: Order, outcome: Outcome)
      requires Valid()
      modifies this
      ensures Valid() && log == old(log) + [Trade(order, outcome)]
    {
      hide Position, Count;
      match outcome {
        case Placed =>
          if order.buy {
            currentPosition := currentPosition + order.size;
          } else {
            currentPosition := currentPosition - order.size;
          }
          ordersPlaced := ordersPlaced + 1;
        case Simulated =>
        case Failed =>
          ordersFailed := ordersFailed + 1;
      }
      PositionSnoc(log, Trade(order, outcome));
      CountSnoc(log, Trade(order, outcome), Placed);
      CountSnoc(log, Trade(order, outcome), Failed);
      LastUpToAppends(log, Trade(order, outcome), 100);
      orders := orders + [Trade(order, outcome)];
      if |orders| > 100 {
        orders := orders[|orders| - 100..];
      }
      log := log + [Trade(order, outcome)];
    }
  }
}
