/** The position manager: how it sizes a rehedge, what its loops do to the two perpetual legs,
    and what its P&L figures then show. */
module PositionManager {
  import opened Basics
  import opened PnlCalculator
  import Funding

  // ---- Sizing a rehedge ----------------------------------------------------------------

  function HedgeRatio(volatility: real): real {
    if volatility < 0.02 then 0.20 else if volatility < 0.04 then 0.40 else 0.60
  }

  /** Regimes arrive as text; a text the table does not know scales nothing. */
  function FundingScale(regime: string): real {
    if regime == "HEATED" then 0.5
    else if regime == "MANIA" then 0.2
    else if regime == "EXTREME" then 0.0
    else 1.0
  }

  function TargetHedge(volatility: real, regime: string): real {
    HedgeRatio(volatility) * FundingScale(regime)
  }

  /** How the funding engine writes a regime. */
  function Text(r: Funding.Regime): string {
    match r
    case Neutral => "neutral"
    case Normal => "normal"
    case Heated => "heated"
    case Mania => "mania"
    case Extreme => "extreme"
  }

  datatype Decision = Decision(long: real, short: real)

  /** Towards a delta of zero: part by changing the long leg, part by changing the short. */
  function Decide(delta: real, hedge: real): Decision {
    var adjustment := 0.0 - delta;
    if adjustment < 0.0 then Decision(-Abs(adjustment) * (1.0 - hedge), Abs(adjustment) * hedge)
    else Decision(adjustment * (1.0 - hedge), -adjustment * hedge)
  }

  /** A rehedge only acts when both a leg and the sum of the legs move by more than 0.001. */
  predicate Acts(d: Decision) {
    (Abs(d.long) > 0.001 || Abs(d.short) > 0.001) && Abs(d.long + d.short) > 0.001
  }

  /** The exposure the order sent to the exchange buys, negative when it sells. */
  function Ordered(d: Decision): real {
    d.long + d.short
  }

  lemma HedgeRange(volatility: real, regime: string)
    ensures var h := TargetHedge(volatility, regime);
            0.0 <= h <= 0.6 && 0.2 <= Abs(1.0 - 2.0 * h)
    ensures TargetHedge(volatility, regime) > 0.5 <==> volatility >= 0.04 && FundingScale(regime) == 1.0
  {
  }

  /** The hedge in numbers. */
  lemma HedgeInNumbers(volatility: real)
    ensures var h := TargetHedge(volatility, "NORMAL");
            && (volatility < 0.02 ==> h == 0.2) && (0.02 <= volatility < 0.04 ==> h == 0.4)
            && (0.04 <= volatility ==> h == 0.6)
            && TargetHedge(volatility, "HEATED") == h / 2.0
            && TargetHedge(volatility, "MANIA") == h / 5.0
            && TargetHedge(volatility, "EXTREME") == 0.0
  {
  }

  /** No regime the funding engine sends is in the table, which is keyed in capitals. */
  lemma FundingNeverScalesTheHedge(volatility: real, r: Funding.Regime)
    ensures TargetHedge(volatility, Text(r)) == HedgeRatio(volatility)
  {
    var text := Text(r);
    assert text[0] in {'n', 'h', 'm', 'e'};
    assert "HEATED"[0] == 'H' && "MANIA"[0] == 'M' && "EXTREME"[0] == 'E';
  }

  function Portion(delta: real, share: real): real {
    delta * share
  }

  /** Both branches of a decision are one formula. */
  lemma DecisionIsLinear(delta: real, hedge: real)
    ensures Decide(delta, hedge) == Decision(-Portion(delta, 1.0 - hedge), Portion(delta, hedge))
    ensures Decide(delta, hedge).short - Decide(delta, hedge).long == delta
    ensures Ordered(Decide(delta, hedge)) == -Portion(delta, 1.0 - 2.0 * hedge)
  {
    var h := 1.0 - hedge;
    assert -delta * h == -(delta * h) && -delta * hedge == -(delta * hedge);
    assert delta * h == delta - delta * hedge;
    assert delta * (1.0 - 2.0 * hedge) == delta - 2.0 * (delta * hedge);
  }

  lemma SizeOfPortion(delta: real, share: real)
    ensures Abs(Portion(delta, share)) == Abs(delta) * Abs(share)
    ensures 0.0 < delta && 0.0 < share ==> 0.0 < Portion(delta, share)
    ensures delta == 0.0 || share == 0.0 ==> Portion(delta, share) == 0.0
  {
    if delta < 0.0 { assert -delta * share == -(delta * share); }
    if share < 0.0 { assert delta * -share == -(delta * share); assert -delta * -share == delta * share; }
    MulNonNegative(Abs(delta), Abs(share));
    if 0.0 < delta && 0.0 < share { MulPositive(delta, share); }
  }

  lemma PortionGrows(delta: real, small: real, large: real)
    requires Abs(small) <= Abs(large)
    ensures Abs(Portion(delta, small)) <= Abs(Portion(delta, large))
  {
    SizeOfPortion(delta, small);
    SizeOfPortion(delta, large);
    var a, b, c := Abs(delta), Abs(small), Abs(large);
    MulNonNegative(a, c - b);
    assert a * (c - b) == a * c - a * b;
  }

  /** A rehedge that acts puts the book at delta zero, and it acts exactly when the two
      adjustments differ enough: the test of the single legs never decides. */
  lemma RehedgeNeutralises(delta: real, volatility: real, regime: string)
    ensures var d := Decide(delta, TargetHedge(volatility, regime));
            delta + d.long - d.short == 0.0
    ensures var h := TargetHedge(volatility, regime);
            Acts(Decide(delta, h)) <==> Abs(Portion(delta, 1.0 - 2.0 * h)) > 0.001
  {
    var h := TargetHedge(volatility, regime);
    HedgeRange(volatility, regime);
    hide TargetHedge, Decide, Portion;
    DecisionIsLinear(delta, h);
    var d := Decide(delta, h);
    var sum := Portion(delta, 1.0 - 2.0 * h);
    PortionGrows(delta, 1.0 - 2.0 * h, 1.0 - h);
    ActsBySum(d, Abs(sum));
  }

  lemma ActsBySum(d: Decision, sum: real)
    requires Abs(d.long + d.short) == sum <= Abs(d.long)
    ensures Acts(d) <==> sum > 0.001
  {
  }

  /** But the order adds up the two adjustments instead of offsetting them, so on the
      exchange the exposure keeps twice the hedged part: it reaches zero only at a hedge
      ratio of zero, and above one half the order enlarges it. */
  lemma OrderLeavesTwiceTheHedge(delta: real, volatility: real, regime: string)
    requires delta != 0.0
    ensures var h := TargetHedge(volatility, regime);
            var after := delta + Ordered(Decide(delta, h));
            && after == 2.0 * h * delta
            && (after == 0.0 <==> FundingScale(regime) == 0.0)
            && (Abs(after) > Abs(delta) <==> volatility >= 0.04 && FundingScale(regime) == 1.0)
  {
    var h := TargetHedge(volatility, regime);
    HedgeRange(volatility, regime);
    assert h == 0.0 <==> FundingScale(regime) == 0.0;
    hide TargetHedge, FundingScale, Decide;
    DecisionIsLinear(delta, h);
    assert Portion(delta, 1.0 - 2.0 * h) == delta - 2.0 * h * delta;
    assert Portion(delta, 2.0 * h) == 2.0 * h * delta;
    SizeOfPortion(delta, 2.0 * h);
    if h > 0.0 { MulPositive(Abs(delta), 2.0 * h); }
    if h > 0.5 {
      MulPositive(Abs(delta), 2.0 * h - 1.0);
    } else {
      MulNonNegative(Abs(delta), 1.0 - 2.0 * h);
    }
    hide Portion;
  }

  // ---- The legs under every interleaving of the loops -------------------------------------

  /** The legs, and the decisions taken but not yet applied: a rehedge publishes its order in
      between. */
  datatype Legs = Legs(long: real, short: real, pending: seq<Decision>)

  /** What a task does without yielding: decide a rehedge, apply a decision, abandon one whose
      order could not be published, or set both legs to zero, as profit taking and emergency
      closes end. */
  datatype Turn = Plan(volatility: real, regime: string) | Apply(which: nat) | Abandon(which: nat) | Flatten

  function Delta(spot: real, l: Legs): real {
    spot + l.long - l.short
  }

  function Take(spot: real, l: Legs, t: Turn): Legs {
    match t
    case Plan(volatility, regime) =>
      var d := Decide(Delta(spot, l), TargetHedge(volatility, regime));
      if Acts(d) then l.(pending := l.pending + [d]) else l
    case Apply(which) =>
      if which < |l.pending| then
        var d := l.pending[which];
        Legs(l.long + d.long, l.short + d.short, l.pending[..which] + l.pending[which + 1..])
      else l
    case Abandon(which) =>
      if which < |l.pending| then l.(pending := l.pending[..which] + l.pending[which + 1..]) else l
    case Flatten => l.(long := 0.0, short := 0.0)
  }

  function LegsAfter(spot: real, start: Legs, turns: seq<Turn>): Legs {
    if |turns| == 0 then start
    else Take(spot, LegsAfter(spot, start, turns[..|turns| - 1]), turns[|turns| - 1])
  }

  /** No rehedge is decided while another is under way. */
  predicate Serial(spot: real, start: Legs, turns: seq<Turn>) {
    |turns| == 0 ||
    (var before := turns[..|turns| - 1];
     Serial(spot, start, before) &&
     (turns[|turns| - 1].Plan? ==> LegsAfter(spot, start, before).pending == []))
  }

  ghost predicate Flattened(turns: seq<Turn>) {
    exists i :: 0 <= i < |turns| && turns[i].Flatten?
  }

  lemma FlattenedSnoc(turns: seq<Turn>)
    requires |turns| != 0
    ensures Flattened(turns) <==> turns[|turns| - 1].Flatten? || Flattened(turns[..|turns| - 1])
  {
    var before := turns[..|turns| - 1];
    if i :| 0 <= i < |before| && before[i].Flatten? { assert turns[i].Flatten?; }
    if i :| 0 <= i < |turns| && turns[i].Flatten? {
      assert i < |before| ==> before[i].Flatten?;
    }
  }

  /** At delta zero or bare, and bare while a rehedge is under way; `sold` is whether the long
      leg is no longer positive. */
  ghost predicate Balanced(spot: real, l: Legs, sold: bool) {
    && (Delta(spot, l) == 0.0 || Delta(spot, l) == spot)
    && |l.pending| <= 1
    && (|l.pending| == 1 ==>
          && Delta(spot, l) == spot && l.pending[0].short - l.pending[0].long == spot
          && l.pending[0].long < 0.0 <= l.pending[0].short)
    && 0.0 <= l.short
    && (sold ==> l.long <= 0.0)
    && (sold && Delta(spot, l) == 0.0 ==> l.long < 0.0)
  }

  lemma PlannedDecision(spot: real, l: Legs, volatility: real, regime: string)
    requires 0.0 < spot && (Delta(spot, l) == 0.0 || Delta(spot, l) == spot)
    ensures var d := Decide(Delta(spot, l), TargetHedge(volatility, regime));
            Acts(d) ==> Delta(spot, l) == spot && d.short - d.long == spot && d.long < 0.0 <= d.short
  {
    var h := TargetHedge(volatility, regime);
    HedgeRange(volatility, regime);
    hide TargetHedge;
    hide Decide, Portion;
    var delta := Delta(spot, l);
    hide Delta;
    DecisionIsLinear(delta, h);
    SizeOfPortion(delta, 1.0 - h);
    SizeOfPortion(delta, h);
  }

  lemma TakeKeepsBalanced(spot: real, l: Legs, t: Turn, sold: bool)
    requires 0.0 < spot && Balanced(spot, l, sold) && (t.Plan? ==> l.pending == [])
    ensures Balanced(spot, Take(spot, l, t), sold || t.Flatten?)
  {
    if t.Plan? {
      PlannedDecision(spot, l, t.volatility, t.regime);
      hide Decide, TargetHedge, Acts;
    }
  }

  /** A rehedge that is abandoned leaves everything as it was before it was decided. */
  lemma AbandonedRehedgeLeavesNothing(spot: real, l: Legs, volatility: real, regime: string)
    ensures var planned := Take(spot, l, Plan(volatility, regime));
            planned != l ==> Take(spot, planned, Abandon(|l.pending|)) == l
  {
  }

  /** However the loops interleave and whatever they fail to publish, as long as rehedges do
      not overlap: the delta of the book
      is zero or that of the bare spot holding, the short leg is never negative, and once the
      legs have been flattened the long leg is never positive again; whenever the delta is
      then zero, the long leg is oversold. */
  lemma {:induction false} LegsStayBalanced(spot: real, start: Legs, turns: seq<Turn>, sold: bool)
    requires 0.0 < spot && Serial(spot, start, turns) && Balanced(spot, start, sold)
    ensures Balanced(spot, LegsAfter(spot, start, turns), sold || Flattened(turns))
  {
    if |turns| != 0 {
      hide Take, Balanced;
      LegsStayBalanced(spot, start, turns[..|turns| - 1], sold);
      FlattenedSnoc(turns);
      TakeKeepsBalanced(spot, LegsAfter(spot, start, turns[..|turns| - 1]), turns[|turns| - 1],
                        sold || Flattened(turns[..|turns| - 1]));
    }
  }

  /** So after the first close the long leg never shows any P&L again, at any mark. */
  lemma LongShowsNothingOnceFlat(spot: real, start: Legs, turns: seq<Turn>, mark: real, entry: real)
    requires 0.0 < spot && Serial(spot, start, turns) && Flattened(turns) && Balanced(spot, start, false)
    ensures PerpPnl(LegsAfter(spot, start, turns).long, mark, entry, LongPerp) == 0.0
  {
    LegsStayBalanced(spot, start, turns, false);
  }

  function Plans(n: nat, volatility: real, regime: string): seq<Turn> {
    if n == 0 then [] else Plans(n - 1, volatility, regime) + [Plan(volatility, regime)]
  }

  function Applies(turns: seq<Turn>, n: nat): seq<Turn> {
    if n == 0 then turns else Applies(turns, n - 1) + [Apply(0)]
  }

  lemma LegsSnoc(spot: real, start: Legs, turns: seq<Turn>, t: Turn)
    ensures LegsAfter(spot, start, turns + [t]) == Take(spot, LegsAfter(spot, start, turns), t)
  {
    assert (turns + [t])[..|turns|] == turns;
  }

  ghost predicate Waiting(l: Legs, d: Decision, n: nat) {
    |l.pending| == n && forall i :: 0 <= i < n ==> l.pending[i] == d
  }

  lemma {:induction false} PlansPileUp(spot: real, start: Legs, n: nat, volatility: real, regime: string)
    requires start.pending == [] && Acts(Decide(Delta(spot, start), TargetHedge(volatility, regime)))
    ensures var l := LegsAfter(spot, start, Plans(n, volatility, regime));
            && l.long == start.long && l.short == start.short && Delta(spot, l) == Delta(spot, start)
            && Waiting(l, Decide(Delta(spot, start), TargetHedge(volatility, regime)), n)
  {
    hide Decide, TargetHedge, Acts;
    if n != 0 {
      PlansPileUp(spot, start, n - 1, volatility, regime);
      LegsSnoc(spot, start, Plans(n - 1, volatility, regime), Plan(volatility, regime));
    }
  }

  lemma ApplyFirst(spot: real, l: Legs, d: Decision, n: nat)
    requires n != 0 && Waiting(l, d, n)
    ensures var l' := Take(spot, l, Apply(0));
            Waiting(l', d, n - 1) && Delta(spot, l') == Delta(spot, l) + d.long - d.short
  {
  }

  /** Rehedges that overlap each apply the whole correction: `n` of them decided at one delta
      leave it at 1 - n times itself. */
  lemma {:induction false} OverlappingRehedgesOvershoot(spot: real, start: Legs, n: nat, k: nat,
                                                       volatility: real, regime: string)
    requires k <= n && start.pending == []
    requires Acts(Decide(Delta(spot, start), TargetHedge(volatility, regime)))
    ensures var l := LegsAfter(spot, start, Applies(Plans(n, volatility, regime), k));
            && Delta(spot, l) == Delta(spot, start) - Times(k, Delta(spot, start))
            && Waiting(l, Decide(Delta(spot, start), TargetHedge(volatility, regime)), n - k)
  {
    hide Decide, TargetHedge, Acts, Times, Take, Waiting, Portion, LegsAfter, Plans, Delta;
    var delta, hedge := Delta(spot, start), TargetHedge(volatility, regime);
    OneMore(k - 1, delta);
    if k == 0 {
      PlansPileUp(spot, start, n, volatility, regime);
    } else {
      var turns := Applies(Plans(n, volatility, regime), k - 1);
      OverlappingRehedgesOvershoot(spot, start, n, k - 1, volatility, regime);
      LegsSnoc(spot, start, turns, Apply(0));
      ApplyFirst(spot, LegsAfter(spot, start, turns), Decide(delta, hedge), n - k + 1);
      DecisionIsLinear(delta, hedge);
    }
  }

  // ---- What a rehedge or a close does to the book ---------------------------------------------

  function Adjustment(leg: Leg, price: real, change: real): seq<Event> {
    if change > 0.0 then [Increase(leg, price, change)]
    else if change < 0.0 then [Drop(leg, price, -change, true)]
    else []
  }

  function RehedgeEvents(price: real, d: Decision): seq<Event> {
    if Acts(d) then Adjustment(LongPerp, price, d.long) + Adjustment(ShortPerp, price, d.short) else []
  }

  function DropBoth(price: real, long: real, short: real): seq<Event> {
    [Drop(LongPerp, price, long, false)] + [Drop(ShortPerp, price, short, false)]
  }

  /** Profit taking closes what is held of both legs and drops what is oversold, unless the
      legs are within 0.001 of each other: then it drops both. */
  function TakeProfitEvents(price: real, long: real, short: real): seq<Event> {
    if Abs(long - short) > 0.001
    then [Close(price, long, short)] + DropBoth(price, Min(0.0, long), Min(0.0, short))
    else DropBoth(price, long, short)
  }

  lemma RunSnoc(b: Book, events: seq<Event>, e: Event)
    ensures Run(b, events + [e]) == Step(Run(b, events), e)
  {
    assert (events + [e])[..|events|] == events;
  }

  lemma RunOne(b: Book, e: Event)
    ensures Run(b, [e]) == Step(b, e)
  {
    RunSnoc(b, [], e);
    assert [] + [e] == [e];
  }

  function Adjusted(b: Book, leg: Leg, price: real, change: real): Book
    requires leg != Spot
  {
    var l := if leg == LongPerp then b.long else b.short;
    var l' := if change == 0.0 then l
              else LegBook(UpdatedEntry(l.entry, price, l.quantity, l.quantity + change), l.quantity + change);
    if leg == LongPerp then b.(long := l') else b.(short := l')
  }

  lemma AdjustmentSteps(b: Book, leg: Leg, price: real, change: real)
    requires leg != Spot && change != 0.0
    ensures Step(b, Adjustment(leg, price, change)[0]) == Adjusted(b, leg, price, change)
  {
    hide UpdatedEntry;
    NoMove(if leg == LongPerp then b.short else b.long, price);
  }

  lemma AdjustmentRuns(b: Book, events: seq<Event>, leg: Leg, price: real, change: real)
    requires leg != Spot
    ensures Run(b, events + Adjustment(leg, price, change)) == Adjusted(Run(b, events), leg, price, change)
  {
    hide UpdatedEntry, Step, Moved;
    if change == 0.0 {
      assert events + [] == events;
    } else {
      AdjustmentSteps(Run(b, events), leg, price, change);
      assert Adjustment(leg, price, change) == [Adjustment(leg, price, change)[0]];
      RunSnoc(b, events, Adjustment(leg, price, change)[0]);
    }
  }

  lemma RehedgeRuns(b: Book, price: real, d: Decision)
    ensures Run(b, RehedgeEvents(price, d)) ==
            if Acts(d) then Adjusted(Adjusted(b, LongPerp, price, d.long), ShortPerp, price, d.short) else b
  {
    hide Adjusted, Acts;
    if Acts(d) {
      AdjustmentRuns(b, [], LongPerp, price, d.long);
      assert [] + Adjustment(LongPerp, price, d.long) == Adjustment(LongPerp, price, d.long);
      AdjustmentRuns(b, Adjustment(LongPerp, price, d.long), ShortPerp, price, d.short);
    }
  }

  function Flat(b: Book): Book {
    b.(long := LegBook(b.long.entry, 0.0), short := LegBook(b.short.entry, 0.0))
  }

  lemma DropBothRuns(b: Book, events: seq<Event>, price: real, long: real, short: real)
    requires Run(b, events).long.quantity == long && Run(b, events).short.quantity == short
    ensures Run(b, events + DropBoth(price, long, short)) == Flat(Run(b, events))
  {
    var first, second := Drop(LongPerp, price, long, false), Drop(ShortPerp, price, short, false);
    RunSnoc(b, events, first);
    RunSnoc(b, events + [first], second);
    assert events + DropBoth(price, long, short) == events + [first] + [second];
  }

  /** What taking profit realises. */
  function Taken(b: Book, price: real): real {
    if Abs(b.long.quantity - b.short.quantity) > 0.001
    then RealizedBy(b.long.entry, b.short.entry, b.long.quantity, b.short.quantity, price)
    else 0.0
  }

  lemma TakeProfitRuns(b: Book, price: real)
    ensures Run(b, TakeProfitEvents(price, b.long.quantity, b.short.quantity)) ==
            Flat(b).(realized := b.realized + Taken(b, price))
  {
    var long, short := b.long.quantity, b.short.quantity;
    if Abs(long - short) > 0.001 {
      var close := Close(price, long, short);
      RunOne(b, close);
      DropBothRuns(b, [close], price, Min(0.0, long), Min(0.0, short));
    } else {
      assert Run(b, []) == b;
      DropBothRuns(b, [], price, long, short);
      assert [] + DropBoth(price, long, short) == DropBoth(price, long, short);
    }
  }

  /** Dropping both legs at once keeps the shown P&L exactly when what the legs show cancels;
      with two legs of one size that is when their entry prices agree, whatever the price. */
  lemma DropBothKeepsPnlIff(b: Book, price: real)
    ensures var l, s := b.long, b.short;
            var b' := Run(b, DropBoth(price, l.quantity, s.quantity));
            && (Accounted(b', price) == Accounted(b, price) <==>
                  (price - l.entry) * Max(l.quantity, 0.0) == (price - s.entry) * Max(s.quantity, 0.0))
            && (l.quantity == s.quantity > 0.0 ==>
                  (Accounted(b', price) == Accounted(b, price) <==> l.entry == s.entry))
  {
    var l, s := b.long, b.short;
    assert Run(b, []) == b && [] + DropBoth(price, l.quantity, s.quantity) == DropBoth(price, l.quantity, s.quantity);
    DropBothRuns(b, [], price, l.quantity, s.quantity);
    AccountedIsShown(b, price);
    FlatShowsRealized(b, price);
    hide Accounted, Flat, Run, DropBoth;
    if l.quantity == s.quantity > 0.0 {
      assert (price - l.entry) * l.quantity - (price - s.entry) * s.quantity == (s.entry - l.entry) * l.quantity;
      ProductIsZeroIff(s.entry - l.entry, l.quantity);
    }
  }

  lemma FlatShowsRealized(b: Book, price: real)
    ensures Accounted(Flat(b), price) == b.realized
  {
  }

  /** The P&L that profit taking publishes counts the realised profit twice, since the legs
      still show it; what is shown before and after is the same. */
  lemma ProfitIsPublishedTwice(b: Book, price: real)
    requires Abs(b.long.quantity - b.short.quantity) > 0.001
    ensures var published := Accounted(b.(realized := b.realized + Taken(b, price)), price);
            var after := Accounted(Run(b, TakeProfitEvents(price, b.long.quantity, b.short.quantity)), price);
            && after == Accounted(b, price)
            && published == after + Taken(b, price)
            && (published == after <==> Shown(b.long, price) == Shown(b.short, price))
  {
    var taken := Taken(b, price);
    TakeProfitRuns(b, price);
    FlatShowsRealized(b.(realized := b.realized + taken), price);
    assert Flat(b).(realized := b.realized + taken) == Flat(b.(realized := b.realized + taken));
    AccountedIsShown(b, price);
    TakenIsShown(b, price);
    hide Accounted, Flat, Shown, Taken, Run, TakeProfitEvents;
    AccountedIsShown(b.(realized := b.realized + taken), price);
  }

  lemma TakenIsShown(b: Book, price: real)
    requires Abs(b.long.quantity - b.short.quantity) > 0.001
    ensures Taken(b, price) == Shown(b.long, price) - Shown(b.short, price)
  {
    var l, s := b.long, b.short;
    if l.quantity <= 0.0 { assert (price - l.entry) * 0.0 == 0.0; }
    if s.quantity <= 0.0 { assert (price - s.entry) * 0.0 == 0.0; }
    assert (s.entry - price) * s.quantity == -((price - s.entry) * s.quantity);
  }

  // ---- What the profit events announce ------------------------------------------------------

  /** What the manager does to the book. `sent` is whether the profit event goes out. */
  datatype Action =
    | Rehedge(price: real, decision: Decision)
    | EmergencyClose(price: real)
    | TakeProfit(price: real, sent: bool)

  /** A profit event that cannot be published leaves the legs in place, realised or not. */
  function Act(b: Book, a: Action): Book {
    match a
    case Rehedge(price, d) => Run(b, RehedgeEvents(price, d))
    case EmergencyClose(price) => Run(b, DropBoth(price, b.long.quantity, b.short.quantity))
    case TakeProfit(price, sent) =>
      if sent then Run(b, TakeProfitEvents(price, b.long.quantity, b.short.quantity))
      else b.(realized := b.realized + Taken(b, price))
  }

  function BookAfter(b: Book, actions: seq<Action>): Book {
    if |actions| == 0 then b else Act(BookAfter(b, actions[..|actions| - 1]), actions[|actions| - 1])
  }

  /** The profits realised, losses included. */
  function Profits(b: Book, actions: seq<Action>): seq<real> {
    if |actions| == 0 then [] else
      var before, last := actions[..|actions| - 1], actions[|actions| - 1];
      Profits(b, before) + (if last.TakeProfit? then [Taken(BookAfter(b, before), last.price)] else [])
  }

  /** Profit taking realises; it and an emergency close leave nothing held, except that a profit
      event that cannot be published leaves the legs as they were. */
  lemma ActRealizes(b: Book, a: Action)
    ensures Act(b, a).realized == b.realized + (if a.TakeProfit? then Taken(b, a.price) else 0.0)
    ensures a.EmergencyClose? || (a.TakeProfit? && a.sent) ==>
              Act(b, a).long.quantity == Act(b, a).short.quantity == 0.0
    ensures a.TakeProfit? && !a.sent ==> Act(b, a).long == b.long && Act(b, a).short == b.short
  {
    match a {
      case Rehedge(price, d) => RehedgeRuns(b, price, d);
      case EmergencyClose(price) =>
        assert Run(b, []) == b;
        assert [] + DropBoth(price, b.long.quantity, b.short.quantity)
            == DropBoth(price, b.long.quantity, b.short.quantity);
        DropBothRuns(b, [], price, b.long.quantity, b.short.quantity);
      case TakeProfit(price, _) => TakeProfitRuns(b, price);
    }
    hide Run, RehedgeEvents, DropBoth, TakeProfitEvents, Taken, Acts;
  }

  /** Two legs within 0.001 of each other are dropped: nothing is realised, whatever they show. */
  lemma NearlyEqualLegsRealizeNothing(b: Book, price: real)
    requires Abs(b.long.quantity - b.short.quantity) <= 0.001
    ensures Act(b, TakeProfit(price, true)) == Flat(b)
  {
    TakeProfitRuns(b, price);
    hide Run, TakeProfitEvents;
  }

  /** The realised counter moves with profit taking alone, and is the sum of what it took. */
  lemma {:induction false} CounterIsSumOfProfits(b: Book, actions: seq<Action>)
    ensures BookAfter(b, actions).realized == b.realized + Sum(Profits(b, actions))
  {
    if |actions| != 0 {
      hide Act, Taken;
      var before, last := actions[..|actions| - 1], actions[|actions| - 1];
      CounterIsSumOfProfits(b, before);
      ActRealizes(BookAfter(b, before), last);
      var profits := Profits(b, before);
      if last.TakeProfit? {
        assert Profits(b, actions) == profits + [Taken(BookAfter(b, before), last.price)];
        assert Profits(b, actions)[..|profits|] == profits;
      } else {
        assert Profits(b, actions) == profits;
      }
    }
  }

  predicate Announces(a: Action) {
    a.TakeProfit? && a.sent
  }

  /** What the loan and the reserves are told of in all: each event carries the counter of
      everything realised so far, and they drop one that is not positive. */
  function Heard(b: Book, actions: seq<Action>): real {
    if |actions| == 0 then 0.0 else
      Heard(b, actions[..|actions| - 1])
      + (if Announces(actions[|actions| - 1]) then Max(0.0, BookAfter(b, actions).realized) else 0.0)
  }

  ghost predicate NothingHeardYet(b: Book, actions: seq<Action>, n: nat)
    requires n <= |actions|
  {
    forall i :: 0 <= i < n && Announces(actions[i]) ==> BookAfter(b, actions[..i + 1]).realized <= 0.0
  }

  lemma {:induction false} HeardIsZeroIff(b: Book, actions: seq<Action>)
    ensures 0.0 <= Heard(b, actions)
    ensures Heard(b, actions) == 0.0 <==> NothingHeardYet(b, actions, |actions|)
  {
    if |actions| != 0 {
      hide Announces, BookAfter, NothingHeardYet;
      var n := |actions| - 1;
      HeardIsZeroIff(b, actions[..n]);
      PrefixHeard(b, actions, n);
      LastHeard(b, actions);
    }
  }

  lemma LastHeard(b: Book, actions: seq<Action>)
    requires |actions| != 0
    ensures var n := |actions| - 1;
            NothingHeardYet(b, actions, n + 1) <==>
            NothingHeardYet(b, actions, n) && (Announces(actions[n]) ==> BookAfter(b, actions).realized <= 0.0)
  {
    hide Announces, BookAfter;
    assert actions[..|actions|] == actions;
  }

  lemma PrefixHeard(b: Book, actions: seq<Action>, n: nat)
    requires n <= |actions|
    ensures NothingHeardYet(b, actions[..n], n) <==> NothingHeardYet(b, actions, n)
  {
    hide Announces, BookAfter;
    assert forall i :: 0 <= i < n ==> actions[..n][..i + 1] == actions[..i + 1] && actions[..n][i] == actions[i];
  }

  /** Over any run that ends with an announcement, the recipients have been told of at least what
      was realised, and of exactly that if and only if no earlier announcement was positive:
      every profit is announced again with each event that follows it. */
  lemma RecipientsHearRealizedIff(b: Book, actions: seq<Action>)
    requires |actions| != 0 && Announces(actions[|actions| - 1])
    ensures var realized := Max(0.0, BookAfter(b, actions).realized);
            && realized <= Heard(b, actions)
            && (Heard(b, actions) == realized <==> NothingHeardYet(b, actions, |actions| - 1))
  {
    hide Act;
    HeardIsZeroIff(b, actions[..|actions| - 1]);
    PrefixHeard(b, actions, |actions| - 1);
  }

  /** A profit whose event cannot be published is realised again by the next taking. */
  lemma UnsentProfitIsTakenAgain(b: Book, price: real)
    ensures var again := BookAfter(b, [TakeProfit(price, false)] + [TakeProfit(price, true)]);
            again.realized == b.realized + 2.0 * Taken(b, price)
  {
    var first, second := TakeProfit(price, false), TakeProfit(price, true);
    assert ([first] + [second])[..1] == [first] && [first][..0] == [];
    assert BookAfter(b, [first]) == Act(b, first);
    ActRealizes(Act(b, first), second);
    hide Run;
  }

  // ---- The service as it starts ----------------------------------------------------------------

  const SPOT := 0.27
  const OPENING := OpenBook(0.213, 0.213)
  const DEFAULT_VOLATILITY := 0.02

  /** The decision for a book at the default volatility. */
  function DefaultDecision(b: Book): Decision {
    Decide(SPOT + b.long.quantity - b.short.quantity, TargetHedge(DEFAULT_VOLATILITY, "NORMAL"))
  }

  /** The run theorems hold from the opening legs, and from what any such run saved. */
  lemma OpeningIsBare(turns: seq<Turn>)
    requires Serial(SPOT, Legs(0.213, 0.213, []), turns)
    ensures var l := LegsAfter(SPOT, Legs(0.213, 0.213, []), turns);
            Balanced(SPOT, l, Flattened(turns)) && Balanced(SPOT, l.(pending := []), Flattened(turns))
  {
    LegsStayBalanced(SPOT, Legs(0.213, 0.213, []), turns, false);
  }

  /** The first rehedge of the service, at a price of 106000, sells 0.162 of the long leg: a loss
      of $1620 disappears from the P&L. */
  lemma RehedgeForgoesPnl(events: seq<Event>)
    requires events == RehedgeEvents(106000.0, DefaultDecision(OPENING))
    ensures DefaultDecision(OPENING) == Decision(-0.162, 0.108)
    ensures Accounted(OPENING, 106000.0) == 0.0
    ensures Accounted(Run(OPENING, events), 106000.0) == 1620.0
    ensures Fair(Run(OPENING, events), 106000.0) == 1620.0
  {
    var d := DefaultDecision(OPENING);
    RehedgeRuns(OPENING, 106000.0, d);
    WeightedAverage(116000.0, 0.213, 106000.0, 0.108);
    var b := Run(OPENING, events);
    assert b.long == LegBook(116000.0, 0.051);
    assert b.short.quantity == 0.321 && b.short.entry * 0.321 == 116000.0 * 0.213 + 106000.0 * 0.108;
    assert (b.short.entry - 106000.0) * 0.321 == b.short.entry * 0.321 - 106000.0 * 0.321;
  }

  /** After that rehedge at 116000, taking profit at the service's own target, 119480, realises a
      loss on the legs: the gain is in the spot holding. */
  lemma FirstProfitTakeLoses(b: Book)
    requires b == Run(OPENING, RehedgeEvents(116000.0, DefaultDecision(OPENING)))
    ensures Taken(b, 119480.0) == -939.6
    ensures Heard(b, [TakeProfit(119480.0, true)]) == 0.0
  {
    var d := DefaultDecision(OPENING);
    RehedgeRuns(OPENING, 116000.0, d);
    WeightedAverage(116000.0, 0.213, 116000.0, 0.108);
    assert b.long == LegBook(116000.0, 0.051) && b.short == LegBook(116000.0, 0.321);
    var take := TakeProfit(119480.0, true);
    ActRealizes(b, take);
    hide Act, Taken, Run;
    assert [take][..0] == [];
    assert BookAfter(b, [take]) == Act(b, take);
    assert Heard(b, []) == 0.0;
  }

  /** The first rehedge after a close at 116000 oversells the long leg by 0.162. What is shown
      from then on is the P&L of the short leg alone, 0.108 per dollar, where cash and marked
      value together make 0.27. */
  lemma OversoldLegIsHidden(events: seq<Event>, mark: real)
    requires events == RehedgeEvents(116000.0, DefaultDecision(OpenBook(0.0, 0.0)))
    ensures var start := OpenBook(0.0, 0.0);
            var b := Run(start, events);
            && b.long == LegBook(116000.0, -0.162) && b.short == LegBook(116000.0, 0.108)
            && Accounted(b, mark) == (116000.0 - mark) * 0.108
            && Cash(Views(events, LongPerp)) - Cash(Views(events, ShortPerp)) + Worth(b, mark)
               == (116000.0 - mark) * 0.27
  {
    var start := OpenBook(0.0, 0.0);
    assert DefaultDecision(start) == Decision(-0.162, 0.108);
    RehedgeRuns(start, 116000.0, DefaultDecision(start));
    var first, second := Drop(LongPerp, 116000.0, 0.162, true), Increase(ShortPerp, 116000.0, 0.108);
    assert events == [first, second];
    CashOfTwo(first, second, LongPerp);
    CashOfTwo(first, second, ShortPerp);
    hide Run, DefaultDecision;
  }

  lemma CashOfTwo(e: Event, e': Event, leg: Leg)
    ensures var m, m' := View(e, leg), View(e', leg);
            Cash(Views([e, e'], leg)) == -(m.price * m.change) - m'.price * m'.change
  {
    var m, m' := View(e, leg), View(e', leg);
    hide View;
    assert Views([e, e'], leg) == [m] + [m'];
    assert ([m] + [m'])[..1] == [m];
    assert Cash([m]) == -(m.price * m.change) by { assert [m][..0] == []; assert Cash([]) == 0.0; }
    assert Cash([m] + [m']) == Cash([m]) - m'.price * m'.change;
  }

  // ---- The position object ------------------------------------------------------------------

  class Position {
    const calculator: Calculator
    var longPerp: real
    var shortPerp: real

    ghost predicate Tracks(b: Book)
      reads this, calculator
    {
      calculator.Holds(b) && longPerp == b.long.quantity && shortPerp == b.short.quantity
    }

    constructor (c: Calculator)
      requires c.Holds(OPENING)
      ensures calculator == c && Tracks(OPENING)
    {
      calculator, longPerp, shortPerp := c, 0.213, 0.213;
    }

    /** A restart takes the quantities of the saved state, if there is one, and no entry
        prices. */
    method RecoverState(ghost b: Book, saved: Option<(real, real)>)
      requires Tracks(b)
      modifies this
      ensures Tracks(if saved.None? then b
                     else b.(long := LegBook(b.long.entry, saved.value.0),
                             short := LegBook(b.short.entry, saved.value.1)))
    {
      if saved.Some? {
        longPerp, shortPerp := saved.value.0, saved.value.1;
      }
    }

    method GenerateHedgeDecision(volatility: real, regime: string) returns (d: Decision)
      ensures d == Decide(SPOT + longPerp - shortPerp, TargetHedge(volatility, regime))
    {
      var adjustment := 0.0 - (SPOT + longPerp - shortPerp);
      var hedge := HedgeRatio(volatility) * FundingScale(regime);
      if adjustment < 0.0 {
        d := Decision(-Abs(adjustment) * (1.0 - hedge), Abs(adjustment) * hedge);
      } else {
        d := Decision(adjustment * (1.0 - hedge), -adjustment * hedge);
      }
    }

    /** What follows once the order is out: the legs may have changed since the decision. */
    method ApplyDecision(ghost b: Book, price: real, d: Decision)
      requires Tracks(b) && Acts(d)
      modifies this, calculator
      ensures Tracks(Run(b, RehedgeEvents(price, d)))
    {
      RehedgeRuns(b, price, d);
      hide UpdatedEntry, Acts, Run, RehedgeEvents;
      var oldLong, oldShort := longPerp, shortPerp;
      longPerp := longPerp + d.long;
      shortPerp := shortPerp + d.short;
      if d.long != 0.0 {
        calculator.UpdateEntryPrices(LongPerp, price, oldLong, longPerp);
      }
      if d.short != 0.0 {
        calculator.UpdateEntryPrices(ShortPerp, price, oldShort, shortPerp);
      }
    }

    /** An undisturbed rehedge and the order it sends. */
    method RehedgePositions(ghost b: Book, price: real, volatility: real, regime: string)
      returns (ordered: Option<real>)
      requires Tracks(b)
      modifies this, calculator
      ensures var d := Decide(SPOT + b.long.quantity - b.short.quantity, TargetHedge(volatility, regime));
              && Tracks(Run(b, RehedgeEvents(price, d)))
              && ordered == if Acts(d) then Some(Ordered(d)) else None
      ensures ordered.Some? ==> SPOT + longPerp - shortPerp == 0.0
    {
      ordered := None;
      var d := GenerateHedgeDecision(volatility, regime);
      RehedgeNeutralises(SPOT + longPerp - shortPerp, volatility, regime);
      hide Decide, TargetHedge;
      RehedgeRuns(b, price, d);
      if Abs(d.long) > 0.001 || Abs(d.short) > 0.001 {
        if Abs(d.long + d.short) > 0.001 {
          ordered := Some(d.long + d.short);
          ApplyDecision(b, price, d);
        }
      }
    }

    /** Realises what is held of both legs unless they are within 0.001 of each other,
        publishes the P&L with the legs still in place, announces the realised counter, and
        sets the legs to zero if that announcement went out. */
    method TakeProfit(ghost b: Book, price: real, sent: bool) returns (published: real, announced: Option<real>)
      requires Tracks(b)
      modifies this, calculator
      ensures Tracks(Act(b, Action.TakeProfit(price, sent)))
      ensures sent ==> Tracks(Run(b, TakeProfitEvents(price, b.long.quantity, b.short.quantity)))
      ensures published == Accounted(b.(realized := b.realized + Taken(b, price)), price)
      ensures announced == if sent then Some(b.realized + Taken(b, price)) else None
    {
      TakeProfitRuns(b, price);
      hide Run, TakeProfitEvents;
      var total := longPerp - shortPerp;
      if Abs(total) > 0.001 {
        var closed := map[LongPerp := if longPerp > 0.0 then longPerp else 0.0,
                          ShortPerp := if shortPerp > 0.0 then shortPerp else 0.0];
        var _ := calculator.RealizePnl(closed, price);
      }
      published := calculator.cumulativeRealizedPnl
                   + PerpPnl(longPerp, price, calculator.entryPrices[LongPerp], LongPerp)
                   + PerpPnl(shortPerp, price, calculator.entryPrices[ShortPerp], ShortPerp);
      announced := None;
      if sent {
        announced := Some(calculator.cumulativeRealizedPnl);
        longPerp, shortPerp := 0.0, 0.0;
      }
    }

    /** Drops both legs at whatever price the exchange gives; no P&L is ever realised. */
    method EmergencyClosePositions(ghost b: Book, ghost price: real)
      requires Tracks(b)
      modifies this
      ensures Tracks(Run(b, DropBoth(price, b.long.quantity, b.short.quantity)))
    {
      assert Run(b, []) == b && [] + DropBoth(price, b.long.quantity, b.short.quantity)
          == DropBoth(price, b.long.quantity, b.short.quantity);
      DropBothRuns(b, [], price, b.long.quantity, b.short.quantity);
      longPerp, shortPerp := 0.0, 0.0;
    }
  }
}
