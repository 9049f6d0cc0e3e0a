/** Funding regimes, position multipliers and the funding context. */
module Funding {
  import opened Basics

  datatype Regime = Neutral | Normal | Heated | Mania | Extreme

  function Level(r: Regime): nat {
    match r
    case Neutral => 0
    case Normal => 1
    case Heated => 2
    case Mania => 3
    case Extreme => 4
  }

  function Annualized(fundingRate: real): real {
    fundingRate * 3.0 * 365.0 * 100.0
  }

  function Daily(fundingRate: real): real {
    fundingRate * 3.0 * 100.0
  }

  /** The current 8-hour rate and its history. The volatility of the history, a square
      root, is taken as given. */
  datatype Snapshot = Snapshot(current: real, rates24h: seq<real>, rates7d: seq<real>, volatility: real)

  function AllAnnualized(rates: seq<real>): (all: seq<real>)
    ensures |all| == |rates|
  {
    seq(|rates|, i requires 0 <= i < |rates| => Annualized(rates[i]))
  }

  function Average(rates: seq<real>): real
    requires |rates| != 0
  {
    Sum(AllAnnualized(rates)) / |rates| as real
  }

  function Average24h(s: Snapshot): real {
    if |s.rates24h| == 0 then Annualized(s.current) else Average(s.rates24h)
  }

  function Average7d(s: Snapshot): real {
    if |s.rates7d| == 0 then Average24h(s) else Average(s.rates7d)
  }

  function DetectRegime(rate: real): Regime {
    var a := Abs(rate);
    if a < 10.0 then Neutral
    else if a < 50.0 then Normal
    else if a < 100.0 then Heated
    else if a < 300.0 then Mania
    else Extreme
  }

  datatype Band = Band(lower: real, upper: real, minMultiplier: real, maxMultiplier: real)

  function BandOf(r: Regime): Band
    requires r != Extreme
  {
    match r
    case Neutral => Band(0.0, 10.0, 0.9, 1.0)
    case Normal => Band(10.0, 50.0, 0.6, 0.9)
    case Heated => Band(50.0, 100.0, 0.3, 0.6)
    case Mania => Band(100.0, 300.0, 0.1, 0.3)
  }

  function Multiplier(r: Regime, rate: real, avg24h: real): real {
    if r == Extreme then 0.0
    else
      var b := BandOf(r);
      if r == Neutral then b.maxMultiplier
      else
        var position := Max(0.0, Min(1.0, (Abs(rate) - b.lower) / (b.upper - b.lower)));
        var base := b.maxMultiplier - (b.maxMultiplier - b.minMultiplier) * position;
        var trended := if Abs(avg24h) > Abs(rate) then base * 1.1 else base * 0.9;
        Max(b.minMultiplier, Min(b.maxMultiplier, trended))
  }

  datatype Context = Context(
    regime: Regime,
    rate: real,
    avg24h: real,
    avg7d: real,
    volatility: real,
    multiplier: real,
    shouldExit: bool,
    regimeChange: bool,
    dailyCostBps: real,
    weeklyCostPct: real)

  function ContextOf(s: Snapshot, previous: Option<Regime>): Context {
    var rate := Annualized(s.current);
    var regime := DetectRegime(rate);
    var dailyCost := Abs(Daily(s.current)) * 100.0;
    Context(
      regime, rate, Average24h(s), Average7d(s), s.volatility,
      Multiplier(regime, rate, Average24h(s)),
      regime == Extreme || Abs(rate) > 400.0,
      previous.Some? && regime != previous.value,
      dailyCost,
      dailyCost * 7.0 / 100.0)
  }

  function TrendScore(c: Context): real {
    if c.avg24h > c.avg7d * 1.5 then 20.0
    else if c.avg24h > c.avg7d * 1.2 then 10.0
    else if c.avg24h < c.avg7d * 0.8 then -5.0
    else 0.0
  }

  function RiskScore(c: Context): real {
    var score := Min(40.0, Abs(c.rate) / 10.0)
                 + TrendScore(c)
                 + Min(20.0, c.volatility / 50.0 * 20.0)
                 + 5.0 * Level(c.regime) as real;
    Min(100.0, Max(0.0, score))
  }

  datatype Advice = ExitAll | ReducePosition | IncreasePosition | MaintainReduced | MaintainPosition

  function Recommend(c: Context): Advice {
    if c.shouldExit then ExitAll
    else if c.regimeChange && (c.regime == Mania || c.regime == Extreme) then ReducePosition
    else if c.regimeChange && c.regime == Neutral then IncreasePosition
    else if c.regime == Heated && c.avg24h > c.rate then ReducePosition
    else if c.multiplier < 0.5 then MaintainReduced
    else MaintainPosition
  }

  // ---- Monotonicity over the whole real line ----------------------------------------------

  lemma RegimeIsMonotone(rate: real, rate': real)
    requires Abs(rate) <= Abs(rate')
    ensures Level(DetectRegime(rate)) <= Level(DetectRegime(rate'))
  {
  }

  /** The detected regime is the one whose band holds the size of the rate, and each multiplier
      stays inside that band, so inside [0, 1]. The bands tile both scales: each starts where
      the one below ends, and its largest multiplier is the smallest of the one below. */
  lemma MultiplierStaysInBand(rate: real, avg24h: real)
    ensures var r, m := DetectRegime(rate), Multiplier(DetectRegime(rate), rate, avg24h);
            && 0.0 <= m <= 1.0
            && (r == Extreme ==> m == 0.0)
            && (r == Extreme <==> BandOf(Mania).upper <= Abs(rate))
            && (r != Extreme ==>
                  && BandOf(r).lower <= Abs(rate) < BandOf(r).upper
                  && BandOf(r).minMultiplier <= m <= BandOf(r).maxMultiplier)
    ensures forall r, next :: r != Extreme && next != Extreme && Level(next) == Level(r) + 1 ==>
              BandOf(next).lower == BandOf(r).upper && BandOf(next).maxMultiplier == BandOf(r).minMultiplier
  {
  }

  /** The multiplier in numbers: one below 10%, and from there on the line through the corners of
      the band, a tenth up when the rate falls and a tenth down otherwise, held to the band. */
  lemma MultiplierInNumbers(rate: real, avg24h: real)
    ensures var a, m := Abs(rate), Multiplier(DetectRegime(rate), rate, avg24h);
            var trend := if Abs(avg24h) > a then 1.1 else 0.9;
            && (m == 1.0 <==> a < 10.0)
            && (10.0 <= a < 50.0 ==> m == Max(0.6, Min(0.9, (0.975 - 0.0075 * a) * trend)))
            && (50.0 <= a < 100.0 ==> m == Max(0.3, Min(0.6, (0.9 - 0.006 * a) * trend)))
            && (100.0 <= a < 300.0 ==> m == Max(0.1, Min(0.3, (0.4 - 0.001 * a) * trend)))
            && (300.0 <= a ==> m == 0.0)
  {
  }

  /** The multiplier never rises as the size of the rate grows, for a fixed 24h average:
      across the four band edges, the interpolation, the trend switch and the clamp. */
  lemma MultiplierIsAntitone(rate: real, rate': real, avg24h: real)
    requires Abs(rate) <= Abs(rate')
    ensures Multiplier(DetectRegime(rate'), rate', avg24h) <= Multiplier(DetectRegime(rate), rate, avg24h)
  {
    hide Multiplier, DetectRegime;
    MultiplierInNumbers(rate, avg24h);
    MultiplierInNumbers(rate', avg24h);
  }

  /** The same when the average moves with the rate. */
  lemma MultiplierIsAntitoneAlone(rate: real, rate': real)
    requires Abs(rate) <= Abs(rate')
    ensures Multiplier(DetectRegime(rate'), rate', rate') <= Multiplier(DetectRegime(rate), rate, rate)
  {
    hide Multiplier, DetectRegime;
    MultiplierInNumbers(rate, rate);
    MultiplierInNumbers(rate', rate');
  }

  lemma RatesScale(fundingRate: real, fundingRate': real)
    requires Abs(fundingRate) <= Abs(fundingRate')
    ensures Abs(Annualized(fundingRate)) <= Abs(Annualized(fundingRate'))
    ensures Abs(Daily(fundingRate)) <= Abs(Daily(fundingRate'))
  {
  }

  /** Not clamped to an edge of its band. */
  ghost predicate Graded(r: Regime, m: real)
    requires r != Extreme
  {
    BandOf(r).minMultiplier < m < BandOf(r).maxMultiplier
  }

  /** Inside the graded regimes a falling rate earns a strictly larger multiplier than a
      rising one, and where neither is clamped to its band a larger rate of the same trend
      earns a strictly smaller one. */
  lemma TrendAndSizeMatter(rate: real, rate': real, avg24h: real, avg24h': real)
    requires DetectRegime(rate) == DetectRegime(rate') && DetectRegime(rate) !in {Neutral, Extreme}
    ensures var r := DetectRegime(rate);
            var m, m' := Multiplier(r, rate, avg24h), Multiplier(r, rate', avg24h');
            var falling, falling' := Abs(avg24h) > Abs(rate), Abs(avg24h') > Abs(rate');
            && (rate == rate' && falling && !falling' ==> m' < m)
            && (Abs(rate) < Abs(rate') && falling == falling' && Graded(r, m) && Graded(r, m') ==> m' < m)
  {
  }

  ghost predicate SameHistory(s: Snapshot, s': Snapshot) {
    s.rates24h == s'.rates24h && s.rates7d == s'.rates7d && s.volatility == s'.volatility
  }

  /** With the history fixed, empty or not, a larger rate never raises the multiplier. With
      no 24h history the average is the rate itself. */
  lemma ContextMultiplierIsAntitone(s: Snapshot, s': Snapshot, previous: Option<Regime>)
    requires SameHistory(s, s') && Abs(s.current) <= Abs(s'.current)
    ensures ContextOf(s', previous).multiplier <= ContextOf(s, previous).multiplier
  {
    hide Multiplier, Average, Annualized, Daily;
    RatesScale(s.current, s'.current);
    if |s.rates24h| != 0 {
      MultiplierIsAntitone(Annualized(s.current), Annualized(s'.current), Average24h(s));
    } else {
      MultiplierIsAntitoneAlone(Annualized(s.current), Annualized(s'.current));
    }
  }

  /** Nor does it ever lower the regime or the projected costs, or clear the exit flag. */
  lemma ContextIsMonotone(s: Snapshot, s': Snapshot, previous: Option<Regime>)
    requires Abs(s.current) <= Abs(s'.current)
    ensures var c, c' := ContextOf(s, previous), ContextOf(s', previous);
            && Level(c.regime) <= Level(c'.regime)
            && (c.shouldExit ==> c'.shouldExit)
            && c.dailyCostBps <= c'.dailyCostBps && c.weeklyCostPct <= c'.weeklyCostPct
  {
    hide Multiplier, Average, Annualized, Daily;
    RatesScale(s.current, s'.current);
    RegimeIsMonotone(Annualized(s.current), Annualized(s'.current));
  }

  /** The four marks of an emergency are one: the exit flag, the EXTREME regime, a rate of
      at least 300%, a zero multiplier and the advice to exit everything. The separate 400%
      test of the exit flag decides nothing. */
  lemma ExitEquivalences(s: Snapshot, previous: Option<Regime>)
    ensures var c := ContextOf(s, previous);
            && (c.shouldExit <==> c.regime == Extreme)
            && (c.shouldExit <==> Abs(c.rate) >= 300.0)
            && (c.shouldExit <==> c.multiplier == 0.0)
            && (c.shouldExit <==> Recommend(c) == ExitAll)
            && (!c.shouldExit ==> 0.1 <= c.multiplier <= 1.0)
  {
    MultiplierStaysInBand(Annualized(s.current), Average24h(s));
  }

  /** Averaging is the mean of the annualised rates: one more rate moves it by its share, and
      equal rates average to themselves. */
  lemma {:induction false} AverageIsMean(rates: seq<real>, rate: real)
    ensures Average([rate]) == 109500.0 * rate
    ensures |rates| != 0 ==>
              Average(rates + [rate]) * (|rates| + 1) as real == Average(rates) * |rates| as real + 109500.0 * rate
  {
    SumOfRates([], rate);
    if |rates| != 0 {
      SumOfRates(rates, rate);
      QuotientTimes(Sum(AllAnnualized(rates)), |rates| as real);
      QuotientTimes(Sum(AllAnnualized(rates + [rate])), (|rates| + 1) as real);
    }
    assert [] + [rate] == [rate] && AllAnnualized([]) == [];
  }

  lemma SumOfRates(rates: seq<real>, rate: real)
    ensures Sum(AllAnnualized(rates + [rate])) == Sum(AllAnnualized(rates)) + 109500.0 * rate
  {
    var all := AllAnnualized(rates + [rate]);
    assert all[..|rates|] == AllAnnualized(rates);
  }

  lemma QuotientTimes(x: real, n: real)
    requires n != 0.0
    ensures x / n * n == x
  {
  }

  /** A year of daily costs is the annual rate, a week seven days of them. */
  lemma CostsAddUpToTheRate(s: Snapshot, previous: Option<Regime>)
    ensures var c := ContextOf(s, previous);
            && c.rate == 109500.0 * s.current
            && c.dailyCostBps * 365.0 == 100.0 * Abs(c.rate)
            && c.weeklyCostPct == 7.0 * (c.dailyCostBps / 100.0)
            && c.avg24h == (if |s.rates24h| == 0 then c.rate else Average(s.rates24h))
            && c.avg7d == (if |s.rates7d| == 0 then c.avg24h else Average(s.rates7d))
            && c.volatility == s.volatility
  {
    hide Multiplier, Average;
  }

  /** The advice by the size of the rate, the regime last seen, and the trend. */
  lemma AdviceInNumbers(s: Snapshot, previous: Option<Regime>)
    ensures var c, advice := ContextOf(s, previous), Recommend(ContextOf(s, previous));
            var a := Abs(c.rate);
            var reduce := (100.0 <= a < 300.0 && previous.Some? && previous != Some(Mania))
                          || (50.0 <= a < 100.0 && c.avg24h > c.rate);
            && (advice == ExitAll <==> 300.0 <= a)
            && (advice == IncreasePosition <==> a < 10.0 && previous.Some? && previous != Some(Neutral))
            && (advice == ReducePosition <==> reduce)
            && (advice == MaintainReduced <==> a < 300.0 && c.multiplier < 0.5 && !reduce)
  {
    MultiplierInNumbers(Annualized(s.current), Average24h(s));
    hide Multiplier, Average, Annualized;
  }

  /** The risk score in numbers, below its caps: a tenth of the rate, the trend against the
      weekly average, two fifths of the volatility, five points a regime. */
  lemma RiskScoreInNumbers(s: Snapshot, previous: Option<Regime>)
    requires 0.0 <= s.volatility
    ensures var c := ContextOf(s, previous);
            var a := Abs(c.rate);
            var steps := (if a < 10.0 then 0 else if a < 50.0 then 1 else if a < 100.0 then 2
                          else if a < 300.0 then 3 else 4);
            var plain := Min(40.0, 0.1 * a) + Min(20.0, 0.4 * c.volatility) + 5.0 * steps as real;
            && (c.avg24h > 1.5 * c.avg7d ==> RiskScore(c) == plain + 20.0)
            && (1.2 * c.avg7d < c.avg24h <= 1.5 * c.avg7d ==> RiskScore(c) == plain + 10.0)
            && (0.0 <= c.avg7d && c.avg24h < 0.8 * c.avg7d ==> RiskScore(c) == Max(0.0, plain - 5.0))
            && (0.8 * c.avg7d <= c.avg24h <= 1.2 * c.avg7d ==> RiskScore(c) == plain)
  {
    hide Multiplier, Average, Annualized;
  }

  /** With a 24h history, the funding risk score never falls as the rate grows. */
  lemma RiskScoreIsMonotone(s: Snapshot, s': Snapshot, previous: Option<Regime>)
    requires SameHistory(s, s') && |s.rates24h| != 0 && Abs(s.current) <= Abs(s'.current)
    ensures RiskScore(ContextOf(s, previous)) <= RiskScore(ContextOf(s', previous))
  {
    hide Multiplier, Average, Annualized;
    RatesScale(s.current, s'.current);
    RegimeIsMonotone(Annualized(s.current), Annualized(s'.current));
  }

  /** With no history at all both averages are the rate itself, and the trend test reads
      its sign: a steady negative rate scores as rapidly rising, a positive one does not.
      The score is then monotone in the size of the rate among rates of one sign. */
  lemma SteadyTrendReadsTheSign(s: Snapshot, s': Snapshot, previous: Option<Regime>)
    requires |s.rates24h| == |s.rates7d| == 0 && SameHistory(s, s')
    ensures TrendScore(ContextOf(s, previous)) == (if s.current < 0.0 then 20.0 else 0.0)
    ensures Abs(s.current) <= Abs(s'.current) && (s.current < 0.0 ==> s'.current < 0.0) ==>
              RiskScore(ContextOf(s, previous)) <= RiskScore(ContextOf(s', previous))
  {
    assert Abs(s.current) <= Abs(s'.current) ==> Abs(Annualized(s.current)) <= Abs(Annualized(s'.current));
    if Abs(s.current) <= Abs(s'.current) {
      RegimeIsMonotone(Annualized(s.current), Annualized(s'.current));
    }
  }

  /** So without history a larger rate can score lower: -1% against +20%. */
  lemma RiskScoreCanFallWithoutHistory(s: Snapshot, s': Snapshot, previous: Option<Regime>)
    requires s == Snapshot(-1.0 / 109500.0, [], [], s.volatility) && 0.0 <= s.volatility
    requires s' == Snapshot(20.0 / 109500.0, [], [], s.volatility)
    ensures Abs(s.current) <= Abs(s'.current)
    ensures RiskScore(ContextOf(s', previous)) < RiskScore(ContextOf(s, previous))
  {
    assert Annualized(s.current) == -1.0 && Annualized(s'.current) == 20.0;
  }

  /** With a 7d history alone, a rate and its opposite can score differently: one is well
      above the weekly average and the other well below it. */
  lemma OppositeRatesScoreDifferently(s: Snapshot, previous: Option<Regime>)
    requires |s.rates24h| == 0 && |s.rates7d| != 0 && 0.0 <= s.volatility
    requires var average := Average(s.rates7d);
             Annualized(s.current) == if average == 0.0 then 1.0 else 1.6 * average
    ensures var opposite := s.(current := -s.current);
            if Average(s.rates7d) < 0.0 then
              RiskScore(ContextOf(s, previous)) < RiskScore(ContextOf(opposite, previous))
            else
              RiskScore(ContextOf(opposite, previous)) < RiskScore(ContextOf(s, previous))
  {
    hide Multiplier, Average;
    assert Annualized(-s.current) == -Annualized(s.current);
  }

  function ScoreAt(current: real, rates24h: seq<real>, rates7d: seq<real>, volatility: real,
                   previous: Option<Regime>): real {
    RiskScore(ContextOf(Snapshot(current, rates24h, rates7d, volatility), previous))
  }

  ghost predicate ScoreGrowsWithSize(rates24h: seq<real>, rates7d: seq<real>, volatility: real,
                                     previous: Option<Regime>) {
    forall x, y ::
      Abs(x) <= Abs(y) ==>
        ScoreAt(x, rates24h, rates7d, volatility, previous) <= ScoreAt(y, rates24h, rates7d, volatility, previous)
  }

  /** Whatever the 7d history, the risk score grows with the size of the rate exactly when
      there is a 24h history. */
  lemma ScoreGrowsWithSizeIff(rates24h: seq<real>, rates7d: seq<real>, volatility: real, previous: Option<Regime>)
    requires 0.0 <= volatility
    ensures ScoreGrowsWithSize(rates24h, rates7d, volatility, previous) <==> |rates24h| != 0
  {
    hide RiskScore, ContextOf, Average;
    if |rates24h| != 0 {
      forall x, y | Abs(x) <= Abs(y)
        ensures ScoreAt(x, rates24h, rates7d, volatility, previous) <=
                ScoreAt(y, rates24h, rates7d, volatility, previous)
      {
        var s := Snapshot(x, rates24h, rates7d, volatility);
        RiskScoreIsMonotone(s, s.(current := y), previous);
      }
    } else {
      var x, y := -1.0 / 109500.0, 20.0 / 109500.0;
      if |rates7d| == 0 {
        assert rates24h == rates7d == [];
        RiskScoreCanFallWithoutHistory(Snapshot(x, [], [], volatility), Snapshot(y, [], [], volatility), previous);
      } else {
        var average := Average(rates7d);
        x := (if average == 0.0 then 1.0 else 1.6 * average) / 109500.0;
        y := -x;
        OppositeRatesScoreDifferently(Snapshot(x, rates24h, rates7d, volatility), previous);
      }
      assert Abs(x) <= Abs(y) && Abs(y) <= Abs(y);
      assert ScoreAt(x, rates24h, rates7d, volatility, previous) != ScoreAt(y, rates24h, rates7d, volatility, previous);
    }
  }
}
