/** Risk states, risk scores and hedge recommendations. */
module RiskEngine {
  import opened Basics
  import opened Funding

  datatype RiskState = Calm | Caution | Danger | Critical

  function Rank(s: RiskState): nat {
    match s
    case Calm => 0
    case Caution => 1
    case Danger => 2
    case Critical => 3
  }

  datatype Config = Config(
    caution: real, danger: real, critical: real,
    deltaCalm: real, deltaCaution: real, deltaDanger: real, deltaCritical: real)

  const DEFAULTS := Config(0.65, 0.8, 0.9, 0.0, 0.02, 0.0, -0.1)

  /** The collateral, debt and net delta of an account. */
  datatype AccountData = AccountData(collateral: real, loan: real, interest: real, netDelta: real)

  function Ltv(a: AccountData): real {
    if a.collateral == 0.0 then 0.0 else (a.loan + a.interest) / a.collateral
  }

  function StateForLtv(cfg: Config, ltv: real): RiskState {
    if ltv >= cfg.critical then Critical
    else if ltv >= cfg.danger then Danger
    else if ltv >= cfg.caution then Caution
    else Calm
  }

  function BaseScore(ltv: real, netDelta: real): real {
    Min(ltv * 100.0, 100.0) * 0.7 + Min(Abs(netDelta) * 10.0, 100.0) * 0.3
  }

  function FundingImpact(c: Context): real {
    (match c.regime
     case Extreme => 30.0
     case Mania => 20.0
     case Heated => 10.0
     case Normal => 5.0
     case Neutral => 0.0)
    + (if c.volatility > 50.0 then 5.0 else 0.0)
  }

  datatype Assessment = Assessment(
    ltv: real,
    netDelta: real,
    state: RiskState,
    score: real,
    adjustedScore: real,
    context: Option<Context>)

  function Assess(cfg: Config, a: AccountData, context: Option<Context>): Assessment {
    var ltv := Ltv(a);
    var byLtv := StateForLtv(cfg, ltv);
    var score := BaseScore(ltv, a.netDelta);
    match context
    case None => Assessment(ltv, a.netDelta, byLtv, score, score, context)
    case Some(c) =>
      var state :=
        if c.shouldExit then Critical
        else if c.regime == Mania && byLtv == Calm then Caution
        else byLtv;
      Assessment(ltv, a.netDelta, state, score, Min(score + FundingImpact(c), 100.0), context)
  }

  function TargetDelta(cfg: Config, s: RiskState): real {
    match s
    case Calm => cfg.deltaCalm
    case Caution => cfg.deltaCaution
    case Danger => cfg.deltaDanger
    case Critical => cfg.deltaCritical
  }

  datatype Recommendation = Recommendation(buy: bool, quantity: real)

  function RecommendHedge(cfg: Config, s: RiskState, currentDelta: real): Option<Recommendation> {
    var difference := TargetDelta(cfg, s) - currentDelta;
    if Abs(difference) < 0.001 then None
    else Some(Recommendation(difference > 0.0, Abs(difference)))
  }

  datatype Message = Message(
    state: RiskState,
    previous: Option<RiskState>,
    stateChanged: bool,
    netDelta: real,
    recommendation: Option<Recommendation>,
    context: Option<Context>,
    multiplier: real)

  function MessageFor(cfg: Config, a: Assessment, previous: Option<RiskState>): Message {
    Message(
      a.state, previous, previous != Some(a.state), a.netDelta,
      RecommendHedge(cfg, a.state, a.netDelta), a.context,
      if a.context.Some? then a.context.value.multiplier else 1.0)
  }

  /** From funding to risk: with the account, the history and the volatility fixed, a
      larger rate never lowers the risk state nor the funding-adjusted score, and having a
      funding context never lowers either below what the account alone calls for. */
  lemma FundingOnlyRaisesRisk(cfg: Config, a: AccountData, s: Snapshot, s': Snapshot, previous: Option<Regime>)
    requires SameHistory(s, s') && Abs(s.current) <= Abs(s'.current)
    ensures var alone := Assess(cfg, a, None);
            var low := Assess(cfg, a, Some(ContextOf(s, previous)));
            var high := Assess(cfg, a, Some(ContextOf(s', previous)));
            && Rank(alone.state) <= Rank(low.state) <= Rank(high.state)
            && Min(alone.score, 100.0) <= low.adjustedScore <= high.adjustedScore <= 100.0
  {
    ContextIsMonotone(s, s', previous);
    ExitEquivalences(s, previous);
    ExitEquivalences(s', previous);
  }

  ghost predicate Ordered(cfg: Config) {
    cfg.caution <= cfg.danger <= cfg.critical
  }

  /** From the account to risk: with ordered thresholds each one is crossed exactly when
      the ratio reaches it, so a higher ratio never lowers the state; and neither a higher
      ratio nor a larger delta of either sign ever lowers the score. */
  lemma AccountRiskIsMonotone(cfg: Config, ltv: real, ltv': real, delta: real, delta': real)
    requires Ordered(cfg) && ltv <= ltv' && Abs(delta) <= Abs(delta')
    ensures Rank(StateForLtv(cfg, ltv)) <= Rank(StateForLtv(cfg, ltv'))
    ensures Rank(StateForLtv(cfg, ltv)) >= 1 <==> ltv >= cfg.caution
    ensures Rank(StateForLtv(cfg, ltv)) >= 2 <==> ltv >= cfg.danger
    ensures Rank(StateForLtv(cfg, ltv)) >= 3 <==> ltv >= cfg.critical
    ensures BaseScore(ltv, delta) <= BaseScore(ltv', delta') <= 100.0
    ensures 0.0 <= ltv ==> 0.0 <= BaseScore(ltv, delta)
    ensures BaseScore(ltv, 0.0) <= 70.0 && (BaseScore(ltv, 0.0) == 70.0 <==> ltv >= 1.0)
    ensures BaseScore(0.0, delta) <= 30.0 && (BaseScore(0.0, delta) == 30.0 <==> Abs(delta) >= 10.0)
    ensures 0.0 <= ltv <= 1.0 && Abs(delta) <= 10.0 ==> BaseScore(ltv, delta) == 70.0 * ltv + 3.0 * Abs(delta)
  {
  }

  /** Funding is meant to add up to 30 points; it adds more exactly for an extreme rate with
      a volatility above 50, and then 35. */
  lemma FundingImpactBound(c: Context)
    ensures 0.0 <= FundingImpact(c) <= 35.0
    ensures FundingImpact(c) > 30.0 <==> c.regime == Extreme && c.volatility > 50.0
    ensures FundingImpact(c) > 30.0 ==> FundingImpact(c) == 35.0
    ensures FundingImpact(c) == 0.0 <==> c.regime == Neutral && c.volatility <= 50.0
    ensures var calm := FundingImpact(c.(volatility := 0.0));
            && FundingImpact(c) - calm == (if c.volatility <= 50.0 then 0.0 else 5.0)
            && calm == [0.0, 5.0, 10.0, 20.0, 30.0][Level(c.regime)]
  {
  }

  /** The score from the account alone: seventy points for the debt's part of the collateral and
      three for each bitcoin of delta, below their caps. Without a funding context nothing is
      added and nothing is scaled down; with one, its impact is added up to a hundred. */
  lemma ScoreFromAccount(cfg: Config, a: AccountData, c: Context, previous: Option<RiskState>)
    requires 0.0 < a.collateral && 0.0 <= a.loan + a.interest <= a.collateral && Abs(a.netDelta) <= 10.0
    ensures var alone, funded := Assess(cfg, a, None), Assess(cfg, a, Some(c));
            && alone.ltv == funded.ltv && alone.ltv * a.collateral == a.loan + a.interest
            && alone.score == funded.score == alone.adjustedScore == 70.0 * alone.ltv + 3.0 * Abs(a.netDelta)
            && funded.adjustedScore == Min(100.0, alone.score + FundingImpact(c))
            && alone.netDelta == funded.netDelta == a.netDelta
            && MessageFor(cfg, alone, previous).multiplier == 1.0
            && MessageFor(cfg, funded, previous).multiplier == c.multiplier
            && MessageFor(cfg, funded, previous).context == Some(c)
            && MessageFor(cfg, alone, previous).previous == previous
  {
    var q := (a.loan + a.interest) / a.collateral;
    assert q * a.collateral == a.loan + a.interest;
    FactorNonNegative(q, a.collateral);
    assert (1.0 - q) * a.collateral == a.collateral - (a.loan + a.interest);
    FactorNonNegative(1.0 - q, a.collateral);
    hide FundingImpact;
  }

  lemma RatioReaches(part: real, whole: real, threshold: real)
    requires 0.0 < whole
    ensures part / whole >= threshold <==> part >= threshold * whole
  {
    var q := part / whole;
    assert q * whole == part;
    if q >= threshold {
      MulNonNegative(q - threshold, whole);
    } else {
      MulPositive(threshold - q, whole);
    }
    assert (q - threshold) * whole == q * whole - threshold * whole;
  }

  /** The risk state from loan, interest, collateral and funding rate alone: each threshold is
      crossed when loan and interest reach its part of the collateral; a rate of at least 100%
      lifts a calm account to caution and changes no other state; a rate of at least 300% is
      critical. Without collateral the ratio counts as zero. */
  lemma StateFromAccountAndFunding(cfg: Config, a: AccountData, s: Snapshot, previous: Option<Regime>)
    requires Ordered(cfg)
    ensures var st := Assess(cfg, a, Some(ContextOf(s, previous))).state;
            var debt, size := a.loan + a.interest, Abs(Annualized(s.current));
            && (300.0 <= size ==> st == Critical)
            && (size < 300.0 && 0.0 < a.collateral ==>
                  && (Rank(st) >= 3 <==> debt >= cfg.critical * a.collateral)
                  && (Rank(st) >= 2 <==> debt >= cfg.danger * a.collateral)
                  && (Rank(st) >= 1 <==> debt >= cfg.caution * a.collateral || 100.0 <= size))
            && (size < 100.0 && a.collateral == 0.0 && 0.0 < cfg.caution ==> st == Calm)
  {
    ExitEquivalences(s, previous);
    hide Multiplier, Average, Annualized;
    if 0.0 < a.collateral {
      RatioReaches(a.loan + a.interest, a.collateral, cfg.caution);
      RatioReaches(a.loan + a.interest, a.collateral, cfg.danger);
      RatioReaches(a.loan + a.interest, a.collateral, cfg.critical);
    }
  }

  // ---- The calculator's tracked state ------------------------------------------------------

  class Calculator {
    const config: Config
    var previousState: Option<RiskState>
    var stateHistory: seq<(RiskState, real)>
    ghost var fullHistory: seq<(RiskState, real)>

    /** The kept history is the last hundred entries of everything reported, and the
        previous state is the last of them. */
    ghost predicate Valid()
      reads this
    {
      && stateHistory == LastUpTo(fullHistory, 100)
      && previousState == (if |fullHistory| == 0 then None else Some(fullHistory[|fullHistory| - 1].0))
    }

    constructor (cfg: Config)
      ensures Valid() && config == cfg && fullHistory == []
    {
      config := cfg;
      previousState, stateHistory, fullHistory := None, [], [];
    }

    method CreateRiskStateMessage(a: Assessment) returns (message: Message)
      requires Valid()
      modifies this
      ensures Valid() && fullHistory == old(fullHistory) + [(a.state, a.ltv)]
      ensures message == MessageFor(config, a, old(previousState))
      ensures message.stateChanged <==>
              old(fullHistory) == [] || old(fullHistory)[|old(fullHistory)| - 1].0 != a.state
    {
      hide RecommendHedge, LastUpTo;
      var stateChanged := previousState != Some(a.state);
      var recommendation := RecommendHedge(config, a.state, a.netDelta);
      message := Message(
        a.state, previousState, stateChanged, a.netDelta, recommendation, a.context,
        if a.context.Some? then a.context.value.multiplier else 1.0);
      Remember(a.state, a.ltv);
    }

    /** Keeps the hundred latest states. */
    method Remember(state: RiskState, ltv: real)
      requires Valid()
      modifies this
      ensures Valid() && fullHistory == old(fullHistory) + [(state, ltv)]
    {
      previousState := Some(state);
      LastUpToAppends(fullHistory, (state, ltv), 100);
      stateHistory := stateHistory + [(state, ltv)];
      if |stateHistory| > 100 {
        stateHistory := stateHistory[|stateHistory| - 100..];
      }
      fullHistory := fullHistory + [(state, ltv)];
    }
  }
}
