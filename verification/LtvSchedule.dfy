/** The loan side's response to the loan-to-value ratio: the action tier, the reserves to
    deploy and the position scaling. */
module LtvSchedule {
  import opened Basics

  datatype Action = Safe | Monitor | Warning | Critical | Emergency

  datatype LtvState = LtvState(
    collateral: real,
    debt: real,
    ratio: real,
    action: Action,
    reserveDeployment: real,
    positionScaling: real,
    distanceToLiquidation: real,
    healthScore: real)

  function Ratio(debt: real, collateral: real): real {
    if collateral > 0.0 then debt / collateral else 1.0
  }

  function ActionFor(ltv: real): Action {
    if ltv < 0.50 then Safe
    else if ltv < 0.65 then Monitor
    else if ltv < 0.75 then Warning
    else if ltv < 0.85 then Critical
    else Emergency
  }

  function Wanted(ltv: real): real {
    if ltv < 0.65 then 0.0
    else if ltv < 0.75 then 3000.0 * (ltv - 0.65) / 0.10
    else if ltv < 0.85 then 3000.0 + 5000.0 * (ltv - 0.75) / 0.10
    else 10000.0
  }

  function Scaling(ltv: real): real {
    if ltv < 0.65 then 1.0
    else if ltv < 0.75 then 0.5
    else if ltv < 0.85 then 0.2
    else 0.0
  }

  function Assess(debt: real, collateral: real): LtvState {
    var ltv := Ratio(debt, collateral);
    LtvState(collateral, debt, ltv, ActionFor(ltv), Wanted(ltv), Scaling(ltv),
             Max(0.0, (0.95 - ltv) / 0.95),
             Max(0.0, Min(100.0, (1.0 - ltv) * 100.0)))
  }

  function Severity(a: Action): nat {
    match a
    case Safe => 0
    case Monitor => 1
    case Warning => 2
    case Critical => 3
    case Emergency => 4
  }

  /** The reserves actually deployed: capped by what is available, nothing under $1. */
  function Deployment(wanted: real, available: real): Option<real> {
    if wanted <= 0.0 then None
    else if Min(wanted, available) < 1.0 then None
    else Some(Min(wanted, available))
  }

  /** For the same debt, less collateral never softens the response: the tier and the
      reserves called for never fall, and the position scaling, the distance to
      liquidation and the health score never rise. */
  lemma LessCollateralNeverSoftens(debt: real, less: real, more: real)
    requires 0.0 <= debt && 0.0 < less <= more
    ensures var worse, better := Assess(debt, less), Assess(debt, more);
            && Severity(better.action) <= Severity(worse.action)
            && better.reserveDeployment <= worse.reserveDeployment
            && worse.positionScaling <= better.positionScaling
            && worse.distanceToLiquidation <= better.distanceToLiquidation
            && worse.healthScore <= better.healthScore
  {
    var x, y := debt / less, debt / more;
    assert x * less == debt && y * more == debt;
    FactorNonNegative(y, more);
    MulNonNegative(y, more - less);
    assert (x - y) * less == y * (more - less);
    FactorNonNegative(x - y, less);
  }

  /** Below an emergency the schedule has no jumps: each point of ratio adds at most $500.
      It tends to 8000, so the step into an emergency adds 2000 at once, and only there is
      everything called for and the position scaled to nothing; tier, reserves and scaling
      step at the same ratios. */
  lemma OnlyEmergencyJumps(ltv: real, ltv': real)
    requires ltv <= ltv'
    ensures ltv' < 0.85 ==> 0.0 <= Wanted(ltv') - Wanted(ltv) <= 50000.0 * (ltv' - ltv)
    ensures ltv < 0.85 <= ltv' ==> 2000.0 < Wanted(ltv') - Wanted(ltv)
    ensures Wanted(ltv) == 10000.0 <==> ActionFor(ltv) == Emergency
    ensures Scaling(ltv) == 0.0 <==> ActionFor(ltv) == Emergency
    ensures Wanted(ltv) >= 3000.0 <==> Severity(ActionFor(ltv)) >= Severity(Critical)
    ensures Scaling(ltv) == 0.2 <==> ActionFor(ltv) == Critical
    ensures 0.0 < Wanted(ltv) ==> Severity(ActionFor(ltv)) >= Severity(Warning)
    ensures Scaling(ltv) == 0.5 <==> ActionFor(ltv) == Warning
    ensures Scaling(ltv) == 1.0 <==> Severity(ActionFor(ltv)) < Severity(Warning)
    ensures ActionFor(ltv) == Safe <==> ltv < 0.50
  {
  }

  /** The schedule in numbers: 30000 a unit of ratio from 0.65 on, 50000 from 0.75 on. The
      distance to liquidation and the health score fall linearly to zero, at ratios of 0.95
      and 1. No collateral counts as a ratio of one. */
  lemma ScheduleInNumbers(debt: real, collateral: real)
    ensures var st := Assess(debt, collateral);
            var ltv := st.ratio;
            && st.collateral == collateral && st.debt == debt
            && (0.0 < collateral ==> ltv * collateral == debt)
            && (collateral <= 0.0 ==> ltv == 1.0 && st.action == Emergency)
            && (0.65 <= ltv < 0.75 ==> st.reserveDeployment == 30000.0 * (ltv - 0.65))
            && (0.75 <= ltv < 0.85 ==> st.reserveDeployment == 3000.0 + 50000.0 * (ltv - 0.75))
            && (ltv <= 0.95 ==> st.distanceToLiquidation * 0.95 == 0.95 - ltv)
            && (0.95 <= ltv ==> st.distanceToLiquidation == 0.0)
            && (0.0 <= ltv <= 1.0 ==> st.healthScore == 100.0 - 100.0 * ltv)
            && (ltv <= 0.0 ==> st.healthScore == 100.0) && (1.0 <= ltv ==> st.healthScore == 0.0)
  {
    if 0.0 < collateral {
      var q := debt / collateral;
      assert q * collateral == debt;
    }
  }

  /** A deployment is all that was wanted or all there is, and is made exactly when both reach
      a dollar. */
  lemma DeploymentIsMaximal(wanted: real, available: real)
    ensures var d := Deployment(wanted, available);
            && (d.Some? <==> 1.0 <= wanted && 1.0 <= available)
            && (d.Some? ==> d.value <= wanted && d.value <= available && (d.value == wanted || d.value == available))
  {
  }

  // ---- Repeated checks against one pool of reserves ----------------------------------

  function ReservesAfter(available: real, wanted: seq<real>): real {
    if |wanted| == 0 then available else
      var before := ReservesAfter(available, wanted[..|wanted| - 1]);
      var d := Deployment(wanted[|wanted| - 1], before);
      if d.Some? then before - d.value else before
  }

  function DeploymentCount(available: real, wanted: seq<real>): nat {
    if |wanted| == 0 then 0 else
      var before := ReservesAfter(available, wanted[..|wanted| - 1]);
      DeploymentCount(available, wanted[..|wanted| - 1]) +
      (if Deployment(wanted[|wanted| - 1], before).Some? then 1 else 0)
  }

  /** However often the ratio is checked and whatever it is, the reserves never go
      negative, and every deployment is worth at least $1, so at most as many are ever
      made as there were dollars; they shrink only by deployments. */
  lemma {:induction false} DeploymentsAreBounded(available: real, wanted: seq<real>)
    requires 0.0 <= available
    ensures 0.0 <= ReservesAfter(available, wanted)
    ensures DeploymentCount(available, wanted) as real <= available - ReservesAfter(available, wanted)
    ensures DeploymentCount(available, wanted) == 0 <==> ReservesAfter(available, wanted) == available
  {
    if |wanted| != 0 {
      DeploymentsAreBounded(available, wanted[..|wanted| - 1]);
    }
  }
}
