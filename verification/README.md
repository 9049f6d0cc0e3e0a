# HedgeLock: a verified model of the money-handling cores

HedgeLock runs a leveraged bitcoin position out of small services. This project models
the parts of them that hold state or do arithmetic about money, and proves what they
keep over every run.

| file | what it models |
|---|---|
| `LoanLedger.dfy`, `LoanRuns.dfy`, `LoanConservation.dfy` | the loan: simple interest, three repayment priorities, histories |
| `LoanQueue.dfy` | the repayment queue under every interleaving of the loan service's tasks |
| `LoanService.dfy` | the loan manager object, and the service that queues and drains repayments |
| `LtvSchedule.dfy` | the loan side's response to the loan-to-value ratio |
| `ReserveLedger.dfy`, `ReserveManager.dfy` | the reserve state machine, and the object that implements it |
| `Funding.dfy`, `RiskEngine.dfy`, `Hedger.dfy` | the funding, risk and hedge pipeline |
| `RateLimiter.dfy`, `TradeExecutor.dfy` | order admission, order tracking, daily volume |
| `PnlCalculator.dfy` | average-cost profit and loss, oversold legs included |
| `PositionManager.dfy` | how rehedges are sized, the legs under every interleaving, and what the P&L then shows |
| `CircuitBreakers.dfy`, `OrderRate.dfy` | the safety manager's breakers and order-rate window |
| `FundingStorage.dfy` | the trimmed funding history and its cached current rate |
| `Basics.dfy` | options, bounded histories, arithmetic on reals |

Money, rates and clocks are exact reals. Clock readings are arguments, one per call of
the clock in the source, so that two readings in one handler may differ. The exchange and
the message broker are arbitrary answers passed in. Objects the source updates in place are
classes; each of their methods is proved equal to a step function on values, and the
theorems are about arbitrary runs of those steps, so they cover every interleaving of the
loops that take them. A step is what runs without yielding: a ledger call, half a round of
the repayment drain, a monitoring pass, the check of one breaker by the reset loop. An executor message is one step too,
because the consumer handles one message at a time.

Names differ from the source in one place: the risk state NORMAL is `Calm`, because
`Normal` is a funding regime.

## What the code does that its documentation or its callers do not expect

Each of these is a lemma below, with the exact condition or a concrete input.

- An interest update reads the clock twice and loses the interest of the gap
  (`ReadLosesTheGap`, `GapsOnlyForgiveInterest`).
- A repayment whose publication fails skips the payoff check, so a loan can be paid off
  without LOAN_PAID_OFF (`LostPublicationHidesPayoff`, `PaidOffIsAnnounced`).
- A treasury update that arrives while a deployment is being published is overwritten, and a
  deployment whose publication fails stays in the history though no reserves were lowered
  (`LoanService.Service.CheckReserveDeployment`).
- Repayments queued from two profits can overpay, because each is capped at the debt
  when it is queued (`QueueOverpaysTheExcess`, `TwoProfitRepaymentsOverpay`).
- Outside the below-target branch, splitting a profit smaller than the minimum addition
  takes money from the loan and trading parts (`SplitIsSound`); that branch is dead at the
  default target (`BelowTargetIffAboveTenNineteenths`).
- Withdrawals from trading are limited like deployments, so while no profit arrives a fully
  deployed reserve cannot rebalance (`FullyDeployedIsStuck`, `RebalanceConvergesIff`).
- The rebalance check publishes the fifth it asked for, also when less came back
  (`PublishedWithdrawalIsRightIff`).
- The reserve service sizes an automatic emergency deployment by emergency capacity but
  requests it in a way that keeps it to the normal limits (`AutoDeploymentRespectsLimits`).
- A request for an EMERGENCY_DEPLOY, which would reach beyond those limits, is recorded as a
  deployment but moves no balance (`EmergencyRequestMovesNothing`).
- The reported deployment ratio is stale from a profit until the next successful request,
  unless nothing is deployed; it then overstates the real one (`DeploymentRatioIsCurrentIff`,
  `DeploymentRatioGoesStale`).
- Without a 24h history a larger funding rate can score as less risky, because the trend
  test reads signs (`ScoreGrowsWithSizeIff`, `SteadyTrendReadsTheSign`).
- Funding can add 35 points to the risk score where 30 is the stated maximum
  (`FundingImpactBound`).
- An extreme funding rate does not close a position that is already within 0.001 of the
  critical delta target (`PipelineExits`, `EmergencyCanLeaveTheShort`).
- Rehedges, emergency closes and profit taking on two nearly equal legs never realise
  their P&L (`AverageCostIsExact`, `DropKeepsPnlIff`, `DropBothKeepsPnlIff`,
  `RehedgeForgoesPnl`).
- The first rehedge after any close oversells the long leg, which then, as long as rehedges
  do not overlap, stays negative or zero for good; the P&L figures leave an oversold leg out, so they are right only at its
  entry price (`LegsStayBalanced`, `LongShowsNothingOnceFlat`, `ShownIsFairIff`,
  `ShownIsFairAtEveryMarkIff`, `OversoldLegIsHidden`).
- A rehedge's order adds its two adjustments where it should offset them: the book reaches
  delta zero, the exchange keeps twice the hedge ratio of it, and from 4% volatility the
  order enlarges the exposure (`RehedgeNeutralises`, `OrderLeavesTwiceTheHedge`).
- Rehedges that overlap each apply the whole correction (`OverlappingRehedgesOvershoot`).
- The funding scale of a rehedge is keyed in capitals and the regimes arrive in lower case,
  so it never applies (`FundingNeverScalesTheHedge`).
- Profit taking publishes the realised profit twice (`ProfitIsPublishedTwice`).
- Every profit event announces everything realised so far, so once the loan and the reserves
  have been told of a positive amount, they are told of it again with each later event that
  still announces a positive total (`RecipientsHearRealizedIff`).
- A profit take at the service's own target can realise a loss on the legs, of which nobody is
  told (`FirstProfitTakeLoses`); one whose event cannot be published leaves the legs in place
  and is realised again (`UnsentProfitIsTakenAgain`).
- A listed circuit breaker may be inactive, once either loop has reset it
  (`ListedButInactive`, `BothLoopsLeaveAStaleListing`).
- A clock that repeats a reading can defeat the rate limiter (`WindowOverrunsIff`,
  `RepeatedInstantsAreUnbounded`).
- Partial fills do not count towards the daily volume (`VolumeIsTradedIff`,
  `PartialFillsEscapeTheLimit`).
- A refused, unplaced or incomplete order is counted nowhere: the error confirmation leaves
  out `fill_latency_ms`, which its class requires, so the handler raises before it publishes
  or counts the failure (`OnlyTimeoutsCountAsFailed`, `RefusalsAreNotCounted`).
- The executor serialises its confirmations with plain JSON although they carry timestamps, so
  none goes out and every remembered execution ends failed, filled ones included
  (`UnpublishedEndsFailed`; the other theorems hold either way).
- The order rate is recomputed only when a trade executes, so a breach outlives its cause
  (`ReportedRateIsCurrentIff`, `QuietMinuteStillReportsOrders`).

## Model

| member | source | states |
|---|---|---|
| LoanLedger.SplitDischarges | src/hedgelock/loan_manager/manager.py:95-121 | every priority discharges exactly min(amount, owed), overdraws neither bucket, and lies between interest-first and principal-first, which touch the second bucket only once the first is cleared |
| LoanLedger.ProportionalPaysInRatio | src/hedgelock/loan_manager/manager.py:111-119 | the proportional split pays both buckets in the ratio owed |
| LoanLedger.AccrualMatchesQuotedRates | src/hedgelock/loan_manager/models.py:52-58 | an hour, a day and a year of accrual are the quoted hourly, daily and annual interest |
| LoanRuns.RunKeepsSound | src/hedgelock/loan_manager/manager.py:43-93 | no run drives the balance or the accrued interest negative |
| LoanRuns.PaymentGoesWhereAsked | src/hedgelock/loan_manager/manager.py:56-121 | a payment takes the bucket it asked for first, down to zero, or keeps the two in ratio; what is owed falls by its amount, down to zero; asking for no priority is asking for the loan's own |
| LoanRuns.PaymentIsStamped | src/hedgelock/loan_manager/manager.py:56-93 | a payment under any priority sets both clocks and counts its whole amount as paid |
| LoanRuns.RaisingPrioritiesNeverHurts | src/hedgelock/loan_manager/manager.py:31-121 | for the same clock and amounts, raising the priority of any payments from interest first over proportional to principal first never leaves the borrower worse off on principal, total owed or lifetime interest, at any point of the run |
| LoanRuns.PrincipalFirstIsCheapest | src/hedgelock/loan_manager/manager.py:31-121 | so whatever priority each payment chooses, paying all principal first is at every point the best |
| LoanRuns.InterestFirstIsDearest | src/hedgelock/loan_manager/manager.py:31-121 | and paying all interest first the worst |
| LoanRuns.SamePriorityKeepsOrder | src/hedgelock/loan_manager/manager.py:95-121 | a payment of any one priority, proportional included, never lets the smaller of two debts overtake the larger |
| LoanRuns.ReadsAreHarmless | src/hedgelock/loan_manager/manager.py:43-54 | with one clock reading per accrual, erasing every update, LTV calculation and metrics call from a run and accruing once at the end gives the same loan and history |
| LoanRuns.ReadLosesTheGap | src/hedgelock/loan_manager/manager.py:33-49 | with two readings a read loses exactly the interest of the gap, so it is harmless if and only if balance, rate or gap is zero |
| LoanRuns.GapsOnlyForgiveInterest | src/hedgelock/loan_manager/manager.py:31-54 | over any run with gaps the borrower owes at most what the run without gaps would owe |
| LoanConservation.LoanConservation | src/hedgelock/loan_manager/manager.py:43-93 | principal and interest are conserved, the history replays every counter and balance, and paid exceeds applied by exactly the overpayments |
| LoanConservation.DebtConservation | src/hedgelock/loan_manager/manager.py:56-93 | debt at the end is debt at the start plus interest less money paid plus overpayments |
| LoanConservation.RecordedBalancesNeverRise | src/hedgelock/loan_manager/manager.py:78-87 | any later record shows no larger balance than any earlier one |
| LoanConservation.PaidOffIffCovered | src/hedgelock/loan_manager/manager.py:229-231 | a payment pays the loan off if and only if it covers what is owed after accrual |
| LoanConservation.PaidOffIsAbsorbing | src/hedgelock/loan_manager/manager.py:229-231 | once paid off no run changes anything but clock, payment date and money overpaid |
| LoanConservation.FromProfitBounds | src/hedgelock/loan_manager/manager.py:190-205 | a repayment from profit is the given share of the profit, held between the minimum payment and the debt; a profit too small repays the minimum, and a loss nothing |
| LoanConservation.QueueOverpaysTheExcess | src/hedgelock/loan_manager/service.py:183-196 | a queue drained at one instant overpays exactly the excess of its sum over the debt |
| LoanConservation.LoneProfitRepaymentNeverOverpays | src/hedgelock/loan_manager/service.py:108-123 | a repayment sized from profit never overpays, however late, if nothing else was paid since |
| LoanConservation.TwoProfitRepayments | src/hedgelock/loan_manager/service.py:108-123 | two repayments overpay exactly the excess of their sum over the debt |
| LoanConservation.TwoProfitRepaymentsOverpay | src/hedgelock/loan_manager/service.py:108-123 | with $100 owed, two profits of $200 overpay $100 |
| LoanService.LoanManager.constructor | src/hedgelock/loan_manager/manager.py:20-29 | a new manager owes the principal it was given, no interest, and has paid nothing |
| LoanService.LoanManager.UpdateInterest | src/hedgelock/loan_manager/manager.py:43-54 | an update is a read of the ledger and returns what it accrued |
| LoanService.LoanManager.CalculatePaymentPortions | src/hedgelock/loan_manager/manager.py:95-121 | the branches compute the split the lemmas are about |
| LoanService.LoanManager.ProcessRepayment | src/hedgelock/loan_manager/manager.py:56-93 | a repayment is a payment of the ledger, which goes where `PaymentGoesWhereAsked` says, and appends its record |
| LoanService.LoanManager.CalculateLtv | src/hedgelock/loan_manager/manager.py:123-158 | an LTV calculation is a read of the ledger and assesses the debt after accrual |
| LoanService.LoanManager.CalculateReserveDeployment | src/hedgelock/loan_manager/manager.py:160-188 | a deployment is capped by the reserves, none is under $1, and the record balances |
| LoanService.LoanManager.GetRepaymentFromProfit | src/hedgelock/loan_manager/manager.py:190-205 | computes the repayment that `FromProfitBounds` bounds |
| LoanQueue.ProcessedIsPrefixOfQueued | src/hedgelock/loan_manager/service.py:179-196 | under any interleaving of queueing, accruals and drain rounds, the requests processed and then those waiting are all ever queued, in order |
| LoanQueue.LedgerIsRunOfOps | src/hedgelock/loan_manager/service.py:179-210 | the ledger under the interleaving is the run of the calls its turns make, so every ledger theorem applies |
| LoanQueue.InterleavingLeavesNoTrace | src/hedgelock/loan_manager/service.py:179-210 | with one clock reading per accrual, history and accrued loan are those of the payments alone |
| LoanQueue.PaymentsFollowTheQueue | src/hedgelock/loan_manager/service.py:183-189 | the payments are for the requests queued first, each once and in FIFO order |
| LoanQueue.PaidOffIsAnnounced | src/hedgelock/loan_manager/service.py:191-196 | under any interleaving LOAN_PAID_OFF is never premature, and between rounds whose publications went out it is published if and only if the loan is paid off |
| LoanQueue.LostPublicationHidesPayoff | src/hedgelock/loan_manager/service.py:191-201 | a failed publication leaves a payoff unannounced exactly when that repayment covers what is owed after accrual |
| LoanQueue.RepaidCarriesTheNewRecord | src/hedgelock/loan_manager/service.py:187-192 | what is published is the record just added: the amount asked for and the balance it left |
| LoanQueue.TakeServesTheOldest | src/hedgelock/loan_manager/service.py:183-192 | the oldest request is paid with its own amount and priority, and a payoff check follows exactly when it was published |
| LoanQueue.CheckEndsTheRound | src/hedgelock/loan_manager/service.py:194-201 | the payoff check announces a loan that is paid off, and moves nothing else |
| LoanQueue.DrainServesEveryone | src/hedgelock/loan_manager/service.py:183-196 | left alone, the drain serves n requests in n rounds, in order, whichever publications fail |
| LoanService.Service.HandleProfitEvent | src/hedgelock/loan_manager/service.py:97-125 | what is queued, and when nothing is |
| LoanService.Service.TakeNext | src/hedgelock/loan_manager/service.py:186-192 | the oldest request leaves the queue, is repaid, and is published |
| LoanService.Service.CheckPaidOff | src/hedgelock/loan_manager/service.py:194-196 | the payoff check follows the publication |
| LoanService.Service.ProcessNext | src/hedgelock/loan_manager/service.py:186-196 | one round of the drain, with whatever the other tasks do while it publishes |
| LoanService.Service.ProcessRepayments | src/hedgelock/loan_manager/service.py:179-196 | the loop stops at an empty queue, and is the run of its rounds with the turns of the other tasks in between |
| LoanService.Service.CheckReserveDeployment | src/hedgelock/loan_manager/service.py:219-241 | the tracked reserves fall by exactly the deployed amount, over any treasury updates that arrive while it is published, unless the publication fails |
| LtvSchedule.LessCollateralNeverSoftens | src/hedgelock/loan_manager/manager.py:131-147 | for the same debt, less collateral never lowers tier or deployment nor raises scaling, distance or health |
| LtvSchedule.OnlyEmergencyJumps | src/hedgelock/loan_manager/models.py:103-139 | below 0.85 the schedule is continuous, entering an emergency adds at least 2000 at once, and action, deployment and scaling step at the same ratios |
| LtvSchedule.ScheduleInNumbers | src/hedgelock/loan_manager/manager.py:123-158 | the ratio, the reserves wanted on each sloping tier, the distance to liquidation and the health score, in numbers |
| LtvSchedule.DeploymentIsMaximal | src/hedgelock/loan_manager/manager.py:160-188 | a deployment is all that was wanted or all there is, and is made if and only if both reach a dollar |
| LtvSchedule.DeploymentsAreBounded | src/hedgelock/loan_manager/manager.py:160-188 | over any sequence of checks reserves stay non-negative, at most one deployment per dollar is made, and none at all exactly when the reserves are unchanged |
| ReserveLedger.EveryStateIsSound | src/hedgelock/reserve_manager/manager.py:29-158 | over every interleaving: both conservation laws, at most 90% deployed, available at least min(initial, 1000), current health, deployment ratio never understated |
| ReserveLedger.DeploymentRatioIsCurrentIff | src/hedgelock/reserve_manager/models.py:64 | over every run the reported deployment ratio is the real one if and only if no profit came since the last successful request, or nothing is deployed |
| ReserveLedger.DeploymentRatioGoesStale | src/hedgelock/reserve_manager/manager.py:93-101 | a concrete run that reports 5000 of 10200 as a half |
| ReserveLedger.ReserveRatioFloor | src/hedgelock/reserve_manager/manager.py:121-123 | total over total plus trading is at least 10/19 in every reachable state |
| ReserveLedger.BelowTargetIffAboveTenNineteenths | src/hedgelock/reserve_manager/manager.py:125-129 | some run takes the below-target branch if and only if the target exceeds 10/19 |
| ReserveLedger.SplitIsSound | src/hedgelock/reserve_manager/manager.py:107-142 | for any target, no part is negative if and only if the below-target branch is taken or the profit covers the minimum addition |
| ReserveLedger.SplitIsSoundAtLowTargets | src/hedgelock/reserve_manager/manager.py:107-142 | up to a target of 10/19 covering the minimum addition is the only way |
| ReserveLedger.SplitConserves | src/hedgelock/reserve_manager/manager.py:107-142 | for any target the parts sum to the profit, and the below-target branch takes at most half of it and at most the deficit |
| ReserveLedger.HistoryReplaysBalances | src/hedgelock/reserve_manager/manager.py:29-105 | total, collateral and trading balances are replayed from the two histories |
| ReserveLedger.DeploymentIsMaximal | src/hedgelock/reserve_manager/manager.py:29-86 | a request succeeds if and only if less than 90% is deployed and more than 1000 is available, is met in full or exhausts one of the two limits, and its record shows what moved |
| ReserveLedger.EmergencyRequestMovesNothing | src/hedgelock/reserve_manager/models.py:48-65 | an emergency deployment is recorded as made, of up to all but $100, and moves no balance |
| ReserveLedger.WithdrawalDelivers | src/hedgelock/reserve_manager/manager.py:144-158 | when a withdrawal returns anything, and when it returns everything |
| ReserveLedger.FullyDeployedIsStuck | src/hedgelock/reserve_manager/manager.py:144-158 | a reachable state from which no withdrawal of any size succeeds |
| ReserveLedger.RebalanceConvergesIff | src/hedgelock/reserve_manager/service.py:186-199 | the rebalance check reaches half the reserves in finitely many passes if and only if it was there or something was deployable |
| ReserveLedger.PassTakesAFifth | src/hedgelock/reserve_manager/service.py:186-199 | a pass takes a fifth of trading, or what is deployable if less, if and only if trading holds more than half of the reserves |
| ReserveLedger.PublishedWithdrawalIsRightIff | src/hedgelock/reserve_manager/service.py:190-198 | a pass publishes a withdrawal if and only if it makes one, and the right amount if and only if a fifth of trading was deployable |
| ReserveLedger.SchedulesAgree | src/hedgelock/reserve_manager/manager.py:221-236 | below 0.85 the amount is min(loan schedule, deployable), and for fixed reserves it never falls as the ratio rises, across all four tiers |
| ReserveLedger.AutoDeploymentRespectsLimits | src/hedgelock/reserve_manager/service.py:133-154 | an automatic request is an ordinary deployment to collateral, flagged as an emergency from a ratio of 0.85 on, and is granted in full if and only if the ratio is below 0.85 |
| ReserveManager.Manager.UpdateDeployment | src/hedgelock/reserve_manager/models.py:48-65 | the field updates are the ledger's deployment |
| ReserveManager.Manager.ProcessDeploymentRequest | src/hedgelock/reserve_manager/manager.py:29-86 | a request moves the ledger and appends its record, refused or not |
| ReserveManager.Manager.ProcessProfitRebalance | src/hedgelock/reserve_manager/manager.py:88-105 | a profit is the ledger's profit step |
| ReserveManager.Manager.WithdrawFromTradingCapital | src/hedgelock/reserve_manager/manager.py:144-158 | a withdrawal is the ledger's guarded withdrawal, and when it reports success |
| ReserveManager.Manager.RebalanceCheck | src/hedgelock/reserve_manager/service.py:186-199 | one pass of the rebalance check, and what it publishes |
| Funding.MultiplierStaysInBand | src/hedgelock/shared/funding_calculator.py:18-49 | a regime is detected exactly inside its band, each multiplier stays in its band and in [0, 1], and neighbouring bands share their edges on both scales |
| Funding.MultiplierInNumbers | src/hedgelock/shared/funding_calculator.py:36-92 | the multiplier is one if and only if the rate is below 10% in size, and its value on every band above, both trends and clamps included |
| Funding.AverageIsMean | src/hedgelock/shared/funding_models.py:31-68 | the average of any number of rates is the mean of the annualised rates |
| Funding.MultiplierIsAntitone | src/hedgelock/shared/funding_calculator.py:36-92 | for a fixed 24h average the multiplier never rises with the size of the rate, over the whole real line |
| Funding.TrendAndSizeMatter | src/hedgelock/shared/funding_calculator.py:75-92 | a falling rate earns strictly more than a rising one, and unclamped multipliers fall strictly |
| Funding.ContextMultiplierIsAntitone | src/hedgelock/shared/funding_calculator.py:95-132 | with the history fixed, empty or not, a larger rate never raises the multiplier |
| Funding.ContextIsMonotone | src/hedgelock/shared/funding_calculator.py:95-132 | a larger rate never lowers regime or costs and never clears the exit flag |
| Funding.ExitEquivalences | src/hedgelock/shared/funding_calculator.py:103-110 | exit flag, EXTREME, rate of at least 300, zero multiplier and exit-all advice are equivalent |
| Funding.CostsAddUpToTheRate | src/hedgelock/shared/funding_calculator.py:95-132 | a year of the projected daily costs is the annual rate, a week seven days of them, and what the averages are without a history |
| Funding.AdviceInNumbers | src/hedgelock/shared/funding_calculator.py:179-199 | which advice is given, by the size of the rate, the regime last seen and the trend |
| Funding.RiskScoreIsMonotone | src/hedgelock/shared/funding_calculator.py:135-169 | with a 24h history the funding risk score never falls as the rate grows |
| Funding.SteadyTrendReadsTheSign | src/hedgelock/shared/funding_calculator.py:143-152 | without history the trend score is decided by the sign of the rate, and the score is monotone within one sign |
| Funding.RiskScoreCanFallWithoutHistory | src/hedgelock/shared/funding_calculator.py:135-169 | with no history, at any volatility, -1% scores higher than +20% |
| Funding.OppositeRatesScoreDifferently | src/hedgelock/shared/funding_calculator.py:143-152 | with a 7d history alone, 1.6 times its average and the opposite rate score differently |
| Funding.ScoreGrowsWithSizeIff | src/hedgelock/shared/funding_calculator.py:135-169 | the risk score grows with the size of the rate if and only if there is a 24h history |
| Funding.RiskScoreInNumbers | src/hedgelock/shared/funding_calculator.py:135-169 | the points that rate, trend, volatility and regime give |
| RiskEngine.FundingOnlyRaisesRisk | src/hedgelock/risk_engine/calculator.py:63-80 | funding never lowers risk state or adjusted score, and a larger rate never lowers either |
| RiskEngine.StateFromAccountAndFunding | src/hedgelock/risk_engine/calculator.py:109-118 | each state is reached exactly when debt reaches its share of the collateral; 100% funding lifts calm to caution and nothing else, and 300% is critical |
| RiskEngine.ScoreFromAccount | src/hedgelock/risk_engine/calculator.py:120-129 | seventy points for the whole collateral in debt and three a bitcoin of delta, the funding impact on top, and the message carries the multiplier of the context or one |
| RiskEngine.AccountRiskIsMonotone | src/hedgelock/risk_engine/calculator.py:109-129 | each threshold is crossed exactly when reached, and state and score are monotone in ratio and size of delta, and ratio and delta weigh at most 70 and 30 points |
| RiskEngine.FundingImpactBound | src/hedgelock/risk_engine/calculator.py:225-250 | funding adds more than its documented 30 points if and only if the rate is extreme and the volatility above 50 |
| RiskEngine.Calculator.CreateRiskStateMessage | src/hedgelock/risk_engine/calculator.py:131-183 | the change flag compares with the last reported state, and the kept history is the last hundred of all |
| Hedger.HedgeNeverOvershoots | src/hedgelock/hedger/main.py:175-257 | the size of an order is the distance to the target times the multiplier, up to the largest order; it moves the delta towards the target by its whole size and never past it; and when there is no order |
| Hedger.OrderIsScaledDistance | src/hedgelock/hedger/main.py:175-236 | an order for a message that scales is the distance times the multiplier, up to the largest order |
| Hedger.UncappedOrderLeavesTheRest | src/hedgelock/hedger/main.py:175-236 | from snapshot and account to delta: an order within the largest leaves exactly the unscaled part of the distance, and below 10% funding it reaches the target of the risk state |
| Hedger.ZeroMultiplierHedgesInFull | src/hedgelock/hedger/main.py:181-187 | a multiplier of zero without an exit flag hedges like a multiplier of one |
| Hedger.DefaultsInNumbers | src/hedgelock/config.py:108-160 | with the default settings and funding below 10%, the target by the debt's share of the collateral, and the one order that reaches it between 0.001 and 10 bitcoin |
| Hedger.HedgingStops | src/hedgelock/hedger/main.py:175-257 | at one risk state at most distance over minimum order orders are ever issued, whatever the multipliers |
| Hedger.QuietStaysQuiet | src/hedgelock/hedger/main.py:219-225 | once a multiplier draws no order, none up to it ever will |
| Hedger.HedgingConverges | src/hedgelock/hedger/main.py:175-257 | enough repetitions of one message leave the delta within 0.001 of the target, or so near that the scaled hedge is below the minimum order |
| Hedger.PipelineExits | src/hedgelock/hedger/main.py:205-218 | from snapshot and account to delta: exits and zero multipliers arise exactly from 300% on, and leave a delta of exactly zero unless no hedge is recommended |
| Hedger.PipelineHedges | src/hedgelock/hedger/main.py:181-236 | below 300% the multiplier is a proper fraction and the hedge moves towards the target of the risk state and not past it |
| Hedger.EmergencyCanLeaveTheShort | src/hedgelock/risk_engine/calculator.py:185-201 | at the default targets a short of 0.1 survives any emergency |
| Hedger.Books.ExecuteHedge | src/hedgelock/hedger/main.py:297-353 | position and counters are those of every trade ever attempted though only a hundred are kept |
| RateLimiter.RunIsOrdered | src/hedgelock/trade_executor/bybit_client.py:61-80 | under any clock that never runs back, admissions never go back, fill a window in order, and windows open at least a second apart |
| RateLimiter.BoundedIffEdgesOnce | src/hedgelock/trade_executor/bybit_client.py:70-76 | no window takes more than one order past its limit if and only if no call finds a window past its limit at exactly one second |
| RateLimiter.WindowOverrunsIff | src/hedgelock/trade_executor/bybit_client.py:70-76 | an order is further past the limit if and only if an earlier one of its window found it full and exactly one second old |
| RateLimiter.StrictClockIsEnough | src/hedgelock/trade_executor/bybit_client.py:70-76 | a strictly increasing clock rules that out |
| RateLimiter.StrictClockAdvances | src/hedgelock/trade_executor/bybit_client.py:61-80 | and with it admissions strictly advance |
| RateLimiter.WindowAdmitsAtMostLimit | src/hedgelock/trade_executor/bybit_client.py:61-80 | the second a window opens with admits at most the limit |
| RateLimiter.AnySecondAdmitsAtMostTwiceTheLimit | src/hedgelock/trade_executor/bybit_client.py:61-80 | while no window overruns, in particular under a strictly increasing clock, any half-open second of any run holds at most twice the limit |
| RateLimiter.TwiceTheLimitIsReached | src/hedgelock/trade_executor/bybit_client.py:61-80 | at every limit, a run with a strictly increasing clock puts twice the limit into one second |
| RateLimiter.SleepsOnlyWhenFull | src/hedgelock/trade_executor/bybit_client.py:70-76 | an order waits only if the limit was admitted in the last second |
| RateLimiter.RepeatedInstantsAreUnbounded | src/hedgelock/trade_executor/bybit_client.py:66-80 | for every limit, any number of orders at one instant, with a clock that only repeats a reading |
| RateLimiter.OrderClient.CheckRateLimit | src/hedgelock/trade_executor/bybit_client.py:61-80 | the counters are those of the run of all calls so far, and the admission it adds |
| PnlCalculator.LegIsExact | src/hedgelock/position_manager/pnl_calculator.py:82-166 | for a leg of any sign, realised plus forgone P&L less the growth of the cost basis is the cash that flowed |
| PnlCalculator.MissedIsZeroIff | src/hedgelock/position_manager/pnl_calculator.py:128-166 | a move forgoes nothing if and only if it is booked, averaged in, empty, or made at the entry price |
| PnlCalculator.LegsAreIndependent | src/hedgelock/position_manager/pnl_calculator.py:128-145 | from any book, the shared book is the two single-leg runs |
| PnlCalculator.AverageCostIsExact | src/hedgelock/position_manager/pnl_calculator.py:82-166 | over any run from any book and at any mark, what is shown grows by cash flow and marked value, less what was forgone, less what oversold legs hide |
| PnlCalculator.ShownIsFairIff | src/hedgelock/position_manager/pnl_calculator.py:82-99 | while one leg is oversold the shown P&L is right if and only if the mark is that leg's entry price |
| PnlCalculator.ShownIsFairAtEveryMarkIff | src/hedgelock/position_manager/pnl_calculator.py:82-99 | it is right at every mark if and only if no leg is oversold, or both by the same quantity at the same entry price |
| PnlCalculator.ShownIsCashPlusWorthIff | src/hedgelock/position_manager/pnl_calculator.py:82-166 | after moves that forgo nothing, it grows by cash plus marked value if and only if the mark is the oversold leg's entry price, or none is oversold |
| PnlCalculator.DropKeepsPnlIff | src/hedgelock/position_manager/service.py:225-243 | an unbooked reduction keeps the shown P&L if and only if it is made at the entry price or the leg held nothing |
| PnlCalculator.HarmlessForgoesNothing | src/hedgelock/position_manager/pnl_calculator.py:128-166 | a run of such moves forgoes nothing |
| PnlCalculator.NoDropsNothingForgone | src/hedgelock/position_manager/pnl_calculator.py:128-145 | increases, and closes of no more than is held, forgo nothing |
| PnlCalculator.EntryStaysWithinPrices | src/hedgelock/position_manager/pnl_calculator.py:147-166 | while a leg is open, however often it was oversold, its entry price lies between the lowest and highest prices added since opening |
| PnlCalculator.Calculator.RealizePnl | src/hedgelock/position_manager/pnl_calculator.py:128-145 | realised P&L of both legs, and the counter it adds to |
| PnlCalculator.Calculator.UpdateEntryPrices | src/hedgelock/position_manager/pnl_calculator.py:147-166 | only the named leg is repriced, to the average the lemmas are about |
| PositionManager.RehedgeNeutralises | src/hedgelock/position_manager/manager.py:101-120 | a rehedge that acts puts the book at delta zero, and it acts if and only if the two adjustments differ by more than 0.001 |
| PositionManager.OrderLeavesTwiceTheHedge | src/hedgelock/position_manager/service.py:178-208 | the order leaves twice the hedge ratio of the delta on the exchange: zero if and only if funding scales the hedge to zero, more than before if and only if the volatility is at least 4% and funding scales nothing |
| PositionManager.FundingNeverScalesTheHedge | src/hedgelock/position_manager/manager.py:85-96 | for every regime as the funding engine writes it, the hedge ratio is the unscaled one |
| PositionManager.HedgeInNumbers | src/hedgelock/position_manager/manager.py:56-96 | the hedge ratio by volatility, and what the capitalised regimes would make of it |
| PositionManager.LegsStayBalanced | src/hedgelock/position_manager/service.py:167-243 | under any interleaving without overlapping rehedges, abandoned ones included, the delta is zero or the spot holding, the short leg is never negative, and once flattened the long leg is never positive |
| PositionManager.AbandonedRehedgeLeavesNothing | src/hedgelock/position_manager/service.py:167-230 | a rehedge abandoned after it was planned leaves the legs and the plans as they were |
| PositionManager.LongShowsNothingOnceFlat | src/hedgelock/position_manager/service.py:337-338 | after the first close the long leg shows no P&L again, at any mark |
| PositionManager.OpeningIsBare | src/hedgelock/position_manager/service.py:44-55 | the opening legs start such runs, and so does whatever such a run saved |
| PositionManager.OverlappingRehedgesOvershoot | src/hedgelock/position_manager/service.py:167-230 | n rehedges decided at one delta leave 1 - n times it |
| PositionManager.DropBothKeepsPnlIff | src/hedgelock/position_manager/service.py:337-338 | dropping both legs keeps the shown P&L if and only if what they show cancels, for equal legs if and only if the entry prices agree |
| PositionManager.ProfitIsPublishedTwice | src/hedgelock/position_manager/service.py:306-338 | what profit taking publishes exceeds what is shown before and after by the profit realised, and is right if and only if that is zero |
| PositionManager.CounterIsSumOfProfits | src/hedgelock/position_manager/service.py:309-312 | over any run of rehedges, emergency closes and profit takes, the realised counter is the sum of what profit taking took |
| PositionManager.NearlyEqualLegsRealizeNothing | src/hedgelock/position_manager/service.py:300-338 | legs within 0.001 of each other are dropped by profit taking with nothing realised |
| PositionManager.RecipientsHearRealizedIff | src/hedgelock/position_manager/service.py:322-333 | over any run that ends with a profit event, gains or losses, the recipients have heard at least the realised total where positive, and exactly that if and only if no earlier event announced a positive total |
| PositionManager.UnsentProfitIsTakenAgain | src/hedgelock/position_manager/service.py:322-338 | a profit whose event cannot be published is realised twice |
| PositionManager.FirstProfitTakeLoses | src/hedgelock/position_manager/manager.py:145-153 | from the opening legs, taking profit at the target of 119480 realises -939.6 |
| PositionManager.RehedgeForgoesPnl | src/hedgelock/position_manager/service.py:167-243 | the service's first rehedge, at 106000, makes a loss of 1620 disappear |
| PositionManager.OversoldLegIsHidden | src/hedgelock/position_manager/manager.py:113-120 | after a close at 116000 the next rehedge sells 0.162 of nothing, and the P&L shown misses that leg at every mark |
| PositionManager.Position.constructor | src/hedgelock/position_manager/service.py:44-55 | the service opens with 0.213 on each leg |
| PositionManager.Position.RecoverState | src/hedgelock/position_manager/service.py:424-447 | a restart takes the saved quantities and leaves the entry prices |
| PositionManager.Position.GenerateHedgeDecision | src/hedgelock/position_manager/manager.py:98-120 | both branches of the decision |
| PositionManager.Position.ApplyDecision | src/hedgelock/position_manager/service.py:225-243 | applying a decision is at most one increase or unrealised reduction per leg |
| PositionManager.Position.RehedgePositions | src/hedgelock/position_manager/service.py:167-243 | an undisturbed rehedge, the order it sends, and the delta of zero it leaves |
| PositionManager.Position.TakeProfit | src/hedgelock/position_manager/service.py:268-338 | for legs of any sign, profit taking realises what is held unless the legs nearly cancel, what it publishes and announces, and that the legs go to zero only if the announcement went out |
| PositionManager.Position.EmergencyClosePositions | src/hedgelock/position_manager/service.py:347-402 | an emergency close drops both legs unrealised |
| CircuitBreakers.TriggersAreSpaced | src/hedgelock/safety_manager/models.py:116-141 | a run spanning D triggers a breaker at most D/cooldown + 1 times, and once if it never resets itself |
| CircuitBreakers.ActiveExactlyDuringCooldown | src/hedgelock/safety_manager/models.py:116-141 | active after any breach, and after a reset check exactly while the cooldown lasts |
| CircuitBreakers.BreakerSitsOutItsMinutes | src/hedgelock/safety_manager/models.py:116-141 | a new breaker starts quiet; tripped, it keeps the value and stays active until a reset check a cooldown of minutes later |
| CircuitBreakers.EveryActiveBreakerIsListed | src/hedgelock/safety_manager/manager.py:159-197 | under any interleaving of the two loops every active breaker is listed |
| CircuitBreakers.ListedButInactive | src/hedgelock/safety_manager/manager.py:187-195 | under any interleaving a breaker is listed and inactive if and only if it was active when last listed and either loop has since offered a reset a cooldown or more after it triggered |
| CircuitBreakers.BothLoopsLeaveAStaleListing | src/hedgelock/safety_manager/service.py:235-237 | a concrete run of each kind |
| CircuitBreakers.PanelTriggersAreSpaced | src/hedgelock/safety_manager/service.py:197-240 | the trigger bound for each of the four breakers in the manager |
| CircuitBreakers.CircuitBreaker.CheckTrigger | src/hedgelock/safety_manager/models.py:116-128 | the object follows the trigger step and reports whether it fired |
| CircuitBreakers.CircuitBreaker.CheckReset | src/hedgelock/safety_manager/models.py:130-141 | the object follows the reset step and reports whether it reset |
| CircuitBreakers.SafetyManager.constructor | src/hedgelock/safety_manager/manager.py:35-63 | four distinct breakers with their cooldowns |
| CircuitBreakers.FiredNamesCountTriggers | src/hedgelock/safety_manager/manager.py:163-185 | the names a pass returns are those whose trigger counts rise |
| CircuitBreakers.FiredNamesAreInOrder | src/hedgelock/safety_manager/manager.py:163-185 | each once, in the order checked |
| CircuitBreakers.BreakersFireBySize | src/hedgelock/safety_manager/manager.py:163-185 | an inactive daily-loss breaker fires if and only if the metric reaches its positive threshold in size, each other one if and only if its metric reaches its own, and none without its metric |
| CircuitBreakers.PassCountsTheFired | src/hedgelock/safety_manager/manager.py:163-185 | a pass stamps and counts exactly the breakers that fire |
| CircuitBreakers.SafetyManager.CheckCircuitBreakers | src/hedgelock/safety_manager/manager.py:159-197 | one monitoring pass over the four objects, and exactly the names it returns, those that `BreakersFireBySize` tells by size |
| CircuitBreakers.SafetyManager.ListActive | src/hedgelock/safety_manager/manager.py:187-190 | the listing names exactly the active breakers, in order |
| CircuitBreakers.SafetyManager.CheckResetOf | src/hedgelock/safety_manager/service.py:228-237 | one check of the reset loop touches one breaker and not the listing |
| OrderRate.WindowIsFilteredLog | src/hedgelock/safety_manager/service.py:179-195 | the incremental window is the whole execution log filtered by the latest cutoff |
| OrderRate.WindowInSeconds | src/hedgelock/safety_manager/service.py:179-195 | after an execution the window holds exactly the timestamps less than sixty seconds old, and the rate is their number |
| OrderRate.ReportedRateIsCurrentIff | src/hedgelock/safety_manager/service.py:179-195 | the reported rate never understates the true one, and equals it if and only if nothing expired since |
| OrderRate.QuietMinuteStillReportsOrders | src/hedgelock/safety_manager/service.py:194-211 | a minute after the last trade the true rate is zero and the reported one is not |
| OrderRate.Tracker.HandleTradeExecution | src/hedgelock/safety_manager/service.py:179-195 | the object follows the window step |
| FundingStorage.StoreIsTrimmedLog | src/hedgelock/funding_engine/storage.py:30-58 | after any number of trimmings the store is the full log less one cutoff |
| FundingStorage.TrimmingIsInvisible | src/hedgelock/funding_engine/storage.py:64-89 | a history query under 168 hours equals the query of the untrimmed log, order included |
| FundingStorage.HistoryHoldsExactly | src/hedgelock/funding_engine/storage.py:64-89 | below 168 hours a query returns, in order of funding time, exactly the rates ever stored from that many hours ago up to now |
| FundingStorage.WholeExactlyBelowTheWindow | src/hedgelock/funding_engine/storage.py:50-54 | that holds for every run if and only if the query is shorter than 168 hours |
| FundingStorage.CacheAgreesIff | src/hedgelock/funding_engine/storage.py:91-120 | when the cached current rate and the history fallback agree |
| FundingStorage.CacheLivesAnHour | src/hedgelock/funding_engine/storage.py:91-120 | the last stored rate is current for an hour, and then the latest of the history is |
| FundingStorage.CurrentIsLastStored | src/hedgelock/funding_engine/storage.py:91-120 | with strictly increasing in-window times the current rate is the last stored, cache expired or not |
| FundingStorage.Storage.StoreFundingRate | src/hedgelock/funding_engine/storage.py:30-58 | storing follows the store step and extends the run |
| FundingStorage.Storage.GetFundingHistory | src/hedgelock/funding_engine/storage.py:64-89 | the range query, and below 168 hours the range of everything ever stored |
| FundingStorage.Storage.GetCurrentFundingRate | src/hedgelock/funding_engine/storage.py:91-120 | the cached rate while it lives, else the latest of the history; with rising recent times, the last one stored |
| TradeExecutor.TrackingEnds | src/hedgelock/trade_executor/service.py:271-310 | tracking ends within ceil(timeout/interval) polls |
| TradeExecutor.TrackingOutcome | src/hedgelock/trade_executor/service.py:286-317 | the final status in terms of the replies alone, each reply that settles it (filled, cancelled, rejected) with the amount filled; never submitted |
| TradeExecutor.TradeExecution.TrackOrderStatus | src/hedgelock/trade_executor/service.py:271-317 | the poll loop stops where it must and leaves a settled status |
| TradeExecutor.DailyVolumeWithinLimit | src/hedgelock/trade_executor/service.py:259-269 | with fills within orders the recorded daily volume never exceeds its limit, over any run with day rollovers |
| TradeExecutor.EachDayStaysWithinLimit | src/hedgelock/trade_executor/service.py:250-269 | over any run with days that never go back, what is filled on any one day, by the days of the jobs alone, stays within the limit, on the first day together with the volume at the start |
| TradeExecutor.SameDayKeepsVolume | src/hedgelock/trade_executor/service.py:350-356 | an order of the same day finds the volume the order before it left |
| TradeExecutor.VolumeMissesUncounted | src/hedgelock/trade_executor/service.py:319-331 | the volume falls short of what the exchange executed by exactly what it never recorded, seemingly failed placements included |
| TradeExecutor.VolumeIsTradedIff | src/hedgelock/trade_executor/service.py:319-331 | it is what the exchange executed if and only if every order of the day within the limits was filled in full with a complete message, or executed nothing |
| TradeExecutor.TradingWithinLimit | src/hedgelock/trade_executor/service.py:259-269 | under that condition real trading keeps the daily limit |
| TradeExecutor.PartialFillsEscapeTheLimit | src/hedgelock/trade_executor/service.py:295-299 | with partial fills real trading exceeds any limit at volume zero |
| TradeExecutor.EveryJobIsAccounted | src/hedgelock/trade_executor/service.py:319-346 | over any run every message is submitted or aborted, and every submitted one filled, rejected, failed or ended without a counter |
| TradeExecutor.JobIsAccounted | src/hedgelock/trade_executor/service.py:319-346 | one message: which counters move, what the volume grows by, and the execution that is remembered last |
| TradeExecutor.OnlyTimeoutsCountAsFailed | src/hedgelock/trade_executor/service.py:210-248 | the failed counter counts timeouts only, and aborted messages move no counter |
| TradeExecutor.RefusalsAreNotCounted | src/hedgelock/trade_executor/models.py:106 | any number of oversized orders leaves every counter at zero |
| TradeExecutor.UnpublishedEndsFailed | src/hedgelock/trade_executor/kafka_config.py:46 | while no confirmation can be published every remembered execution ends failed, and the filled counter still counts every complete fill |
| TradeExecutor.Service.CheckSafetyLimits | src/hedgelock/trade_executor/service.py:250-269 | it passes within the order limit and what is left of the day, which starts at zero on a later day than the last recorded one, and records that day |
| TradeExecutor.Service.UpdateStatistics | src/hedgelock/trade_executor/service.py:319-346 | the counters, the volume and the ten latest executions |
| TradeExecutor.Service.Confirm | src/hedgelock/trade_executor/service.py:199-248 | a confirmation that cannot be published leaves the counters and fails the execution where it is remembered |
| TradeExecutor.Service.ProcessHedgeTrade | src/hedgelock/trade_executor/service.py:123-248 | one message from check to confirmation, after which nothing is pending |

## Left out

- Floating-point rounding, and the rounding of the risk score to two decimals.
- Kafka, HTTP, signatures, metrics and logging: sends are events or outcomes passed in.
- Redis beyond one sorted set and one expiring cell, for one symbol; keys never interact.
- Timestamps and notes of repayment, deployment and LTV records.
- Reserve alerts, and the alerts, risk limits, panic and dead man's switch of the safety manager: threshold tests that would only add easy members.
- A WITHDRAW_FROM_TRADING request queued directly: it bypasses the guard, and no invariant is claimed for it.
- The division by zero when a profit is added to total reserves of zero, which no reachable state has, and when metrics are published for a loan of principal zero.
- Spot and funding P&L: the first is one product, the second accumulates on every read.
- Volatility of the funding history: a square root, taken as given.
- The target_delta field of a hedge decision, which adds an unsigned quantity and steers nothing.
- Latency averages of the executor, and retries, which the source never makes.
- PositionManager.Position.RehedgePositions: undisturbed; what happens to the legs while its order is published is in the runs of `LegsStayBalanced`, and the P&L theorems hold for any order of events.
- PositionManager.Position.TakeProfit: undisturbed in the same sense, from the realisation on.
- PositionManager.LegsStayBalanced: the spot holding is constant, as no code changes it.
- RateLimiter.AnySecondAdmitsAtMostTwiceTheLimit: assumes the first clock reading is past the first second of 1970.
- The parsing of stored rates: a stored text and the rate it decodes to are one value.
- TradeExecutor.DailyVolumeWithinLimit: assumes the exchange never reports a complete fill larger than the order.
- TradeExecutor.VolumeIsTradedIff: assumes the exchange executes no negative amount and reports no complete fill larger than it executed.
