/** The loan manager object and the service that queues and drains repayments. */
module LoanService {
  import opened Basics
  import opened LoanLedger
  import opened LoanQueue
  import LtvSchedule
  import LoanConservation

  datatype ReserveDeployment = ReserveDeployment(
    ltvRatio: real,
    amount: real,
    fromReserve: real,
    toReserve: real,
    emergency: bool)

  class LoanManager {
    const principal: real
    const apr: real
    const priority: Priority
    const minPayment: real
    var balance: real
    var totalPaid: real
    var principalPaid: real
    var interestPaid: real
    var lastCalc: real
    var lastPayment: Option<real>
    var accrued: real
    var lifetimeInterest: real
    var repaymentHistory: seq<Repayment>
    var ltvHistory: seq<LtvSchedule.LtvState>
    var deploymentHistory: seq<ReserveDeployment>

    function State(): Ledger
      reads this
    {
      Ledger(
        Loan(principal, balance, apr, totalPaid, principalPaid, interestPaid, lastCalc,
             lastPayment, accrued, lifetimeInterest, priority, minPayment),
        repaymentHistory)
    }

    constructor (initialPrincipal: real, rate: real, start: real)
      ensures State() == NewLedger(initialPrincipal, rate, start)
      ensures balance == principal == initialPrincipal && apr == rate && minPayment == 10.0
      ensures accrued == totalPaid == lifetimeInterest == 0.0 && priority == InterestFirst && lastCalc == start
      ensures ltvHistory == [] && deploymentHistory == []
    {
      principal, balance, apr := initialPrincipal, initialPrincipal, rate;
      totalPaid, principalPaid, interestPaid := 0.0, 0.0, 0.0;
      lastCalc, lastPayment := start, None;
      accrued, lifetimeInterest := 0.0, 0.0;
      priority, minPayment := InterestFirst, 10.0;
      repaymentHistory, ltvHistory, deploymentHistory := [], [], [];
    }

    method UpdateInterest(now: real, stamp: real) returns (interest: real)
      modifies this`accrued, this`lifetimeInterest, this`lastCalc
      ensures State() == Step(old(State()), Read(now, stamp))
      ensures interest == lifetimeInterest - old(lifetimeInterest)
    {
      var hours := (now - lastCalc) / 3600.0;
      var hourlyRate := apr / 365.0 / 24.0;
      interest := balance * hourlyRate * hours;
      assert interest == balance * (hourlyRate * hours);
      accrued := accrued + interest;
      lifetimeInterest := lifetimeInterest + interest;
      lastCalc := stamp;
    }

    method CalculatePaymentPortions(amount: real, p: Priority) returns (principalPortion: real, interestPortion: real)
      ensures Portions(principalPortion, interestPortion) == Split(State().loan, amount, p)
    {
      match p {
        case InterestFirst =>
          interestPortion := Min(amount, accrued);
          principalPortion := amount - interestPortion;
          principalPortion := Min(principalPortion, balance);
        case PrincipalFirst =>
          principalPortion := Min(amount, balance);
          interestPortion := amount - principalPortion;
          interestPortion := Min(interestPortion, accrued);
        case Proportional =>
          var totalOwed := balance + accrued;
          if totalOwed > 0.0 {
            var principalRatio := balance / totalOwed;
            principalPortion := Min(amount * principalRatio, balance);
            interestPortion := Min(amount - principalPortion, accrued);
          } else {
            principalPortion, interestPortion := 0.0, 0.0;
          }
      }
    }

    method ProcessRepayment(amount: real, requested: Option<Priority>, now: real, stamp: real, paidAt: real)
      returns (record: Repayment)
      modifies this
      ensures State() == Step(old(State()), Pay(now, stamp, paidAt, amount, requested))
      ensures repaymentHistory == old(repaymentHistory) + [record]
      ensures ltvHistory == old(ltvHistory) && deploymentHistory == old(deploymentHistory)
    {
      hide Accrue, Split;
      var _ := UpdateInterest(now, stamp);
      var p := if requested.Some? then requested.value else priority;
      var principalPortion, interestPortion := CalculatePaymentPortions(amount, p);
      balance := balance - principalPortion;
      principalPaid := principalPaid + principalPortion;
      interestPaid := interestPaid + interestPortion;
      accrued := accrued - interestPortion;
      totalPaid := totalPaid + amount;
      lastPayment := Some(paidAt);
      record := Repayment(amount, principalPortion, interestPortion, balance);
      repaymentHistory := repaymentHistory + [record];
    }

    /** The LTV is that of the debt after accrual; the loan itself is only read. */
    method CalculateLtv(collateral: real, now: real, stamp: real) returns (ltv: LtvSchedule.LtvState)
      modifies this
      ensures State() == Step(old(State()), Read(now, stamp))
      ensures ltv == LtvSchedule.Assess(Owed(State().loan), collateral)
      ensures ltvHistory == old(ltvHistory) + [ltv]
      ensures deploymentHistory == old(deploymentHistory)
    {
      var _ := UpdateInterest(now, stamp);
      var debt := balance + accrued;
      var ratio := if collateral > 0.0 then debt / collateral else 1.0;
      ltv := LtvSchedule.LtvState(
        collateral, debt, ratio, LtvSchedule.Safe, 0.0, 1.0,
        Max(0.0, (0.95 - ratio) / 0.95),
        Max(0.0, Min(100.0, (1.0 - ratio) * 100.0)));
      ltv := ltv.(action := LtvSchedule.ActionFor(ratio));
      ltv := ltv.(reserveDeployment := LtvSchedule.Wanted(ratio));
      ltv := ltv.(positionScaling := LtvSchedule.Scaling(ratio));
      ltvHistory := ltvHistory + [ltv];
    }

    method CalculateReserveDeployment(ltv: LtvSchedule.LtvState, available: real)
      returns (deployment: Option<ReserveDeployment>)
      modifies this`deploymentHistory
      ensures var d := LtvSchedule.Deployment(ltv.reserveDeployment, available);
              deployment == if d.None? then None else Some(ReserveDeployment(
                ltv.ratio, d.value, available, available - d.value,
                ltv.action.Critical? || ltv.action.Emergency?))
      ensures deploymentHistory ==
              old(deploymentHistory) + (if deployment.Some? then [deployment.value] else [])
    {
      if ltv.reserveDeployment <= 0.0 {
        return None;
      }
      var amount := Min(ltv.reserveDeployment, available);
      if amount < 1.0 {
        return None;
      }
      var d := ReserveDeployment(ltv.ratio, amount, available, available - amount,
                                 ltv.action == LtvSchedule.Critical || ltv.action == LtvSchedule.Emergency);
      deploymentHistory := deploymentHistory + [d];
      return Some(d);
    }

    method GetRepaymentFromProfit(profit: real, share: real) returns (amount: real)
      ensures amount == LoanConservation.FromProfit(State().loan, profit, share)
    {
      if profit <= 0.0 {
        return 0.0;
      }
      amount := profit * share;
      amount := Max(amount, minPayment);
      var totalOwed := balance + accrued;
      amount := Min(amount, totalOwed);
    }
  }

  /** One round of the drain, and what the other tasks do while it publishes. */
  datatype Round = Round(take: Turn, during: seq<Turn>, check: Turn, after: seq<Turn>)

  ghost predicate Others(turns: seq<Turn>) {
    forall i :: 0 <= i < |turns| ==> turns[i].Enqueue? || turns[i].Touch?
  }

  ghost predicate WellFormed(r: Round) {
    r.take.Take? && r.check.Check? && Others(r.during) && Others(r.after)
  }

  function TurnsOf(rounds: seq<Round>): seq<Turn> {
    if |rounds| == 0 then [] else
      var r := rounds[|rounds| - 1];
      TurnsOf(rounds[..|rounds| - 1]) + ([r.take] + r.during + [r.check] + r.after)
  }

  lemma OthersTurn(d: Desk, t: Turn)
    requires t.Enqueue? || t.Touch?
    ensures Turned(d, t) == if t.Enqueue? then d.(queue := d.queue + [t.request])
                            else d.(ledger := Step(d.ledger, Read(t.now, t.stamp)))
  {
  }

  lemma {:induction false} OthersKeepChecking(d: Desk, turns: seq<Turn>)
    requires Others(turns)
    ensures DeskRun(d, turns).checking == d.checking
  {
    if |turns| != 0 {
      OthersKeepChecking(d, turns[..|turns| - 1]);
      assert turns[|turns| - 1].Enqueue? || turns[|turns| - 1].Touch?;
    }
  }

  lemma TakeTurn(d: Desk, t: Turn)
    requires t.Take? && Enabled(d, t)
    ensures Turned(d, t).checking == t.sent
  {
  }

  lemma CheckTurn(d: Desk, t: Turn)
    requires t.Check?
    ensures !Turned(d, t).checking
    ensures !d.checking ==> Turned(d, t) == d
  {
  }

  lemma DeskOfOne(d: Desk, t: Turn)
    ensures DeskRun(d, [t]) == Turned(d, t)
  {
    assert [t][..0] == [];
  }

  lemma DeskOfNone(d: Desk)
    ensures DeskRun(d, []) == d
  {
  }

  class Service {
    const manager: LoanManager
    const autoRepay: bool
    const allocation: real
    const minPayment: real
    const priority: Priority
    var availableReserves: real
    var repaymentQueue: seq<Request>
    var published: seq<Message>
    ghost var processed: seq<Request>
    ghost var checking: bool
    ghost var lastSent: bool

    ghost function State(): Desk
      reads this, manager
    {
      Desk(manager.State(), repaymentQueue, processed, checking, lastSent, published)
    }

    constructor (m: LoanManager, autoRepay: bool, allocation: real, minPayment: real, priority: Priority)
      ensures manager == m && this.minPayment == minPayment && this.autoRepay == autoRepay
      ensures this.allocation == allocation && this.priority == priority
      ensures availableReserves == 10000.0 && State() == Desk(m.State(), [], [], false, true, [])
    {
      manager, this.autoRepay, this.allocation := m, autoRepay, allocation;
      this.minPayment, this.priority := minPayment, priority;
      availableReserves, repaymentQueue, published := 10000.0, [], [];
      processed, checking, lastSent := [], false, true;
    }

    method HandleProfitEvent(realizedPnl: real)
      modifies this`repaymentQueue
      ensures var amount := LoanConservation.FromProfit(manager.State().loan, realizedPnl, allocation);
              State() == if autoRepay && realizedPnl > 0.0 && amount >= minPayment
                         then Turned(old(State()), Enqueue(Request(amount, Some(priority))))
                         else old(State())
    {
      if !autoRepay || realizedPnl <= 0.0 {
        return;
      }
      var amount := manager.GetRepaymentFromProfit(realizedPnl, allocation);
      if amount >= minPayment {
        repaymentQueue := repaymentQueue + [Request(amount, Some(priority))];
      }
    }

    /** Pops the oldest request, repays it and publishes the result. Publishing the metrics
        divides by the original principal. */
    method TakeNext(t: Turn)
      requires t.Take? && !checking && |repaymentQueue| != 0 && manager.principal != 0.0
      modifies this`repaymentQueue, this`published, this`processed, this`checking, this`lastSent, manager
      ensures State() == Turned(old(State()), t)
    {
      var request := repaymentQueue[0];
      repaymentQueue := repaymentQueue[1..];
      processed := processed + [request];
      var record := manager.ProcessRepayment(request.amount, request.priority, t.now, t.stamp, t.paidAt);
      var _ := manager.UpdateInterest(t.metricsNow, t.metricsStamp);
      checking, lastSent := t.sent, t.sent;
      if t.sent {
        published := published + [Repaid(record)];
      }
    }

    method CheckPaidOff(t: Turn)
      requires t.Check? && checking && manager.principal != 0.0
      modifies this`published, this`checking, this`lastSent, manager
      ensures State() == Turned(old(State()), t)
    {
      checking := false;
      if manager.balance <= 0.0 && manager.accrued <= 0.0 {
        var _ := manager.UpdateInterest(t.now, t.stamp);
        lastSent := t.sent;
        if t.sent {
          published := published + [LoanPaidOff];
        }
      }
    }

    /** What the other tasks do while the drain has yielded. */
    method Interrupt(turns: seq<Turn>)
      requires Others(turns)
      modifies this`repaymentQueue, manager
      ensures State() == DeskRun(old(State()), turns)
    {
      hide Turned;
      ghost var start := State();
      for i := 0 to |turns|
        invariant State() == DeskRun(start, turns[..i])
      {
        ghost var before := State();
        match turns[i] {
          case Enqueue(request) => repaymentQueue := repaymentQueue + [request];
          case Touch(now, stamp) => var _ := manager.UpdateInterest(now, stamp);
        }
        OthersTurn(before, turns[i]);
        assert State() == Turned(before, turns[i]);
        assert turns[..i + 1][..i] == turns[..i];
      }
      assert turns[..|turns|] == turns;
    }

    /** One round: repay and publish, and if that went out check for the payoff. */
    method ProcessNext(r: Round)
      requires WellFormed(r) && !checking && |repaymentQueue| != 0 && manager.principal != 0.0
      modifies this`repaymentQueue, this`published, this`processed, this`checking, this`lastSent, manager
      ensures State() == DeskRun(old(State()), [r.take] + r.during + [r.check] + r.after)
      ensures !checking
    {
      hide Turned, DeskRun;
      ghost var start := State();
      TakeNext(r.take);
      ghost var taken := State();
      TakeTurn(start, r.take);
      Interrupt(r.during);
      ghost var shown := State();
      OthersKeepChecking(taken, r.during);
      if r.take.sent {
        CheckPaidOff(r.check);
      }
      CheckTurn(shown, r.check);
      assert State() == Turned(shown, r.check);
      ghost var checked := State();
      Interrupt(r.after);
      OthersKeepChecking(checked, r.after);
      DeskOfOne(start, r.take);
      DeskConcat(start, [r.take], r.during);
      DeskSnoc(start, [r.take] + r.during, r.check);
      DeskConcat(start, [r.take] + r.during + [r.check], r.after);
    }

    /** Drains the queue in FIFO order, while other tasks queue more and accrue interest
        whenever it yields. It stops when the queue is empty. */
    method ProcessRepayments(rounds: seq<Round>) returns (n: nat)
      requires !checking && manager.principal != 0.0
      requires forall i :: 0 <= i < |rounds| ==> WellFormed(rounds[i])
      modifies this`repaymentQueue, this`published, this`processed, this`checking, this`lastSent, manager
      ensures n <= |rounds| && State() == DeskRun(old(State()), TurnsOf(rounds[..n]))
      ensures n == |rounds| || repaymentQueue == []
    {
      hide DeskRun;
      ghost var start := State();
      n := 0;
      DeskOfNone(start);
      while n < |rounds| && |repaymentQueue| != 0
        invariant n <= |rounds| && !checking
        invariant State() == DeskRun(start, TurnsOf(rounds[..n]))
      {
        ghost var r := rounds[n];
        ProcessNext(rounds[n]);
        assert rounds[..n + 1][..n] == rounds[..n];
        DeskConcat(start, TurnsOf(rounds[..n]), [r.take] + r.during + [r.check] + r.after);
        n := n + 1;
      }
    }

    method HandleTreasuryUpdate(available: real)
      modifies this`availableReserves
      ensures availableReserves == available
    {
      availableReserves := available;
    }

    /** Publishing the request yields, so treasury updates may arrive before the tracked
        reserves are lowered: they are overwritten. If the publication fails the reserves are
        not lowered, though the deployment stays in the history. */
    method CheckReserveDeployment(ltv: LtvSchedule.LtvState, updates: seq<real>, sent: bool)
      returns (deployment: Option<ReserveDeployment>)
      modifies this`availableReserves, manager`deploymentHistory
      ensures sent ==>
                availableReserves == LtvSchedule.ReservesAfter(old(availableReserves), [ltv.reserveDeployment])
      ensures sent && deployment.Some? ==> old(availableReserves) == availableReserves + deployment.value.amount
      ensures !sent || deployment.None? ==>
                availableReserves == if deployment.None? || |updates| == 0 then old(availableReserves)
                                     else updates[|updates| - 1]
      ensures deployment ==
              var d := LtvSchedule.Deployment(ltv.reserveDeployment, old(availableReserves));
              if d.None? then None else Some(ReserveDeployment(
                ltv.ratio, d.value, old(availableReserves), old(availableReserves) - d.value,
                ltv.action.Critical? || ltv.action.Emergency?))
      ensures deployment.Some? <==> |manager.deploymentHistory| == |old(manager.deploymentHistory)| + 1
    {
      assert [ltv.reserveDeployment][..0] == [];
      deployment := manager.CalculateReserveDeployment(ltv, availableReserves);
      if deployment.Some? {
        for i := 0 to |updates|
          modifies this`availableReserves
          invariant availableReserves == if i == 0 then old(availableReserves) else updates[i - 1]
        {
          HandleTreasuryUpdate(updates[i]);
        }
        if sent {
          availableReserves := deployment.value.toReserve;
        }
      }
    }
  }
}
