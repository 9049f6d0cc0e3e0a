/** Conservation laws of the loan ledger: where every dollar paid and accrued went, over
    every run, and what overpaying means. */
module LoanConservation {
  import opened Basics
  import opened LoanLedger
  import opened LoanRuns

  datatype Totals = Totals(amount: real, principal: real, interest: real)

  function HistoryTotals(history: seq<Repayment>): Totals {
    if |history| == 0 then Totals(0.0, 0.0, 0.0) else
      var t, r := HistoryTotals(history[..|history| - 1]), history[|history| - 1];
      Totals(t.amount + r.amount, t.principal + r.principalPortion, t.interest + r.interestPortion)
  }

  /** The ledger's counters agree with each other and with the recorded history, and the
      recorded balances can be replayed from the recorded principal portions. */
  ghost predicate Balanced(g: Ledger) {
    var l, t := g.loan, HistoryTotals(g.history);
    && l.principal == l.balance + l.principalPaid
    && l.lifetimeInterest == l.accrued + l.interestPaid
    && t == Totals(l.totalPaid, l.principalPaid, l.interestPaid)
    && Replays(l.principal, g.history)
  }

  ghost predicate Replays(principal: real, history: seq<Repayment>) {
    forall i :: 0 <= i < |history| ==>
      && 0.0 <= history[i].principalPortion
      && 0.0 <= history[i].interestPortion
      && history[i].remaining == principal - HistoryTotals(history[..i + 1]).principal
  }

  /** The part of each payment that found no debt to discharge. */
  function Overpaid(g: Ledger, ops: seq<Op>): real {
    if |ops| == 0 then 0.0 else
      var op, before := ops[|ops| - 1], ops[..|ops| - 1];
      Overpaid(g, before) +
      (if op.Pay? then Max(0.0, op.amount - Owed(Accrue(Run(g, before).loan, op.now, op.stamp))) else 0.0)
  }

  lemma StepKeepsBalanced(g: Ledger, op: Op)
    requires Balanced(g) && Sound(g.loan) && ValidOp(op) && g.loan.lastCalc <= op.now
    ensures Balanced(Step(g, op))
  {
    hide Interest, Split, Replays, HistoryTotals;
    if op.Pay? {
      var l := Accrue(g.loan, op.now, op.stamp);
      InterestNonNegative(g.loan.balance, g.loan.apr, op.now - g.loan.lastCalc);
      SplitDischarges(l, op.amount, Chosen(l, op.priority));
      var r := Step(g, op).history[|g.history|];
      HistorySnoc(g.history, r);
      ReplaysSnoc(g.loan.principal, g.history, r);
    }
  }

  lemma ReplaysSnoc(principal: real, history: seq<Repayment>, r: Repayment)
    requires Replays(principal, history) && 0.0 <= r.principalPortion && 0.0 <= r.interestPortion
    requires r.remaining == principal - HistoryTotals(history + [r]).principal
    ensures Replays(principal, history + [r])
  {
    hide HistoryTotals;
    var h := history + [r];
    forall i | 0 <= i < |h|
      ensures 0.0 <= h[i].principalPortion && 0.0 <= h[i].interestPortion
      ensures h[i].remaining == principal - HistoryTotals(h[..i + 1]).principal
    {
      if i < |history| {
        assert h[i] == history[i] && h[..i + 1] == history[..i + 1];
      } else {
        assert h[..i + 1] == h;
      }
    }
  }

  lemma HistorySnoc(history: seq<Repayment>, r: Repayment)
    ensures var t := HistoryTotals(history);
            HistoryTotals(history + [r]) ==
            Totals(t.amount + r.amount, t.principal + r.principalPortion, t.interest + r.interestPortion)
  {
    assert (history + [r])[..|history|] == history;
  }

  lemma {:induction false} RunKeepsBalanced(g: Ledger, ops: seq<Op>)
    requires Balanced(g) && Sound(g.loan) && Timely(g.loan.lastCalc, ops)
    ensures Balanced(Run(g, ops))
  {
    if |ops| != 0 {
      var before := ops[..|ops| - 1];
      RunKeepsBalanced(g, before);
      RunKeepsSound(g, before);
      RunKeepsTerms(g, before);
      StepKeepsBalanced(Run(g, before), ops[|ops| - 1]);
    }
  }

  /** From a new loan, over every run: principal and interest are conserved, the history
      alone replays the counters, no bucket goes negative, and what was paid exceeds what
      was applied by exactly the overpayments. */
  lemma LoanConservation(principal: real, apr: real, start: real, ops: seq<Op>)
    requires 0.0 <= principal && 0.0 <= apr && Timely(start, ops)
    ensures var g := Run(NewLedger(principal, apr, start), ops);
            && Balanced(g)
            && Sound(g.loan)
            && g.loan.principal == principal
            && g.loan.totalPaid ==
               g.loan.principalPaid + g.loan.interestPaid + Overpaid(NewLedger(principal, apr, start), ops)
  {
    var g := NewLedger(principal, apr, start);
    RunKeepsBalanced(g, ops);
    RunKeepsSound(g, ops);
    RunKeepsTerms(g, ops);
    DebtConservation(g, ops);
  }

  /** Debt is conserved: what is owed at the end is what was owed, plus interest accrued,
      minus money paid, plus what was overpaid. */
  lemma {:induction false} DebtConservation(g: Ledger, ops: seq<Op>)
    requires Sound(g.loan) && Timely(g.loan.lastCalc, ops)
    ensures var l := Run(g, ops).loan;
            && Owed(l) == Owed(g.loan) + (l.lifetimeInterest - g.loan.lifetimeInterest)
                          - (l.totalPaid - g.loan.totalPaid) + Overpaid(g, ops)
            && (l.totalPaid - l.principalPaid - l.interestPaid)
               - (g.loan.totalPaid - g.loan.principalPaid - g.loan.interestPaid) == Overpaid(g, ops)
  {
    if |ops| != 0 {
      var op, before := ops[|ops| - 1], ops[..|ops| - 1];
      DebtConservation(g, before);
      RunKeepsSound(g, before);
      RunKeepsTerms(g, before);
      var l := Run(g, before).loan;
      InterestNonNegative(l.balance, l.apr, op.now - l.lastCalc);
      var due := Accrue(l, op.now, op.stamp);
      if op.Pay? {
        SplitDischarges(due, op.amount, Chosen(due, op.priority));
      }
    }
  }

  /** Recorded balances never rise, however far apart the two records are. */
  lemma {:induction false} RecordedBalancesNeverRise(g: Ledger, i: nat, j: nat)
    requires Balanced(g) && i <= j < |g.history|
    ensures g.history[j].remaining <= g.history[i].remaining
    decreases j
  {
    if i < j {
      RecordedBalancesNeverRise(g, i, j - 1);
      assert g.history[..j + 1][..j] == g.history[..j - 1 + 1];
    }
  }

  // ---- Paying off ------------------------------------------------------------------

  /** A payment pays the loan off exactly when it covers what is owed at that moment. */
  lemma PaidOffIffCovered(g: Ledger, op: Op)
    requires Sound(g.loan) && op.Pay? && ValidOp(op) && g.loan.lastCalc <= op.now
    ensures PaidOff(Step(g, op).loan) <==> op.amount >= Owed(Accrue(g.loan, op.now, op.stamp))
  {
    var due := Accrue(g.loan, op.now, op.stamp);
    InterestNonNegative(g.loan.balance, g.loan.apr, op.now - g.loan.lastCalc);
    SplitDischarges(due, op.amount, Chosen(due, op.priority));
  }

  /** Once paid off, a loan stays paid off: no run changes anything but the clock, the
      date of the last payment and the money handed over, all of it overpaid. */
  lemma {:induction false} PaidOffIsAbsorbing(g: Ledger, ops: seq<Op>)
    requires Sound(g.loan) && PaidOff(g.loan) && Timely(g.loan.lastCalc, ops)
    ensures var l := Run(g, ops).loan;
            && PaidOff(l)
            && l == g.loan.(lastCalc := l.lastCalc, lastPayment := l.lastPayment,
                            totalPaid := g.loan.totalPaid + Overpaid(g, ops))
  {
    if |ops| != 0 {
      var op, before := ops[|ops| - 1], ops[..|ops| - 1];
      PaidOffIsAbsorbing(g, before);
      RunKeepsSound(g, before);
      RunKeepsTerms(g, before);
      var l := Run(g, before).loan;
      InterestNonNegative(l.balance, l.apr, op.now - l.lastCalc);
      if op.Pay? {
        var due := Accrue(l, op.now, op.stamp);
        SplitDischarges(due, op.amount, Chosen(due, op.priority));
      }
    }
  }

  // ---- Repayments out of profit ----------------------------------------------------

  /** The repayment a realised profit calls for. */
  function FromProfit(l: Loan, profit: real, share: real): real {
    if profit <= 0.0 then 0.0 else
      Min(Max(profit * share, l.minPayment), Owed(l))
  }

  /** A profit never calls for more than is owed nor for less than the minimum payment, the
      debt permitting; in between it is exactly its share. A loss calls for nothing. */
  lemma FromProfitBounds(l: Loan, profit: real, share: real)
    requires Sound(l)
    ensures profit <= 0.0 ==> FromProfit(l, profit, share) == 0.0
    ensures var amount := FromProfit(l, profit, share);
            0.0 < profit ==>
              && amount <= Owed(l)
              && Min(l.minPayment, Owed(l)) <= amount
              && (l.minPayment <= profit * share <= Owed(l) ==> amount == profit * share)
              && (profit * share <= l.minPayment <= Owed(l) ==> amount == l.minPayment)
              && (amount == Owed(l) <==> Owed(l) <= l.minPayment || Owed(l) <= profit * share)
  {
  }

  function Amounts(ops: seq<Op>): real {
    if |ops| == 0 then 0.0 else
      var op := ops[|ops| - 1];
      Amounts(ops[..|ops| - 1]) + (if op.Pay? then op.amount else 0.0)
  }

  ghost predicate AtInstant(ops: seq<Op>, t: real) {
    forall i :: 0 <= i < |ops| ==> ops[i].now == t && ops[i].stamp == t
  }

  /** A queue drained at one instant discharges min(total queued, owed); the rest is
      overpaid. So payments that were each capped at the debt when they were queued
      still overpay exactly when together they exceed it. */
  lemma {:induction false} QueueOverpaysTheExcess(g: Ledger, ops: seq<Op>, t: real)
    requires Sound(g.loan) && Timely(g.loan.lastCalc, ops) && AtInstant(ops, t) && g.loan.lastCalc <= t
    ensures var due := Owed(Accrue(g.loan, t, t));
            && Owed(Accrue(Run(g, ops).loan, t, t)) == Max(0.0, due - Amounts(ops))
            && Overpaid(g, ops) == Max(0.0, Amounts(ops) - due)
  {
    hide Interest, Split, Step;
    InterestNonNegative(g.loan.balance, g.loan.apr, t - g.loan.lastCalc);
    if |ops| != 0 {
      var op, before := ops[|ops| - 1], ops[..|ops| - 1];
      assert AtInstant(before, t) by {
        forall i | 0 <= i < |before| ensures before[i].now == t && before[i].stamp == t {
          assert before[i] == ops[i];
        }
      }
      QueueOverpaysTheExcess(g, before, t);
      RunKeepsSound(g, before);
      RunKeepsTerms(g, before);
      AmountsNonNegative(g.loan.lastCalc, before);
      StepAtInstant(Run(g, before), op, t);
    }
  }

  lemma StepAtInstant(g: Ledger, op: Op, t: real)
    requires Sound(g.loan) && ValidOp(op) && g.loan.lastCalc <= t && op.now == t && op.stamp == t
    ensures Owed(Accrue(Step(g, op).loan, t, t)) ==
            Max(0.0, Owed(Accrue(g.loan, t, t)) - (if op.Pay? then op.amount else 0.0))
  {
    var due := Accrue(g.loan, t, t);
    InterestNonNegative(g.loan.balance, g.loan.apr, t - g.loan.lastCalc);
    var l := Step(g, op).loan;
    InterestAdds(l.balance, l.apr, 0.0, 0.0);
    if op.Pay? {
      SplitDischarges(due, op.amount, Chosen(due, op.priority));
    }
  }

  lemma {:induction false} AmountsNonNegative(from: real, ops: seq<Op>)
    requires Timely(from, ops)
    ensures 0.0 <= Amounts(ops)
  {
    if |ops| != 0 { AmountsNonNegative(from, ops[..|ops| - 1]); }
  }

  lemma OverpaidSnoc(g: Ledger, ops: seq<Op>, op: Op)
    requires op.Pay?
    ensures Overpaid(g, ops + [op]) ==
            Overpaid(g, ops) + Max(0.0, op.amount - Owed(Accrue(Run(g, ops).loan, op.now, op.stamp)))
  {
    assert (ops + [op])[..|ops|] == ops;
  }

  /** A repayment out of profit, however late it is processed, never overpays if nothing
      else was paid since it was sized. */
  lemma LoneProfitRepaymentNeverOverpays(g: Ledger, profit: real, share: real, updates: seq<Op>, op: Op)
    requires Sound(g.loan) && op.Pay? && op.amount == FromProfit(g.loan, profit, share)
    requires Timely(g.loan.lastCalc, updates)
    requires ClockAfter(g.loan.lastCalc, updates) <= op.now
    requires forall i :: 0 <= i < |updates| ==> updates[i].Read?
    ensures Overpaid(g, updates + [op]) == 0.0
  {
    OverpaidSnoc(g, updates, op);
    OwedGrowsOverUpdates(g, updates);
    RunKeepsSound(g, updates);
    RunKeepsTerms(g, updates);
    OwedGrows(Run(g, updates).loan, op.now, op.stamp);
  }

  lemma OwedGrows(l: Loan, now: real, stamp: real)
    requires Sound(l) && l.lastCalc <= now
    ensures Owed(l) <= Owed(Accrue(l, now, stamp))
  {
    InterestNonNegative(l.balance, l.apr, now - l.lastCalc);
  }

  lemma {:induction false} OwedGrowsOverUpdates(g: Ledger, updates: seq<Op>)
    requires Sound(g.loan) && Timely(g.loan.lastCalc, updates)
    requires forall i :: 0 <= i < |updates| ==> updates[i].Read?
    ensures Owed(g.loan) <= Owed(Run(g, updates).loan)
    ensures Overpaid(g, updates) == 0.0
  {
    if |updates| != 0 {
      var before := updates[..|updates| - 1];
      OwedGrowsOverUpdates(g, before);
      RunKeepsSound(g, before);
      RunKeepsTerms(g, before);
      var l := Run(g, before).loan;
      InterestNonNegative(l.balance, l.apr, updates[|updates| - 1].now - l.lastCalc);
    }
  }

  /** Two profits sized against the same debt overpay exactly when together they exceed
      what is owed once they are processed. */
  lemma TwoProfitRepayments(g: Ledger, first: Op, second: Op, t: real)
    requires Sound(g.loan) && g.loan.lastCalc <= t
    requires first.Pay? && first.now == t && first.stamp == t && first.amount > 0.0
    requires second.Pay? && second.now == t && second.stamp == t && second.amount > 0.0
    ensures Overpaid(g, [first] + [second]) ==
            Max(0.0, first.amount + second.amount - Owed(Accrue(g.loan, t, t)))
  {
    var ops := [first] + [second];
    assert ops[..1] == [first] && [first][..0] == [];
    assert Timely(g.loan.lastCalc, []);
    assert Timely(g.loan.lastCalc, [first]);
    assert Amounts([first]) == first.amount;
    QueueOverpaysTheExcess(g, ops, t);
  }

  lemma NoTimeNoInterest(l: Loan)
    ensures Owed(Accrue(l, l.lastCalc, l.lastCalc)) == Owed(l)
  {
    InterestAdds(l.balance, l.apr, 0.0, 0.0);
  }

  /** So they can: on a loan of $100 still in full, two profits of $200 each queue a
      repayment of $100, and $100 of the money finds no debt. */
  lemma TwoProfitRepaymentsOverpay(g: Ledger, pay: Op)
    requires Sound(g.loan) && Owed(g.loan) == 100.0 && g.loan.minPayment == 10.0
    requires pay == Pay(g.loan.lastCalc, g.loan.lastCalc, g.loan.lastCalc, FromProfit(g.loan, 200.0, 0.5), None)
    ensures Overpaid(g, [pay] + [pay]) == 100.0
  {
    TwoProfitRepayments(g, pay, pay, g.loan.lastCalc);
    NoTimeNoInterest(g.loan);
  }
}
