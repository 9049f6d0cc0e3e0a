/** What holds of the loan ledger over every run: conservation, the comparison of
    repayment priorities, and the harmlessness of reads. */
module LoanRuns {
  import opened Basics
  import opened LoanLedger

  // ---- Soundness -------------------------------------------------------------------

  lemma StepKeepsSound(g: Ledger, op: Op)
    requires Sound(g.loan) && ValidOp(op) && g.loan.lastCalc <= op.now
    ensures Sound(Step(g, op).loan)
  {
    InterestNonNegative(g.loan.balance, g.loan.apr, op.now - g.loan.lastCalc);
    var l := Accrue(g.loan, op.now, op.stamp);
    if op.Pay? {
      SplitDischarges(l, op.amount, Chosen(l, op.priority));
    }
  }

  lemma {:induction false} RunKeepsSound(g: Ledger, ops: seq<Op>)
    requires Sound(g.loan) && Timely(g.loan.lastCalc, ops)
    ensures Sound(Run(g, ops).loan)
  {
    if |ops| != 0 {
      var before := ops[..|ops| - 1];
      RunKeepsSound(g, before);
      RunKeepsTerms(g, before);
      StepKeepsSound(Run(g, before), ops[|ops| - 1]);
    }
  }

  // ---- Priorities compared ---------------------------------------------------------

  /** `a` is at least as well off as `b`: less principal, less owed, less interest ever. */
  ghost predicate OwesNoMore(a: Loan, b: Loan) {
    && a.apr == b.apr
    && a.lastCalc == b.lastCalc
    && a.balance <= b.balance
    && Owed(a) <= Owed(b)
    && a.lifetimeInterest <= b.lifetimeInterest
  }

  lemma AccrueKeepsOrder(a: Loan, b: Loan, now: real, stamp: real)
    requires Sound(a) && Sound(b) && OwesNoMore(a, b) && a.lastCalc <= now
    ensures OwesNoMore(Accrue(a, now, stamp), Accrue(b, now, stamp))
    ensures Sound(Accrue(a, now, stamp)) && Sound(Accrue(b, now, stamp))
  {
    InterestNonNegative(a.balance, a.apr, now - a.lastCalc);
    InterestMonotone(a.balance, b.balance, a.apr, now - a.lastCalc);
  }

  /** How much of a payment a priority puts towards principal, from least to most. */
  function Rank(p: Priority): nat {
    match p
    case InterestFirst => 0
    case Proportional => 1
    case PrincipalFirst => 2
  }

  lemma LeftAfterShare(part: real, whole: real, amount: real)
    requires 0.0 < whole
    ensures part - Share(amount, part, whole) == part * (1.0 - amount / whole)
  {
    var q, r := part / whole, amount / whole;
    assert q * whole == part && r * whole == amount;
    assert amount * q == r * whole * q == r * part;
  }

  /** A proportional payment leaves more of a larger balance. */
  lemma LeftAfterShareMonotone(part: real, whole: real, part': real, whole': real, amount: real)
    requires 0.0 <= part <= part' && 0.0 < whole <= whole' && 0.0 <= amount <= whole
    ensures part - Share(amount, part, whole) <= part' - Share(amount, part', whole')
  {
    LeftAfterShare(part, whole, amount);
    LeftAfterShare(part', whole', amount);
    QuotientAntitone(amount, whole, whole');
    var x, y := 1.0 - amount / whole, 1.0 - amount / whole';
    assert x * whole == whole - amount;
    FactorNonNegative(x, whole);
    MulNonNegative(part' - part, x);
    MulNonNegative(part', y - x);
  }

  lemma SamePriorityKeepsOrder(a: Loan, b: Loan, amount: real, p: Priority, paidAt: real)
    requires Sound(a) && Sound(b) && OwesNoMore(a, b) && amount > 0.0
    ensures OwesNoMore(Apply(a, amount, p, paidAt), Apply(b, amount, p, paidAt))
  {
    SplitDischarges(a, amount, p);
    SplitDischarges(b, amount, p);
    if p.Proportional? && amount < Owed(a) {
      ShareBounds(amount, a.balance, Owed(a));
      ShareBounds(amount, b.balance, Owed(b));
      LeftAfterShareMonotone(a.balance, Owed(a), b.balance, Owed(b), amount);
    }
  }

  /** Paying with a priority of at least the rank keeps a loan at least as well off. */
  lemma ApplyKeepsOrder(a: Loan, b: Loan, amount: real, pa: Priority, pb: Priority, paidAt: real)
    requires Sound(a) && Sound(b) && OwesNoMore(a, b) && amount > 0.0 && Rank(pb) <= Rank(pa)
    ensures OwesNoMore(Apply(a, amount, pa, paidAt), Apply(b, amount, pb, paidAt))
  {
    if pa == pb {
      SamePriorityKeepsOrder(a, b, amount, pa, paidAt);
    } else {
      SplitDischarges(a, amount, pa);
      SplitDischarges(b, amount, pb);
    }
  }

  /** The same call, or the same payment with a priority of at least the rank. */
  predicate Raises(op: Op, op': Op, default: Priority) {
    match op'
    case Read(_, _) => op == op'
    case Pay(now, stamp, paidAt, amount, priority') =>
      && op.Pay? && op == Pay(now, stamp, paidAt, amount, op.priority)
      && Rank(if priority'.Some? then priority'.value else default)
         <= Rank(if op.priority.Some? then op.priority.value else default)
  }

  ghost predicate AllRaised(ops: seq<Op>, ops': seq<Op>, default: Priority) {
    |ops| == |ops'| && forall i :: 0 <= i < |ops| ==> Raises(ops[i], ops'[i], default)
  }

  lemma StepKeepsOrder(a: Ledger, b: Ledger, op: Op, op': Op, default: Priority)
    requires Sound(a.loan) && Sound(b.loan) && OwesNoMore(a.loan, b.loan)
    requires a.loan.priority == b.loan.priority == default && Raises(op, op', default)
    requires a.loan.lastCalc <= op.now && ValidOp(op)
    ensures OwesNoMore(Step(a, op).loan, Step(b, op').loan)
  {
    hide OwesNoMore, Sound, Apply, Split;
    AccrueKeepsOrder(a.loan, b.loan, op.now, op.stamp);
    if op.Pay? {
      var a', b' := Accrue(a.loan, op.now, op.stamp), Accrue(b.loan, op.now, op.stamp);
      ApplyKeepsOrder(a', b', op.amount, Chosen(a', op.priority), Chosen(b', op'.priority), op.paidAt);
    }
  }

  lemma {:induction false} RaisedTimely(from: real, ops: seq<Op>, ops': seq<Op>, default: Priority)
    requires Timely(from, ops) && AllRaised(ops, ops', default)
    ensures Timely(from, ops')
  {
    if |ops| != 0 {
      var n := |ops| - 1;
      RaisedTimely(from, ops[..n], ops'[..n], default);
      assert Raises(ops[n], ops'[n], default);
      if n != 0 { assert Raises(ops[n - 1], ops'[n - 1], default); }
    }
  }

  lemma {:induction false} EndsInOrder(g: Ledger, ops: seq<Op>, ops': seq<Op>)
    requires Sound(g.loan) && Timely(g.loan.lastCalc, ops) && AllRaised(ops, ops', g.loan.priority)
    ensures OwesNoMore(Run(g, ops).loan, Run(g, ops').loan)
  {
    if |ops| != 0 {
      hide OwesNoMore, Sound, Step, Raises;
      var n := |ops| - 1;
      EndsInOrder(g, ops[..n], ops'[..n]);
      RaisedTimely(g.loan.lastCalc, ops[..n], ops'[..n], g.loan.priority);
      RunKeepsSound(g, ops[..n]);
      RunKeepsSound(g, ops'[..n]);
      RunKeepsTerms(g, ops[..n]);
      RunKeepsTerms(g, ops'[..n]);
      StepKeepsOrder(Run(g, ops[..n]), Run(g, ops'[..n]), ops[n], ops'[n], g.loan.priority);
    } else {
      assert ops == ops' == [];
    }
  }

  lemma {:induction false} TimelyPrefix(from: real, ops: seq<Op>, n: nat)
    requires Timely(from, ops) && n <= |ops|
    ensures Timely(from, ops[..n])
  {
    if n < |ops| {
      TimelyPrefix(from, ops[..|ops| - 1], n);
      assert ops[..|ops| - 1][..n] == ops[..n];
    } else {
      assert ops[..n] == ops;
    }
  }

  /** Two runs of the same length from the same ledger, the first never worse off. */
  ghost predicate NeverOwesMore(g: Ledger, ops: seq<Op>, ops': seq<Op>) {
    |ops| == |ops'| &&
    forall n :: 0 <= n <= |ops| ==> OwesNoMore(Run(g, ops[..n]).loan, Run(g, ops'[..n]).loan)
  }

  /** For the same clock readings and amounts, raising the priority of any payments, each by
      any amount, never leaves the borrower worse off: not on principal, not on total owed
      and not on lifetime interest, at no point of the run. */
  lemma RaisingPrioritiesNeverHurts(g: Ledger, ops: seq<Op>, ops': seq<Op>)
    requires Sound(g.loan) && Timely(g.loan.lastCalc, ops) && AllRaised(ops, ops', g.loan.priority)
    ensures NeverOwesMore(g, ops, ops')
  {
    forall n | 0 <= n <= |ops|
      ensures OwesNoMore(Run(g, ops[..n]).loan, Run(g, ops'[..n]).loan)
    {
      hide OwesNoMore, Step, Raises;
      TimelyPrefix(g.loan.lastCalc, ops, n);
      EndsInOrder(g, ops[..n], ops'[..n]);
    }
  }

  function WithPriority(ops: seq<Op>, p: Priority): (r: seq<Op>)
    ensures |r| == |ops|
  {
    seq(|ops|, i requires 0 <= i < |ops| =>
      if ops[i].Pay? then ops[i].(priority := Some(p)) else ops[i])
  }

  /** So whatever priority each payment chooses, paying principal first leaves the borrower
      best off. */
  lemma PrincipalFirstIsCheapest(g: Ledger, ops: seq<Op>)
    requires Sound(g.loan) && Timely(g.loan.lastCalc, ops)
    ensures NeverOwesMore(g, WithPriority(ops, PrincipalFirst), ops)
  {
    hide NeverOwesMore;
    WithPriorityTimely(g.loan.lastCalc, ops, PrincipalFirst);
    RaisingPrioritiesNeverHurts(g, WithPriority(ops, PrincipalFirst), ops);
  }

  /** And paying interest first leaves the borrower worst off. */
  lemma InterestFirstIsDearest(g: Ledger, ops: seq<Op>)
    requires Sound(g.loan) && Timely(g.loan.lastCalc, ops)
    ensures NeverOwesMore(g, ops, WithPriority(ops, InterestFirst))
  {
    hide NeverOwesMore;
    RaisingPrioritiesNeverHurts(g, ops, WithPriority(ops, InterestFirst));
  }

  lemma {:induction false} WithPriorityTimely(from: real, ops: seq<Op>, p: Priority)
    requires Timely(from, ops)
    ensures Timely(from, WithPriority(ops, p))
  {
    if |ops| != 0 {
      WithPriorityTimely(from, ops[..|ops| - 1], p);
      assert WithPriority(ops, p)[..|ops| - 1] == WithPriority(ops[..|ops| - 1], p);
    }
  }

  // ---- What a payment does, by the priority asked for --------------------------------------

  /** The loan after one payment. */
  function PaidWith(g: Ledger, now: real, stamp: real, paidAt: real, amount: real, asked: Option<Priority>): Loan {
    Step(g, Pay(now, stamp, paidAt, amount, asked)).loan
  }

  /** The priority asked for decides where the money goes. Principal first lowers the balance
      by the amount, interest first the accrued interest, each down to zero; proportional
      keeps the two in ratio; and whichever it is, what is owed falls by the amount, down to
      zero. Asking for none is asking for the loan's own. */
  lemma PaymentGoesWhereAsked(g: Ledger, now: real, stamp: real, paidAt: real, amount: real)
    requires Sound(g.loan) && g.loan.lastCalc <= now && 0.0 < amount
    ensures var due := Accrue(g.loan, now, stamp);
            var first := PaidWith(g, now, stamp, paidAt, amount, Some(PrincipalFirst));
            first.balance == Max(0.0, due.balance - amount) && Owed(first) == Max(0.0, Owed(due) - amount)
    ensures var due := Accrue(g.loan, now, stamp);
            var first := PaidWith(g, now, stamp, paidAt, amount, Some(InterestFirst));
            first.accrued == Max(0.0, due.accrued - amount) && Owed(first) == Max(0.0, Owed(due) - amount)
    ensures var due := Accrue(g.loan, now, stamp);
            var both := PaidWith(g, now, stamp, paidAt, amount, Some(Proportional));
            both.balance * due.accrued == both.accrued * due.balance && Owed(both) == Max(0.0, Owed(due) - amount)
    ensures Step(g, Pay(now, stamp, paidAt, amount, None)) ==
            Step(g, Pay(now, stamp, paidAt, amount, Some(g.loan.priority)))
  {
    hide PaidWith, Accrue, Apply, Split, Step;
    DueIsSound(g, now, stamp);
    PaidWithAsked(g, now, stamp, paidAt, amount, PrincipalFirst);
    PaidWithAsked(g, now, stamp, paidAt, amount, InterestFirst);
    PaidWithAsked(g, now, stamp, paidAt, amount, Proportional);
    AskingForNone(g, now, stamp, paidAt, amount);
    var due := Accrue(g.loan, now, stamp);
    PaymentOfDue(due, amount, PrincipalFirst, paidAt);
    PaymentOfDue(due, amount, InterestFirst, paidAt);
    PaymentOfDue(due, amount, Proportional, paidAt);
    PaymentInRatio(due, amount, paidAt);
  }

  lemma DueIsSound(g: Ledger, now: real, stamp: real)
    requires Sound(g.loan) && g.loan.lastCalc <= now
    ensures Sound(Accrue(g.loan, now, stamp))
  {
    InterestNonNegative(g.loan.balance, g.loan.apr, now - g.loan.lastCalc);
  }

  lemma PaidWithAsked(g: Ledger, now: real, stamp: real, paidAt: real, amount: real, p: Priority)
    ensures PaidWith(g, now, stamp, paidAt, amount, Some(p)) == Apply(Accrue(g.loan, now, stamp), amount, p, paidAt)
  {
    hide Accrue, Apply, Split;
  }

  /** Whatever it asks for, a payment stamps both clocks and is counted in full. */
  lemma PaymentIsStamped(g: Ledger, now: real, stamp: real, paidAt: real, amount: real, asked: Option<Priority>)
    ensures var paid := PaidWith(g, now, stamp, paidAt, amount, asked);
            paid.lastPayment == Some(paidAt) && paid.lastCalc == stamp && paid.totalPaid == g.loan.totalPaid + amount
  {
    hide Interest, Split;
  }

  lemma AskingForNone(g: Ledger, now: real, stamp: real, paidAt: real, amount: real)
    ensures Step(g, Pay(now, stamp, paidAt, amount, None)) ==
            Step(g, Pay(now, stamp, paidAt, amount, Some(g.loan.priority)))
  {
    hide Interest, Apply, Split;
  }

  lemma PaymentOfDue(due: Loan, amount: real, p: Priority, paidAt: real)
    requires Sound(due) && 0.0 < amount
    ensures var paid := Apply(due, amount, p, paidAt);
            && Owed(paid) == Max(0.0, Owed(due) - amount)
            && (p == PrincipalFirst ==> paid.balance == Max(0.0, due.balance - amount))
            && (p == InterestFirst ==> paid.accrued == Max(0.0, due.accrued - amount))
  {
    SplitDischarges(due, amount, p);
    hide Share;
  }

  lemma PaymentInRatio(due: Loan, amount: real, paidAt: real)
    requires Sound(due) && 0.0 < amount
    ensures var paid := Apply(due, amount, Proportional, paidAt);
            paid.balance * due.accrued == paid.accrued * due.balance
  {
    hide Split;
    var portions := Split(due, amount, Proportional);
    ProportionalPaysInRatio(due, amount);
    LeftInRatio(due.balance, due.accrued, portions.principal, portions.interest);
  }

  lemma LeftInRatio(balance: real, accrued: real, x: real, y: real)
    requires x * accrued == y * balance
    ensures (balance - x) * accrued == (accrued - y) * balance
  {
    assert (balance - x) * accrued == balance * accrued - x * accrued;
    assert (accrued - y) * balance == balance * accrued - y * balance;
  }

  // ---- Reads -----------------------------------------------------------------------

  /** An accrual that reads the clock once. */
  predicate OneReading(op: Op) {
    op.stamp == op.now
  }

  function Payments(ops: seq<Op>): seq<Op> {
    if |ops| == 0 then [] else
      var op := ops[|ops| - 1];
      Payments(ops[..|ops| - 1]) + (if op.Pay? then [op] else [])
  }

  lemma AccrueTwice(l: Loan, now: real, later: real)
    ensures Accrue(Accrue(l, now, now), later, later) == Accrue(l, later, later)
  {
    InterestAdds(l.balance, l.apr, now - l.lastCalc, later - now);
  }

  /** Erasing every hourly update, LTV calculation and metrics request from a run, and
      accruing once at the end, gives the same loan and the same history. */
  lemma {:induction false} ReadsAreHarmless(g: Ledger, ops: seq<Op>, later: real)
    requires forall i :: 0 <= i < |ops| ==> OneReading(ops[i])
    ensures Run(g, ops).history == Run(g, Payments(ops)).history
    ensures Accrue(Run(g, ops).loan, later, later) == Accrue(Run(g, Payments(ops)).loan, later, later)
  {
    if |ops| != 0 {
      var op, before := ops[|ops| - 1], ops[..|ops| - 1];
      assert OneReading(op);
      ReadsAreHarmless(g, before, op.now);
      AccrueTwice(Run(g, before).loan, op.now, later);
      AccrueTwice(Run(g, Payments(before)).loan, op.now, later);
      if op.Pay? {
        assert Payments(ops)[..|Payments(before)|] == Payments(before);
      } else {
        assert Payments(ops) == Payments(before);
      }
    }
  }

  lemma InterestIsZeroIff(balance: real, apr: real, seconds: real)
    ensures Interest(balance, apr, seconds) == 0.0 <==> balance == 0.0 || apr == 0.0 || seconds == 0.0
  {
    ProductIsZeroIff(balance, Growth(apr, seconds));
    ProductIsZeroIff(apr / 365.0 / 24.0, seconds / 3600.0);
  }

  /** With two clock readings, a read loses the interest of the gap between them; it is
      harmless exactly when nothing is outstanding, nothing is charged or there is no gap. */
  lemma ReadLosesTheGap(l: Loan, now: real, stamp: real, later: real)
    ensures var read, unread := Accrue(Accrue(l, now, stamp), later, later), Accrue(l, later, later);
            && read.accrued == unread.accrued - Interest(l.balance, l.apr, stamp - now)
            && (read == unread <==> l.balance == 0.0 || l.apr == 0.0 || stamp == now)
  {
    InterestAdds(l.balance, l.apr, now - l.lastCalc, stamp - now);
    InterestAdds(l.balance, l.apr, stamp - l.lastCalc, later - stamp);
    InterestIsZeroIff(l.balance, l.apr, stamp - now);
    hide Interest;
  }

  function OneClock(ops: seq<Op>): (r: seq<Op>)
    ensures |r| == |ops|
  {
    seq(|ops|, i requires 0 <= i < |ops| => ops[i].(stamp := ops[i].now))
  }

  /** Over a whole run the second clock reading only ever favours the borrower. */
  lemma {:induction false} GapsOnlyForgiveInterest(g: Ledger, ops: seq<Op>)
    requires Sound(g.loan) && Timely(g.loan.lastCalc, ops)
    ensures var end := ClockAfter(g.loan.lastCalc, ops);
            && Sound(Run(g, OneClock(ops)).loan)
            && Run(g, OneClock(ops)).loan.lastCalc <= end
            && OwesNoMore(Run(g, ops).loan, Accrue(Run(g, OneClock(ops)).loan, end, end))
  {
    RunKeepsSound(g, ops);
    RunKeepsTerms(g, ops);
    RunKeepsTerms(g, OneClock(ops));
    if |ops| == 0 {
      InterestAdds(g.loan.balance, g.loan.apr, 0.0, 0.0);
    } else {
      var op, before := ops[|ops| - 1], ops[..|ops| - 1];
      assert OneClock(ops)[..|ops| - 1] == OneClock(before);
      GapsOnlyForgiveInterest(g, before);
      RunKeepsSound(g, before);
      RunKeepsTerms(g, before);
      var gapped, exact := Run(g, before).loan, Run(g, OneClock(before)).loan;
      var end := gapped.lastCalc;
      InterestNonNegative(exact.balance, exact.apr, end - exact.lastCalc);
      AccrueKeepsOrder(gapped, Accrue(exact, end, end), op.now, op.now);
      AccrueTwice(exact, end, op.now);
      GapStep(Run(g, before), Run(g, OneClock(before)), op);
    }
  }

  lemma ApplyIgnoresClock(l: Loan, amount: real, p: Priority, paidAt: real, stamp: real)
    ensures Apply(l.(lastCalc := stamp), amount, p, paidAt) == Apply(l, amount, p, paidAt).(lastCalc := stamp)
  {
  }

  lemma LaterStamp(a: Loan, b: Loan, stamp: real)
    requires Sound(b) && OwesNoMore(a, b) && b.lastCalc <= stamp
    ensures OwesNoMore(a.(lastCalc := stamp), Accrue(b, stamp, stamp))
  {
    hide Interest;
    InterestNonNegative(b.balance, b.apr, stamp - b.lastCalc);
  }

  lemma GapStep(gapped: Ledger, exact: Ledger, op: Op)
    requires Sound(gapped.loan) && Sound(exact.loan) && ValidOp(op)
    requires gapped.loan.priority == exact.loan.priority
    requires exact.loan.lastCalc <= gapped.loan.lastCalc <= op.now <= op.stamp
    requires OwesNoMore(Accrue(gapped.loan, op.now, op.now), Accrue(exact.loan, op.now, op.now))
    ensures var next := Step(exact, op.(stamp := op.now)).loan;
            && Sound(next)
            && OwesNoMore(Step(gapped, op).loan, Accrue(next, op.stamp, op.stamp))
  {
    hide Interest, Split, Apply;
    var a, b := Accrue(gapped.loan, op.now, op.now), Accrue(exact.loan, op.now, op.now);
    var next := Step(exact, op.(stamp := op.now)).loan;
    InterestNonNegative(gapped.loan.balance, gapped.loan.apr, op.now - gapped.loan.lastCalc);
    InterestNonNegative(exact.loan.balance, exact.loan.apr, op.now - exact.loan.lastCalc);
    StepKeepsSound(exact, op.(stamp := op.now));
    RunKeepsTerms(exact, [op.(stamp := op.now)]);
    if op.Pay? {
      var p := Chosen(a, op.priority);
      SamePriorityKeepsOrder(a, b, op.amount, p, op.paidAt);
      ApplyIgnoresClock(a, op.amount, p, op.paidAt, op.stamp);
      LaterStamp(Apply(a, op.amount, p, op.paidAt), next, op.stamp);
    } else {
      LaterStamp(a, b, op.stamp);
    }
  }
}
