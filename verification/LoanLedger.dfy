/** The loan ledger: simple interest on the outstanding principal, repayments split
    between principal and interest, and the history of repayments.

    Clock readings are seconds and are passed in by the caller. One accrual reads the
    clock twice: `now` prices the interest, `stamp` becomes the start of the next
    accrual period. */
module LoanLedger {
  import opened Basics

  datatype Priority = InterestFirst | PrincipalFirst | Proportional

  datatype Loan = Loan(
    principal: real,
    balance: real,
    apr: real,
    totalPaid: real,
    principalPaid: real,
    interestPaid: real,
    lastCalc: real,
    lastPayment: Option<real>,
    accrued: real,
    lifetimeInterest: real,
    priority: Priority,
    minPayment: real)

  datatype Repayment = Repayment(
    amount: real,
    principalPortion: real,
    interestPortion: real,
    remaining: real)

  datatype Ledger = Ledger(loan: Loan, history: seq<Repayment>)

  datatype Portions = Portions(principal: real, interest: real)

  function NewLedger(principal: real, apr: real, start: real): Ledger {
    Ledger(
      Loan(principal, principal, apr, 0.0, 0.0, 0.0, start, None, 0.0, 0.0, InterestFirst, 10.0),
      [])
  }

  function Owed(l: Loan): real {
    l.balance + l.accrued
  }

  predicate PaidOff(l: Loan) {
    l.balance <= 0.0 && l.accrued <= 0.0
  }

  /** Interest per unit of principal over `seconds`. */
  function Growth(apr: real, seconds: real): real {
    apr / 365.0 / 24.0 * (seconds / 3600.0)
  }

  function Interest(balance: real, apr: real, seconds: real): real {
    balance * Growth(apr, seconds)
  }

  function Accrue(l: Loan, now: real, stamp: real): Loan {
    var interest := Interest(l.balance, l.apr, now - l.lastCalc);
    l.(accrued := l.accrued + interest,
       lifetimeInterest := l.lifetimeInterest + interest,
       lastCalc := stamp)
  }

  function Share(amount: real, part: real, whole: real): real
    requires whole > 0.0
  {
    amount * (part / whole)
  }

  function Split(l: Loan, amount: real, priority: Priority): Portions {
    match priority
    case InterestFirst =>
      var interest := Min(amount, l.accrued);
      Portions(Min(amount - interest, l.balance), interest)
    case PrincipalFirst =>
      var principal := Min(amount, l.balance);
      Portions(principal, Min(amount - principal, l.accrued))
    case Proportional =>
      if Owed(l) > 0.0 then
        var principal := Min(Share(amount, l.balance, Owed(l)), l.balance);
        Portions(principal, Min(amount - principal, l.accrued))
      else
        Portions(0.0, 0.0)
  }

  /** What a repayment does to a loan whose interest is up to date. */
  function Apply(l: Loan, amount: real, priority: Priority, paidAt: real): Loan {
    var p := Split(l, amount, priority);
    l.(balance := l.balance - p.principal,
       principalPaid := l.principalPaid + p.principal,
       interestPaid := l.interestPaid + p.interest,
       accrued := l.accrued - p.interest,
       totalPaid := l.totalPaid + amount,
       lastPayment := Some(paidAt))
  }

  function Chosen(l: Loan, requested: Option<Priority>): Priority {
    if requested.Some? then requested.value else l.priority
  }

  /** One call on the ledger. `Read` is any call that only accrues: the hourly update,
      an LTV calculation or a metrics request. */
  datatype Op =
    | Read(now: real, stamp: real)
    | Pay(now: real, stamp: real, paidAt: real, amount: real, priority: Option<Priority>)

  function Step(g: Ledger, op: Op): Ledger {
    var l := Accrue(g.loan, op.now, op.stamp);
    match op
    case Read(_, _) => Ledger(l, g.history)
    case Pay(_, _, paidAt, amount, requested) =>
      var p := Split(l, amount, Chosen(l, requested));
      var l' := Apply(l, amount, Chosen(l, requested), paidAt);
      Ledger(l', g.history + [Repayment(amount, p.principal, p.interest, l'.balance)])
  }

  function Run(g: Ledger, ops: seq<Op>): Ledger {
    if |ops| == 0 then g else Step(Run(g, ops[..|ops| - 1]), ops[|ops| - 1])
  }

  /** A loan no amount of which is negative. */
  ghost predicate Sound(l: Loan) {
    0.0 <= l.apr && 0.0 <= l.balance && 0.0 <= l.accrued
  }

  /** Payment amounts are positive, as request validation demands. */
  predicate ValidOp(op: Op) {
    op.Pay? ==> op.amount > 0.0
  }

  function ClockAfter(from: real, ops: seq<Op>): real {
    if |ops| == 0 then from else ops[|ops| - 1].stamp
  }

  /** The clock never runs backwards, starting from reading `from`. */
  ghost predicate Timely(from: real, ops: seq<Op>) {
    |ops| == 0 ||
    (var op, before := ops[|ops| - 1], ops[..|ops| - 1];
     && ValidOp(op)
     && ClockAfter(from, before) <= op.now <= op.stamp
     && Timely(from, before))
  }

  lemma RunKeepsTerms(g: Ledger, ops: seq<Op>)
    ensures Run(g, ops).loan.lastCalc == ClockAfter(g.loan.lastCalc, ops)
    ensures Run(g, ops).loan.apr == g.loan.apr
    ensures Run(g, ops).loan.principal == g.loan.principal
    ensures Run(g, ops).loan.priority == g.loan.priority
  {
    if |ops| != 0 { RunKeepsTerms(g, ops[..|ops| - 1]); }
  }

  // ---- Arithmetic of accrual -------------------------------------------------------

  lemma GrowthNonNegative(apr: real, seconds: real)
    requires 0.0 <= apr && 0.0 <= seconds
    ensures 0.0 <= Growth(apr, seconds)
  {
    var rate, hours := apr / 365.0 / 24.0, seconds / 3600.0;
    MulNonNegative(rate, hours);
  }

  lemma GrowthAdds(apr: real, s: real, t: real)
    ensures Growth(apr, s) + Growth(apr, t) == Growth(apr, s + t)
  {
    var rate := apr / 365.0 / 24.0;
    assert rate * (s / 3600.0) + rate * (t / 3600.0) == rate * (s / 3600.0 + t / 3600.0);
  }

  lemma InterestMonotone(small: real, large: real, apr: real, seconds: real)
    requires small <= large && 0.0 <= apr && 0.0 <= seconds
    ensures Interest(small, apr, seconds) <= Interest(large, apr, seconds)
  {
    GrowthNonNegative(apr, seconds);
    var g := Growth(apr, seconds);
    MulNonNegative(large - small, g);
  }

  lemma InterestNonNegative(balance: real, apr: real, seconds: real)
    requires 0.0 <= balance && 0.0 <= apr && 0.0 <= seconds
    ensures 0.0 <= Interest(balance, apr, seconds)
  {
    GrowthNonNegative(apr, seconds);
    MulNonNegative(balance, Growth(apr, seconds));
  }

  lemma InterestAdds(balance: real, apr: real, s: real, t: real)
    ensures Interest(balance, apr, s) + Interest(balance, apr, t) == Interest(balance, apr, s + t)
  {
    GrowthAdds(apr, s, t);
    var a, b := Growth(apr, s), Growth(apr, t);
    assert balance * a + balance * b == balance * (a + b);
  }

  // ---- Splitting a payment ---------------------------------------------------------

  lemma ShareBounds(amount: real, part: real, whole: real)
    requires 0.0 <= part <= whole && 0.0 < whole && 0.0 <= amount
    ensures 0.0 <= Share(amount, part, whole) <= amount
    ensures amount <= whole ==> Share(amount, part, whole) <= part
    ensures amount >= whole ==> Share(amount, part, whole) >= part
  {
    var q := part / whole;
    assert q * whole == part;
    assert 0.0 <= q <= 1.0;
    MulNonNegative(amount, q);
    MulNonNegative(amount, 1.0 - q);
    if amount <= whole {
      MulNonNegative(whole - amount, q);
    } else {
      MulNonNegative(amount - whole, q);
    }
  }

  lemma SharesAddUp(amount: real, part: real, whole: real)
    requires 0.0 < whole
    ensures Share(amount, part, whole) + Share(amount, whole - part, whole) == amount
  {
    var q, r := part / whole, (whole - part) / whole;
    assert q * whole == part && r * whole == whole - part;
    assert (q + r - 1.0) * whole == 0.0;
    assert q + r == 1.0;
    assert amount * q + amount * r == amount * (q + r);
  }

  /** Whatever the priority, a payment discharges exactly min(amount, owed), takes no
      more than either bucket holds, and the two one-sided priorities are the extremes:
      interest first touches principal only once all interest is paid, principal first
      touches interest only once all principal is. */
  lemma SplitDischarges(l: Loan, amount: real, priority: Priority)
    requires 0.0 <= l.balance && 0.0 <= l.accrued && 0.0 <= amount
    ensures var p := Split(l, amount, priority);
            && p.principal + p.interest == Min(amount, Owed(l))
            && Split(l, amount, InterestFirst).principal <= p.principal
            && p.principal <= Split(l, amount, PrincipalFirst).principal
            && 0.0 <= p.principal <= l.balance
            && 0.0 <= p.interest <= l.accrued
            && (priority == InterestFirst && 0.0 < p.principal ==> p.interest == l.accrued)
            && (priority == PrincipalFirst && 0.0 < p.interest ==> p.principal == l.balance)
  {
    if priority.Proportional? && Owed(l) > 0.0 {
      ShareBounds(amount, l.balance, Owed(l));
      ShareBounds(amount, l.accrued, Owed(l));
      SharesAddUp(amount, l.balance, Owed(l));
    }
  }

  /** The proportional split pays both in the ratio in which they are owed. */
  lemma ProportionalPaysInRatio(l: Loan, amount: real)
    requires 0.0 <= l.balance && 0.0 <= l.accrued && 0.0 < amount
    ensures var p := Split(l, amount, Proportional);
            p.principal * l.accrued == p.interest * l.balance
  {
    if Owed(l) > 0.0 {
      ShareBounds(amount, l.balance, Owed(l));
      ShareBounds(amount, l.accrued, Owed(l));
      SharesAddUp(amount, l.balance, Owed(l));
      if amount <= Owed(l) {
        EqualShares(amount, l.balance, l.accrued, Owed(l));
      }
    }
  }

  lemma EqualShares(amount: real, x: real, y: real, whole: real)
    requires 0.0 < whole
    ensures Share(amount, x, whole) * y == Share(amount, y, whole) * x
  {
    var p, q := x / whole, y / whole;
    assert p * whole == x && q * whole == y;
    assert p * y == p * (q * whole) == q * (p * whole) == q * x;
    assert amount * p * y == amount * (p * y);
    assert amount * q * x == amount * (q * x);
  }

  /** The accrual agrees with the quoted daily and hourly interest, and a 365-day year of
      it is the annual rate on the balance. */
  lemma AccrualMatchesQuotedRates(l: Loan)
    ensures Interest(l.balance, l.apr, 3600.0) == HourlyInterest(l)
    ensures Interest(l.balance, l.apr, 86400.0) == DailyInterest(l)
    ensures Interest(l.balance, l.apr, 365.0 * 86400.0) == l.balance * l.apr
  {
    var rate := l.apr / 365.0 / 24.0;
    assert Growth(l.apr, 3600.0) == rate;
    assert Growth(l.apr, 86400.0) == l.apr / 365.0;
    assert Growth(l.apr, 365.0 * 86400.0) == l.apr;
    assert l.balance * (l.apr / 365.0) == l.balance * l.apr / 365.0;
  }

  function DailyInterest(l: Loan): real {
    l.balance * l.apr / 365.0
  }

  function HourlyInterest(l: Loan): real {
    l.balance * l.apr / 365.0 / 24.0
  }
}
