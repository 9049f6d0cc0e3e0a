/** The repayment queue under every interleaving of the loan service's tasks: queueing,
    accruals, and a drain that yields while it publishes. */
module LoanQueue {
  import opened Basics
  import opened LoanLedger
  import opened LoanRuns
  import LoanConservation

  datatype Request = Request(amount: real, priority: Option<Priority>)

  datatype Message = Repaid(record: Repayment) | LoanPaidOff

  /** What one task does without yielding. `Take` pops the oldest request, repays it, and
      gathers the metrics published with it; `Check` is the payoff check that follows the
      publication. `sent` says whether what the turn publishes goes out. */
  datatype Turn =
    | Enqueue(request: Request)
    | Touch(now: real, stamp: real)
    | Take(now: real, stamp: real, paidAt: real, metricsNow: real, metricsStamp: real, sent: bool)
    | Check(now: real, stamp: real, sent: bool)

  /** `checking` is whether the drain is between a repayment and its payoff check, `lastSent`
      whether its last publication went out. */
  datatype Desk = Desk(
    ledger: Ledger,
    queue: seq<Request>,
    processed: seq<Request>,
    checking: bool,
    lastSent: bool,
    published: seq<Message>)

  function PayOp(r: Request, t: Turn): Op
    requires t.Take?
  {
    Pay(t.now, t.stamp, t.paidAt, r.amount, r.priority)
  }

  predicate Enabled(d: Desk, t: Turn) {
    (t.Take? ==> !d.checking && |d.queue| != 0) && (t.Check? ==> d.checking)
  }

  /** The calls a turn makes on the ledger. */
  function OpsOfTurn(d: Desk, t: Turn): seq<Op> {
    match t
    case Enqueue(_) => []
    case Touch(now, stamp) => [Read(now, stamp)]
    case Take(_, _, _, metricsNow, metricsStamp, _) =>
      if Enabled(d, t) then [PayOp(d.queue[0], t)] + [Read(metricsNow, metricsStamp)] else []
    case Check(now, stamp, _) =>
      if Enabled(d, t) && PaidOff(d.ledger.loan) then [Read(now, stamp)] else []
  }

  /** A publication that fails ends the round: its payoff check never runs. */
  function Turned(d: Desk, t: Turn): Desk {
    match t
    case Enqueue(r) => d.(queue := d.queue + [r])
    case Touch(now, stamp) => d.(ledger := Step(d.ledger, Read(now, stamp)))
    case Take(_, _, _, metricsNow, metricsStamp, sent) =>
      if !Enabled(d, t) then d
      else
        var paid := Step(d.ledger, PayOp(d.queue[0], t));
        Desk(Step(paid, Read(metricsNow, metricsStamp)), d.queue[1..], d.processed + [d.queue[0]], sent, sent,
             d.published + (if sent then [Repaid(paid.history[|d.ledger.history|])] else []))
    case Check(now, stamp, sent) =>
      if !Enabled(d, t) then d
      else if PaidOff(d.ledger.loan) then
        d.(ledger := Step(d.ledger, Read(now, stamp)), checking := false, lastSent := sent,
           published := d.published + (if sent then [LoanPaidOff] else []))
      else d.(checking := false)
  }

  function DeskRun(d: Desk, turns: seq<Turn>): Desk {
    if |turns| == 0 then d else Turned(DeskRun(d, turns[..|turns| - 1]), turns[|turns| - 1])
  }

  lemma DeskSnoc(d: Desk, turns: seq<Turn>, t: Turn)
    ensures DeskRun(d, turns + [t]) == Turned(DeskRun(d, turns), t)
  {
    assert (turns + [t])[..|turns|] == turns;
  }

  lemma {:induction false} DeskConcat(d: Desk, first: seq<Turn>, second: seq<Turn>)
    ensures DeskRun(d, first + second) == DeskRun(DeskRun(d, first), second)
  {
    hide Turned;
    if |second| == 0 {
      assert first + second == first;
    } else {
      var n := |second| - 1;
      DeskConcat(d, first, second[..n]);
      DeskSnoc(d, first + second[..n], second[n]);
      assert first + second == first + second[..n] + [second[n]];
    }
  }

  // ---- First in, first out -----------------------------------------------------------------

  function Queued(turns: seq<Turn>): seq<Request> {
    if |turns| == 0 then [] else
      var last := turns[|turns| - 1];
      Queued(turns[..|turns| - 1]) + (if last.Enqueue? then [last.request] else [])
  }

  /** However the tasks interleave, what was processed followed by what still waits is
      everything ever queued, in the order it was queued. */
  lemma {:induction false} ProcessedIsPrefixOfQueued(d: Desk, turns: seq<Turn>)
    ensures var d' := DeskRun(d, turns);
            d'.processed + d'.queue == d.processed + d.queue + Queued(turns)
  {
    if |turns| != 0 {
      var before := turns[..|turns| - 1];
      ProcessedIsPrefixOfQueued(d, before);
      TurnKeepsOrder(DeskRun(d, before), turns[|turns| - 1]);
    }
  }

  lemma TurnKeepsOrder(d: Desk, t: Turn)
    ensures var d' := Turned(d, t);
            d'.processed + d'.queue == d.processed + d.queue + (if t.Enqueue? then [t.request] else [])
  {
  }

  /** A repayment is published with the record it added to the history: the amount asked for,
      and the balance it left. */
  lemma RepaidCarriesTheNewRecord(d: Desk, t: Turn)
    requires t.Take? && t.sent && !d.checking && d.queue != []
    ensures var d' := Turned(d, t);
            && |d'.ledger.history| == |d.ledger.history| + 1
            && |d'.published| == |d.published| + 1
            && var record := d'.ledger.history[|d.ledger.history|];
               && d'.published[|d.published|] == Repaid(record)
               && record.amount == d.queue[0].amount
               && record.remaining == d'.ledger.loan.balance
               && d'.published[..|d.published|] == d.published
  {
  }

  /** An idle drain with something queued serves the oldest request, and is idle again at once if
      the publication fails, or else after its payoff check. */
  lemma TakeServesTheOldest(d: Desk, t: Turn)
    requires t.Take? && !d.checking && d.queue != []
    ensures var d', r := Turned(d, t), d.queue[0];
            && d'.processed == d.processed + [r] && [r] + d'.queue == d.queue
            && d'.checking == d'.lastSent == t.sent
            && d'.ledger == Step(Step(d.ledger, Pay(t.now, t.stamp, t.paidAt, r.amount, r.priority)),
                                 Read(t.metricsNow, t.metricsStamp))
            && |d'.published| == |d.published| + (if t.sent then 1 else 0)
  {
  }

  /** The payoff check publishes one announcement if the loan is paid off and the publication
      goes out, and nothing otherwise. */
  lemma CheckEndsTheRound(d: Desk, t: Turn)
    requires t.Check? && d.checking
    ensures var d' := Turned(d, t);
            && !d'.checking && d'.queue == d.queue && d'.processed == d.processed
            && (if PaidOff(d.ledger.loan) && t.sent then d'.published == d.published + [LoanPaidOff]
                else d'.published == d.published)
  {
  }

  /** A payment and its payoff check for each of `n` requests. */
  function Rounds(takes: seq<Turn>, checks: seq<Turn>, n: nat): seq<Turn>
    requires n <= |takes| && n <= |checks|
  {
    if n == 0 then [] else Rounds(takes, checks, n - 1) + [takes[n - 1]] + [checks[n - 1]]
  }

  /** Left alone, the drain gets through everything queued: after as many rounds as there are
      requests, all of them are processed and it is idle. */
  lemma {:induction false} DrainServesEveryone(d: Desk, takes: seq<Turn>, checks: seq<Turn>, n: nat)
    requires !d.checking && n <= |d.queue| <= |takes| == |checks|
    requires forall i :: 0 <= i < |takes| ==> takes[i].Take? && checks[i].Check?
    ensures var d' := DeskRun(d, Rounds(takes, checks, n));
            !d'.checking && d'.queue == d.queue[n..] && d'.processed == d.processed + d.queue[..n]
  {
    hide Turned;
    if n == 0 {
      assert d.processed + [] == d.processed;
    } else {
      DrainServesEveryone(d, takes, checks, n - 1);
      var turns := Rounds(takes, checks, n - 1);
      var before := DeskRun(d, turns);
      DeskSnoc(d, turns, takes[n - 1]);
      TakeServesTheOldest(before, takes[n - 1]);
      DeskSnoc(d, turns + [takes[n - 1]], checks[n - 1]);
      var taken := Turned(before, takes[n - 1]);
      assert takes[n - 1].Take? && checks[n - 1].Check?;
      if taken.checking {
        CheckEndsTheRound(taken, checks[n - 1]);
      } else {
        IdleCheckDoesNothing(taken, checks[n - 1]);
      }
      assert taken.queue == d.queue[n..];
      assert d.queue[..n] == d.queue[..n - 1] + [d.queue[n - 1]];
    }
  }

  lemma IdleCheckDoesNothing(d: Desk, t: Turn)
    requires t.Check? && !d.checking
    ensures Turned(d, t) == d
  {
  }

  // ---- The ledger under it -------------------------------------------------------------------

  function OpsOf(d: Desk, turns: seq<Turn>): seq<Op> {
    if |turns| == 0 then [] else
      var before := turns[..|turns| - 1];
      OpsOf(d, before) + OpsOfTurn(DeskRun(d, before), turns[|turns| - 1])
  }

  lemma RunSnoc(g: Ledger, ops: seq<Op>, op: Op)
    ensures Run(g, ops + [op]) == Step(Run(g, ops), op)
  {
    hide Step;
    assert (ops + [op])[..|ops|] == ops;
  }

  lemma RunOfNone(g: Ledger)
    ensures Run(g, []) == g
  {
  }

  lemma RunOfOne(g: Ledger, op: Op)
    ensures Run(g, [op]) == Step(g, op)
  {
    hide Step;
    assert [op][..0] == [];
  }

  lemma RunOfTwo(g: Ledger, op: Op, last: Op)
    ensures Run(g, [op, last]) == Step(Step(g, op), last)
  {
    hide Run, Step;
    RunOfOne(g, op);
    RunSnoc(g, [op], last);
    assert [op] + [last] == [op, last];
  }

  lemma RunConcat(g: Ledger, first: seq<Op>, second: seq<Op>)
    requires |second| <= 2
    ensures Run(g, first + second) == Run(Run(g, first), second)
  {
    hide Run, Step;
    if |second| == 0 {
      RunOfNone(Run(g, first));
      assert first + second == first;
    } else {
      var op := second[0];
      RunSnoc(g, first, op);
      if |second| == 1 {
        RunOfOne(Run(g, first), op);
        assert second == [op];
      } else {
        var last := second[1];
        RunSnoc(g, first + [op], last);
        RunOfTwo(Run(g, first), op, last);
        assert second == [op, last];
        assert first + second == first + [op] + [last];
      }
    }
  }

  lemma TurnRuns(d: Desk, t: Turn)
    ensures Turned(d, t).ledger == Run(d.ledger, OpsOfTurn(d, t))
  {
    hide Step, PaidOff;
    var ops := OpsOfTurn(d, t);
    if |ops| == 1 {
      RunOfOne(d.ledger, ops[0]);
    } else if |ops| == 2 {
      RunOfOne(d.ledger, ops[0]);
      assert ops[..1] == [ops[0]];
    }
  }

  /** Every theorem about runs of the ledger is about the desk: its ledger is the run of the
      calls its turns make. */
  lemma {:induction false} LedgerIsRunOfOps(d: Desk, turns: seq<Turn>)
    ensures DeskRun(d, turns).ledger == Run(d.ledger, OpsOf(d, turns))
  {
    if |turns| != 0 {
      hide Turned, OpsOfTurn, Step;
      var before, t := turns[..|turns| - 1], turns[|turns| - 1];
      LedgerIsRunOfOps(d, before);
      TurnRuns(DeskRun(d, before), t);
      AtMostTwo(DeskRun(d, before), t);
      RunConcat(d.ledger, OpsOf(d, before), OpsOfTurn(DeskRun(d, before), t));
    }
  }

  lemma AtMostTwo(d: Desk, t: Turn)
    ensures |OpsOfTurn(d, t)| <= 2
  {
  }

  lemma {:induction false} PaymentsConcat(first: seq<Op>, second: seq<Op>)
    ensures Payments(first + second) == Payments(first) + Payments(second)
  {
    if |second| == 0 {
      assert first + second == first;
    } else {
      var n := |second| - 1;
      PaymentsConcat(first, second[..n]);
      assert (first + second)[..|first| + n] == first + second[..n];
    }
  }

  predicate PaysFor(op: Op, r: Request) {
    op.Pay? && op.amount == r.amount && op.priority == r.priority
  }

  lemma PaymentsOfTurn(d: Desk, t: Turn)
    ensures var payments := Payments(OpsOfTurn(d, t));
            if t.Take? && Enabled(d, t) then |payments| == 1 && PaysFor(payments[0], d.queue[0])
            else payments == []
  {
    match t {
      case Enqueue(_) =>
      case Touch(now, stamp) => PaymentsOfOne(Read(now, stamp));
      case Take(_, _, _, metricsNow, metricsStamp, _) =>
        if Enabled(d, t) {
          PaymentsOfOne(PayOp(d.queue[0], t));
          PaymentsOfOne(Read(metricsNow, metricsStamp));
          PaymentsConcat([PayOp(d.queue[0], t)], [Read(metricsNow, metricsStamp)]);
        }
      case Check(now, stamp, _) => PaymentsOfOne(Read(now, stamp));
    }
  }

  lemma PaymentsOfOne(op: Op)
    ensures Payments([op]) == if op.Pay? then [op] else []
    ensures Payments([]) == []
  {
    assert [op][..0] == [];
  }

  lemma PaymentsOfNone()
    ensures Payments([]) == []
  {
  }

  lemma TurnProcesses(d: Desk, t: Turn)
    ensures Turned(d, t).processed == d.processed + (if t.Take? && Enabled(d, t) then [d.queue[0]] else [])
  {
    hide Step, PaidOff;
  }

  /** The payments made are those for the processed requests, each once and in order. */
  lemma {:induction false} PaymentsAreForProcessed(d: Desk, turns: seq<Turn>)
    requires d.processed == []
    ensures var payments, processed := Payments(OpsOf(d, turns)), DeskRun(d, turns).processed;
            |payments| == |processed| && forall i :: 0 <= i < |payments| ==> PaysFor(payments[i], processed[i])
  {
    if |turns| == 0 {
      PaymentsOfNone();
    } else {
      hide Turned, Enabled, OpsOfTurn, PaysFor, Payments;
      var before, t := turns[..|turns| - 1], turns[|turns| - 1];
      PaymentsAreForProcessed(d, before);
      TurnProcesses(DeskRun(d, before), t);
      PaymentsOfTurn(DeskRun(d, before), t);
      PaymentsConcat(OpsOf(d, before), OpsOfTurn(DeskRun(d, before), t));
    }
  }

  predicate Steady(t: Turn) {
    match t
    case Enqueue(_) => true
    case Touch(now, stamp) => now == stamp
    case Take(now, stamp, _, metricsNow, metricsStamp, _) => now == stamp && metricsNow == metricsStamp
    case Check(now, stamp, _) => now == stamp
  }

  lemma {:induction false} SteadyOps(d: Desk, turns: seq<Turn>)
    requires forall i :: 0 <= i < |turns| ==> Steady(turns[i])
    ensures forall op :: op in OpsOf(d, turns) ==> OneReading(op)
  {
    if |turns| != 0 {
      SteadyOps(d, turns[..|turns| - 1]);
      assert Steady(turns[|turns| - 1]);
    }
  }

  /** With one clock reading per accrual, nothing the other tasks do in between leaves a
      trace: history and accrued loan are those of the payments alone. */
  lemma InterleavingLeavesNoTrace(d: Desk, turns: seq<Turn>, later: real)
    requires forall i :: 0 <= i < |turns| ==> Steady(turns[i])
    ensures var g, paid := DeskRun(d, turns).ledger, Run(d.ledger, Payments(OpsOf(d, turns)));
            && g.history == paid.history
            && Accrue(g.loan, later, later) == Accrue(paid.loan, later, later)
  {
    LedgerIsRunOfOps(d, turns);
    SteadyOps(d, turns);
    var ops, g := OpsOf(d, turns), DeskRun(d, turns).ledger;
    hide DeskRun, OpsOf;
    ReadsAreHarmless(d.ledger, ops, later);
  }

  /** And the payments are for the requests queued first, in the order they were queued. */
  lemma PaymentsFollowTheQueue(d: Desk, turns: seq<Turn>)
    requires d.processed == []
    ensures var payments, all := Payments(OpsOf(d, turns)), d.queue + Queued(turns);
            && |payments| == |DeskRun(d, turns).processed| <= |all|
            && forall i :: 0 <= i < |payments| ==> PaysFor(payments[i], all[i])
  {
    hide Turned, PaysFor, OpsOfTurn;
    PaymentsAreForProcessed(d, turns);
    ProcessedIsPrefixOfQueued(d, turns);
    var d' := DeskRun(d, turns);
    assert [] + d.queue + Queued(turns) == d.queue + Queued(turns);
    PrefixPays(Payments(OpsOf(d, turns)), d'.processed, d'.queue, d.queue + Queued(turns));
  }

  lemma PrefixPays(payments: seq<Op>, processed: seq<Request>, waiting: seq<Request>, all: seq<Request>)
    requires processed + waiting == all && |payments| == |processed|
    requires forall i :: 0 <= i < |payments| ==> PaysFor(payments[i], processed[i])
    ensures |payments| <= |all| && forall i :: 0 <= i < |payments| ==> PaysFor(payments[i], all[i])
  {
    assert forall i :: 0 <= i < |processed| ==> all[i] == processed[i];
  }

  // ---- The payoff announcement -----------------------------------------------------------------

  predicate Runs(from: real, t: Turn) {
    match t
    case Enqueue(r) => r.amount > 0.0
    case Touch(now, stamp) => from <= now <= stamp
    case Take(now, stamp, _, metricsNow, metricsStamp, _) => from <= now <= stamp <= metricsNow <= metricsStamp
    case Check(now, stamp, _) => from <= now <= stamp
  }

  function EndOf(from: real, t: Turn): real {
    match t
    case Enqueue(_) => from
    case Touch(_, stamp) => stamp
    case Take(_, _, _, _, metricsStamp, _) => metricsStamp
    case Check(_, stamp, _) => stamp
  }

  function Clock(from: real, turns: seq<Turn>): real {
    if |turns| == 0 then from else EndOf(Clock(from, turns[..|turns| - 1]), turns[|turns| - 1])
  }

  /** The clock never runs backwards, and every amount queued is positive. */
  ghost predicate TimelyTurns(from: real, turns: seq<Turn>) {
    |turns| == 0 ||
    (var before := turns[..|turns| - 1];
     TimelyTurns(from, before) && Runs(Clock(from, before), turns[|turns| - 1]))
  }

  ghost predicate Orderly(d: Desk, now: real) {
    && Sound(d.ledger.loan) && d.ledger.loan.lastCalc <= now
    && (forall i :: 0 <= i < |d.queue| ==> d.queue[i].amount > 0.0)
  }

  /** An announcement is never premature, and never missing once the drain has heard back. */
  ghost predicate Announced(d: Desk) {
    && (d.checking ==> d.processed != [])
    && (LoanPaidOff in d.published ==> PaidOff(d.ledger.loan) && d.processed != [])
    && (!d.checking && d.lastSent && d.processed != [] && PaidOff(d.ledger.loan) ==> LoanPaidOff in d.published)
  }

  lemma ReadKeepsPaidOff(g: Ledger, now: real, stamp: real)
    requires Sound(g.loan) && g.loan.lastCalc <= now <= stamp
    ensures Sound(Step(g, Read(now, stamp)).loan)
    ensures PaidOff(g.loan) <==> PaidOff(Step(g, Read(now, stamp)).loan)
  {
    StepKeepsSound(g, Read(now, stamp));
    InterestNonNegative(g.loan.balance, g.loan.apr, now - g.loan.lastCalc);
    if PaidOff(g.loan) {
      assert [Read(now, stamp)][..0] == [];
      LoanConservation.PaidOffIsAbsorbing(g, [Read(now, stamp)]);
    }
    hide Interest;
  }

  lemma PayKeepsPaidOff(g: Ledger, op: Op)
    requires Sound(g.loan) && op.Pay? && op.amount > 0.0 && g.loan.lastCalc <= op.now <= op.stamp
    ensures Sound(Step(g, op).loan) && Step(g, op).loan.lastCalc == op.stamp
    ensures PaidOff(g.loan) ==> PaidOff(Step(g, op).loan)
  {
    StepKeepsSound(g, op);
    RunOfOne(g, op);
    if PaidOff(g.loan) {
      assert [op][..0] == [];
      LoanConservation.PaidOffIsAbsorbing(g, [op]);
    }
  }

  lemma TurnKeepsOrderly(d: Desk, t: Turn, now: real)
    requires Orderly(d, now) && Runs(now, t)
    ensures Orderly(Turned(d, t), EndOf(now, t))
    ensures PaidOff(d.ledger.loan) ==> PaidOff(Turned(d, t).ledger.loan)
    ensures !t.Take? && PaidOff(Turned(d, t).ledger.loan) ==> PaidOff(d.ledger.loan)
  {
    match t {
      case Enqueue(_) =>
      case Touch(at, stamp) => ReadKeepsPaidOff(d.ledger, at, stamp);
      case Take(_, _, _, metricsNow, metricsStamp, _) =>
        if Enabled(d, t) {
          PayKeepsPaidOff(d.ledger, PayOp(d.queue[0], t));
          ReadKeepsPaidOff(Step(d.ledger, PayOp(d.queue[0], t)), metricsNow, metricsStamp);
        }
      case Check(at, stamp, _) => ReadKeepsPaidOff(d.ledger, at, stamp);
    }
    hide Sound, PaidOff;
  }

  lemma TurnKeepsAnnounced(d: Desk, t: Turn, now: real)
    requires Orderly(d, now) && Runs(now, t) && Announced(d)
    ensures Announced(Turned(d, t))
  {
    TurnKeepsOrderly(d, t, now);
    hide PaidOff, Step, Orderly, Runs;
  }

  lemma {:induction false} DeskStaysOrderly(d: Desk, turns: seq<Turn>)
    requires Orderly(d, d.ledger.loan.lastCalc) && Announced(d) && TimelyTurns(d.ledger.loan.lastCalc, turns)
    ensures Orderly(DeskRun(d, turns), Clock(d.ledger.loan.lastCalc, turns)) && Announced(DeskRun(d, turns))
  {
    if |turns| != 0 {
      hide Turned, Orderly, Announced;
      var before, t, from := turns[..|turns| - 1], turns[|turns| - 1], d.ledger.loan.lastCalc;
      DeskStaysOrderly(d, before);
      TurnKeepsOrderly(DeskRun(d, before), t, Clock(from, before));
      TurnKeepsAnnounced(DeskRun(d, before), t, Clock(from, before));
    }
  }

  /** However the tasks interleave: LOAN_PAID_OFF is never published before the loan is paid
      off; and when the drain is between rounds, its last publication went out and it has
      processed anything, LOAN_PAID_OFF is published exactly when the loan is paid off. */
  lemma PaidOffIsAnnounced(d: Desk, turns: seq<Turn>)
    requires Sound(d.ledger.loan) && TimelyTurns(d.ledger.loan.lastCalc, turns)
    requires d == Desk(d.ledger, [], [], false, true, [])
    ensures var d' := DeskRun(d, turns);
            && (LoanPaidOff in d'.published ==> PaidOff(d'.ledger.loan))
            && (!d'.checking && d'.lastSent && d'.processed != [] ==>
                  (LoanPaidOff in d'.published <==> PaidOff(d'.ledger.loan)))
  {
    DeskStaysOrderly(d, turns);
  }

  /** But a repayment whose publication fails skips the payoff check: if it is the one that
      covers the debt, the loan is paid off, the drain is idle, and nothing said so. */
  lemma LostPublicationHidesPayoff(d: Desk, t: Turn)
    requires t.Take? && !t.sent && !d.checking && d.queue != [] && Sound(d.ledger.loan) && d.queue[0].amount > 0.0
    requires d.ledger.loan.lastCalc <= t.now <= t.stamp <= t.metricsNow <= t.metricsStamp
    ensures var d' := Turned(d, t);
            && d'.published == d.published && !d'.checking
            && (PaidOff(d'.ledger.loan) <==> d.queue[0].amount >= Owed(Accrue(d.ledger.loan, t.now, t.stamp)))
  {
    hide PaidOff, Step;
    var op := PayOp(d.queue[0], t);
    LoanConservation.PaidOffIffCovered(d.ledger, op);
    PayKeepsPaidOff(d.ledger, op);
    ReadKeepsPaidOff(Step(d.ledger, op), t.metricsNow, t.metricsStamp);
  }
}
