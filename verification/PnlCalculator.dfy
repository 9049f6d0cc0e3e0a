/** Average-cost profit and loss of the two perpetual legs, checked against plain cash
    flow. */
module PnlCalculator {
  import opened Basics

  // ---- One leg -------------------------------------------------------------------------

  datatype LegBook = LegBook(entry: real, quantity: real)

  const INITIAL_PRICE := 116000.0

  /** A change of position at a price. `repriced` says whether update_entry_prices is told,
      `booked` whether realize_pnl is. */
  datatype Move = Move(price: real, change: real, repriced: bool, booked: bool)

  function UpdatedEntry(entry: real, price: real, before: real, after: real): real {
    if after <= 0.0 || before <= 0.0 then price
    else if after - before > 0.0 then (entry * before + price * (after - before)) / after
    else entry
  }

  function Moved(l: LegBook, m: Move): LegBook {
    var after := l.quantity + m.change;
    LegBook(if m.repriced then UpdatedEntry(l.entry, m.price, l.quantity, after) else l.entry, after)
  }

  function LegRun(start: LegBook, moves: seq<Move>): LegBook {
    if |moves| == 0 then start else Moved(LegRun(start, moves[..|moves| - 1]), moves[|moves| - 1])
  }

  /** The P&L, seen from the long side, of reducing at the move's price. */
  function Gain(l: LegBook, m: Move): real {
    (m.price - l.entry) * -m.change
  }

  /** The P&L of everything held, seen from the long side. */
  function Held(l: LegBook, price: real): real {
    (price - l.entry) * l.quantity
  }

  function Realized(start: LegBook, moves: seq<Move>): real {
    if |moves| == 0 then 0.0 else
      var before, m := moves[..|moves| - 1], moves[|moves| - 1];
      Realized(start, before) + Booked(LegRun(start, before), m)
  }

  /** The P&L that the moves dropped without realize_pnl being told. */
  function Forgone(start: LegBook, moves: seq<Move>): real {
    if |moves| == 0 then 0.0 else
      var before, m := moves[..|moves| - 1], moves[|moves| - 1];
      Forgone(start, before) + Missed(LegRun(start, before), m)
  }

  /** Money received less money spent: it never looks at an entry price. */
  function Cash(moves: seq<Move>): real {
    if |moves| == 0 then 0.0 else
      var m := moves[|moves| - 1];
      Cash(moves[..|moves| - 1]) - m.price * m.change
  }

  /** Adding to an open leg averages its entry price by quantity. */
  lemma WeightedAverage(entry: real, before: real, price: real, added: real)
    requires 0.0 < before && 0.0 < added
    ensures var average := UpdatedEntry(entry, price, before, before + added);
            && average * (before + added) == entry * before + price * added
            && Min(entry, price) <= average <= Max(entry, price)
  {
    var total, average := before + added, UpdatedEntry(entry, price, before, before + added);
    assert total - before == added;
    assert average == (entry * before + price * added) / total;
    assert average * total == entry * before + price * added;
    var lo, hi := Min(entry, price), Max(entry, price);
    MulNonNegative(entry - lo, before);
    MulNonNegative(price - lo, added);
    MulNonNegative(hi - entry, before);
    MulNonNegative(hi - price, added);
    assert (average - lo) * total == (entry - lo) * before + (price - lo) * added;
    assert (hi - average) * total == (hi - entry) * before + (hi - price) * added;
    FactorNonNegative(average - lo, total);
    FactorNonNegative(hi - average, total);
  }

  function Basis(l: LegBook): real {
    l.entry * l.quantity
  }

  function Booked(l: LegBook, m: Move): real {
    if m.booked then Gain(l, m) else 0.0
  }

  /** A reported move from or to a leg with nothing on it replaces the entry price. */
  predicate Resets(l: LegBook, m: Move) {
    m.repriced && (l.quantity <= 0.0 || l.quantity + m.change <= 0.0)
  }

  /** A reported increase of an open leg is averaged into its entry price. */
  predicate Averages(l: LegBook, m: Move) {
    m.repriced && !Resets(l, m) && m.change > 0.0
  }

  /** Replacing the entry price drops the P&L of everything held until then; averaging
      drops nothing; any other move drops the P&L of what it closes. All of it less what
      was booked. */
  function Missed(l: LegBook, m: Move): real {
    (if Resets(l, m) then Held(l, m.price) else if Averages(l, m) then 0.0 else Gain(l, m)) - Booked(l, m)
  }

  lemma ResetIsExact(l: LegBook, m: Move)
    requires Resets(l, m)
    ensures Held(l, m.price) - Basis(Moved(l, m)) + Basis(l) == -(m.price * m.change)
  {
    var price, entry, before := m.price, l.entry, l.quantity;
    assert Moved(l, m).entry == price;
    assert price * (before + m.change) == price * before + price * m.change;
    assert (price - entry) * before == price * before - entry * before;
  }

  lemma AverageIsExact(l: LegBook, m: Move)
    requires Averages(l, m)
    ensures Basis(l) - Basis(Moved(l, m)) == -(m.price * m.change)
  {
    WeightedAverage(l.entry, l.quantity, m.price, m.change);
    hide UpdatedEntry;
  }

  lemma PlainIsExact(l: LegBook, m: Move)
    requires !Resets(l, m) && !Averages(l, m)
    ensures Gain(l, m) - Basis(Moved(l, m)) + Basis(l) == -(m.price * m.change)
  {
    var entry, change := l.entry, m.change;
    assert Moved(l, m).entry == entry;
    assert entry * (l.quantity + change) == entry * l.quantity + entry * change;
    assert (m.price - entry) * -change == entry * change - m.price * change;
  }

  lemma MoveIsExact(l: LegBook, m: Move)
    ensures Booked(l, m) + Missed(l, m) - Basis(Moved(l, m)) + Basis(l) == -(m.price * m.change)
  {
    hide Moved, Basis, Booked, Gain, Held, Resets;
    if Resets(l, m) {
      ResetIsExact(l, m);
    } else if Averages(l, m) {
      AverageIsExact(l, m);
    } else {
      PlainIsExact(l, m);
    }
  }

  /** Over every run, whatever the signs of the quantities: realised plus forgone P&L, less
      the growth of the cost basis, is the cash that flowed. */
  lemma {:induction false} LegIsExact(start: LegBook, moves: seq<Move>)
    ensures Realized(start, moves) + Forgone(start, moves) - Basis(LegRun(start, moves)) + Basis(start) == Cash(moves)
  {
    hide Moved, Basis, Booked, Missed;
    if |moves| != 0 {
      var before, m := moves[..|moves| - 1], moves[|moves| - 1];
      LegIsExact(start, before);
      MoveIsExact(LegRun(start, before), m);
    }
  }

  /** realize_pnl is never told about a move that update_entry_prices is told about. */
  predicate ToldOnce(m: Move) {
    !(m.booked && m.repriced)
  }

  /** What makes a move forgo nothing: it is booked or averaged in, it moves nothing, or it
      happens at the entry price; a reset is also harmless on an empty leg. */
  predicate Harmless(l: LegBook, m: Move) {
    || m.price == l.entry
    || (if Resets(l, m) then l.quantity == 0.0 else m.booked || Averages(l, m) || m.change == 0.0)
  }

  lemma MissedIsZeroIff(l: LegBook, m: Move)
    requires ToldOnce(m)
    ensures Missed(l, m) == 0.0 <==> Harmless(l, m)
  {
    ProductIsZeroIff(m.price - l.entry, l.quantity);
    ProductIsZeroIff(m.price - l.entry, -m.change);
  }

  ghost predicate AllHarmless(start: LegBook, moves: seq<Move>) {
    |moves| == 0 ||
    (var before, m := moves[..|moves| - 1], moves[|moves| - 1];
     AllHarmless(start, before) && ToldOnce(m) && Harmless(LegRun(start, before), m))
  }

  /** A run of harmless moves forgoes nothing. */
  lemma {:induction false} HarmlessForgoesNothing(start: LegBook, moves: seq<Move>)
    requires AllHarmless(start, moves)
    ensures Forgone(start, moves) == 0.0
  {
    if |moves| != 0 {
      hide Missed, Harmless;
      HarmlessForgoesNothing(start, moves[..|moves| - 1]);
      MissedIsZeroIff(LegRun(start, moves[..|moves| - 1]), moves[|moves| - 1]);
    }
  }

  // ---- The entry price is an average ---------------------------------------------------

  /** The prices added to a leg since it was last flat; a leg held from the start counts as
      added at its first entry price. */
  function PricesSinceOpen(start: LegBook, moves: seq<Move>): seq<real> {
    if |moves| == 0 then if start.quantity <= 0.0 then [] else [start.entry]
    else
      var before, m := moves[..|moves| - 1], moves[|moves| - 1];
      var prices := if LegRun(start, before).quantity <= 0.0 then [] else PricesSinceOpen(start, before);
      if m.change > 0.0 then prices + [m.price] else prices
  }

  ghost predicate Between(x: real, prices: seq<real>) {
    exists i, j :: 0 <= i < |prices| && 0 <= j < |prices| && prices[i] <= x <= prices[j]
  }

  lemma BetweenGrows(x: real, y: real, prices: seq<real>, price: real)
    requires Between(x, prices) && Min(x, price) <= y <= Max(x, price)
    ensures Between(y, prices + [price])
  {
    var i, j :| 0 <= i < |prices| && 0 <= j < |prices| && prices[i] <= x <= prices[j];
    var all := prices + [price];
    var last := |prices|;
    assert all[i] == prices[i] && all[j] == prices[j] && all[last] == price;
    var i', j' := if x <= price then i else last, if x <= price then last else j;
    assert all[i'] <= y <= all[j'];
  }

  /** An unreported increase at most brings an oversold leg back to nothing. */
  ghost predicate IncreasesReported(start: LegBook, moves: seq<Move>) {
    |moves| == 0 ||
    (var before, m := moves[..|moves| - 1], moves[|moves| - 1];
     && IncreasesReported(start, before)
     && (m.change > 0.0 ==> m.repriced || LegRun(start, before).quantity + m.change <= 0.0))
  }

  lemma MovedEntry(l: LegBook, m: Move)
    requires (m.change > 0.0 ==> m.repriced) && Moved(l, m).quantity > 0.0
    ensures m.change <= 0.0 ==> l.quantity > 0.0 && Moved(l, m).entry == l.entry
    ensures m.change > 0.0 && l.quantity <= 0.0 ==> Moved(l, m).entry == m.price
    ensures m.change > 0.0 && l.quantity > 0.0 ==>
              Min(l.entry, m.price) <= Moved(l, m).entry <= Max(l.entry, m.price)
  {
    if m.change > 0.0 && l.quantity > 0.0 {
      WeightedAverage(l.entry, l.quantity, m.price, m.change);
      hide UpdatedEntry;
    }
  }

  /** While a leg is open, its entry price lies between the lowest and the highest price
      added to it since it opened, however often it was oversold before. */
  lemma {:induction false} EntryStaysWithinPrices(start: LegBook, moves: seq<Move>)
    requires IncreasesReported(start, moves)
    ensures var l := LegRun(start, moves);
            l.quantity > 0.0 ==> Between(l.entry, PricesSinceOpen(start, moves))
  {
    var l := LegRun(start, moves);
    if |moves| == 0 {
      assert l.quantity > 0.0 ==> PricesSinceOpen(start, moves)[0] == l.entry;
    } else if l.quantity > 0.0 {
      var before, m := moves[..|moves| - 1], moves[|moves| - 1];
      assert l.quantity == LegRun(start, before).quantity + m.change;
      EntryStaysWithinPrices(start, before);
      MovedEntry(LegRun(start, before), m);
      hide Moved;
      if m.change > 0.0 && LegRun(start, before).quantity > 0.0 {
        BetweenGrows(LegRun(start, before).entry, l.entry, PricesSinceOpen(start, before), m.price);
      } else if m.change > 0.0 {
        assert PricesSinceOpen(start, moves)[0] == l.entry;
      }
    }
  }

  // ---- Both legs ------------------------------------------------------------------------

  datatype Leg = Spot | LongPerp | ShortPerp

  /** One event of the position. `Increase` is reported to update_entry_prices. `Close`
      goes through realize_pnl, which ignores what is not positive. `Drop` is a reduction
      that realize_pnl never hears of: by a rehedge, by an emergency close, or by profit
      taking; `repriced` says whether update_entry_prices does. Dropping a negative amount
      buys an oversold leg back. */
  datatype Event =
    | Increase(leg: Leg, price: real, amount: real)
    | Close(price: real, long: real, short: real)
    | Drop(leg: Leg, price: real, amount: real, repriced: bool)

  /** How one leg sees an event. */
  function View(e: Event, leg: Leg): Move {
    match e
    case Increase(l, price, amount) => Move(price, if l == leg then amount else 0.0, l == leg, false)
    case Close(price, long, short) =>
      var amount := Max(0.0, if leg == LongPerp then long else short);
      Move(price, -amount, false, true)
    case Drop(l, price, amount, repriced) =>
      Move(price, if l == leg then -amount else 0.0, l == leg && repriced, false)
  }

  function Views(events: seq<Event>, leg: Leg): (moves: seq<Move>)
    ensures |moves| == |events|
  {
    seq(|events|, i requires 0 <= i < |events| => View(events[i], leg))
  }

  datatype Book = Book(long: LegBook, short: LegBook, realized: real)

  /** What a new calculator makes of the holdings it is first shown. */
  function OpenBook(long: real, short: real): Book {
    Book(LegBook(INITIAL_PRICE, long), LegBook(INITIAL_PRICE, short), 0.0)
  }

  function Step(b: Book, e: Event): Book {
    Book(
      Moved(b.long, View(e, LongPerp)),
      Moved(b.short, View(e, ShortPerp)),
      b.realized + (if e.Close?
                    then RealizedBy(b.long.entry, b.short.entry, e.long, e.short, e.price)
                    else 0.0))
  }

  function RealizedBy(longEntry: real, shortEntry: real, long: real, short: real, price: real): real {
    (if long > 0.0 then (price - longEntry) * long else 0.0)
    + (if short > 0.0 then (shortEntry - price) * short else 0.0)
  }

  function Run(start: Book, events: seq<Event>): Book {
    if |events| == 0 then start else Step(Run(start, events[..|events| - 1]), events[|events| - 1])
  }

  function PerpPnl(quantity: real, price: real, entry: real, leg: Leg): real {
    if quantity <= 0.0 then 0.0
    else if leg == LongPerp then (price - entry) * quantity
    else (entry - price) * quantity
  }

  lemma ViewsSnoc(events: seq<Event>, leg: Leg)
    requires |events| != 0
    ensures var moves := Views(events, leg);
            && moves[..|moves| - 1] == Views(events[..|events| - 1], leg)
            && moves[|moves| - 1] == View(events[|events| - 1], leg)
  {
  }

  lemma CloseIsBooked(b: Book, e: Event)
    requires e.Close?
    ensures RealizedBy(b.long.entry, b.short.entry, e.long, e.short, e.price) ==
            Booked(b.long, View(e, LongPerp)) - Booked(b.short, View(e, ShortPerp))
  {
    var l, s := b.long.entry, b.short.entry;
    var long, short := Max(0.0, e.long), Max(0.0, e.short);
    assert (e.price - l) * -(-long) == (e.price - l) * long;
    assert (e.price - s) * -(-short) == -((s - e.price) * short);
    if long == 0.0 { assert (e.price - l) * long == 0.0; }
    if short == 0.0 { assert (s - e.price) * short == 0.0; }
  }

  /** The two legs never interfere: the shared book is the two single-leg runs, and the
      one realised counter grows by the long leg's booked gains less the short leg's. */
  lemma {:induction false} LegsAreIndependent(start: Book, events: seq<Event>)
    ensures var longs, shorts := Views(events, LongPerp), Views(events, ShortPerp);
            Run(start, events) ==
            Book(LegRun(start.long, longs), LegRun(start.short, shorts),
                 start.realized + Realized(start.long, longs) - Realized(start.short, shorts))
  {
    if |events| != 0 {
      hide Moved, Booked, RealizedBy, View;
      var before, e := events[..|events| - 1], events[|events| - 1];
      LegsAreIndependent(start, before);
      ViewsSnoc(events, LongPerp);
      ViewsSnoc(events, ShortPerp);
      if e.Close? {
        CloseIsBooked(Run(start, before), e);
      } else {
        NotBooked(Run(start, before), e);
      }
    }
  }

  lemma NotBooked(b: Book, e: Event)
    requires !e.Close?
    ensures Booked(b.long, View(e, LongPerp)) == Booked(b.short, View(e, ShortPerp)) == 0.0
  {
  }

  function Marked(l: LegBook, mark: real): real {
    mark * l.quantity
  }

  /** What was sold beyond what was held, as a negative quantity. */
  function Oversold(l: LegBook): real {
    Min(l.quantity, 0.0)
  }

  /** The P&L of an oversold leg, seen from the long side: the P&L figures leave it out. */
  function Hidden(l: LegBook, mark: real): real {
    (mark - l.entry) * Oversold(l)
  }

  lemma MarkedLessBasis(l: LegBook, mark: real)
    ensures PerpPnl(l.quantity, mark, l.entry, LongPerp) + Hidden(l, mark) == Marked(l, mark) - Basis(l)
    ensures PerpPnl(l.quantity, mark, l.entry, ShortPerp) - Hidden(l, mark) == Basis(l) - Marked(l, mark)
  {
    var q, entry := l.quantity, l.entry;
    assert (mark - entry) * q == mark * q - entry * q;
    assert (entry - mark) * q == entry * q - mark * q;
    if q >= 0.0 { assert (mark - entry) * 0.0 == 0.0; }
    if q == 0.0 { assert mark * q == 0.0 && entry * q == 0.0; }
  }

  /** What the P&L figures show at a mark: realised plus unrealised. */
  function Accounted(b: Book, mark: real): real {
    b.realized + PerpPnl(b.long.quantity, mark, b.long.entry, LongPerp)
               + PerpPnl(b.short.quantity, mark, b.short.entry, ShortPerp)
  }

  /** The marked value of the two legs. */
  function Worth(b: Book, mark: real): real {
    Marked(b.long, mark) - Marked(b.short, mark)
  }

  /** What they would show if oversold legs counted. */
  function Fair(b: Book, mark: real): real {
    b.realized + Worth(b, mark) - Basis(b.long) + Basis(b.short)
  }

  lemma ShownIsFairLessHidden(b: Book, mark: real)
    ensures Accounted(b, mark) == Fair(b, mark) - Hidden(b.long, mark) + Hidden(b.short, mark)
  {
    hide PerpPnl, Marked, Basis, Hidden;
    MarkedLessBasis(b.long, mark);
    MarkedLessBasis(b.short, mark);
  }

  lemma HiddenIsZeroIff(l: LegBook, mark: real)
    ensures Hidden(l, mark) == 0.0 <==> 0.0 <= l.quantity || mark == l.entry
  {
    ProductIsZeroIff(mark - l.entry, Oversold(l));
  }

  /** While one leg is oversold the figures are right at one mark only, its entry price. */
  lemma ShownIsFairIff(b: Book, mark: real)
    ensures b.long.quantity < 0.0 <= b.short.quantity ==>
              (Accounted(b, mark) == Fair(b, mark) <==> mark == b.long.entry)
    ensures b.short.quantity < 0.0 <= b.long.quantity ==>
              (Accounted(b, mark) == Fair(b, mark) <==> mark == b.short.entry)
    ensures 0.0 <= b.long.quantity && 0.0 <= b.short.quantity ==> Accounted(b, mark) == Fair(b, mark)
  {
    hide Hidden, Accounted, Fair;
    ShownIsFairLessHidden(b, mark);
    HiddenIsZeroIff(b.long, mark);
    HiddenIsZeroIff(b.short, mark);
  }

  lemma HiddenAt(l: LegBook, mark: real)
    ensures Hidden(l, 0.0) == -(l.entry * Oversold(l))
    ensures Hidden(l, mark) == mark * Oversold(l) + Hidden(l, 0.0)
  {
    var q := Oversold(l);
    assert (mark - l.entry) * q == mark * q - l.entry * q;
    assert (0.0 - l.entry) * q == -(l.entry * q);
  }

  /** They are right at every mark exactly when no leg is oversold, or both are by the same
      quantity at the same entry price. */
  lemma ShownIsFairAtEveryMarkIff(b: Book)
    ensures (forall mark :: Accounted(b, mark) == Fair(b, mark)) <==>
              && Oversold(b.long) == Oversold(b.short)
              && (Oversold(b.long) == 0.0 || b.long.entry == b.short.entry)
  {
    hide Hidden, Accounted, Fair, Oversold;
    var long, short := Oversold(b.long), Oversold(b.short);
    forall mark
      ensures Accounted(b, mark) == Fair(b, mark) - Hidden(b.long, mark) + Hidden(b.short, mark)
      ensures Hidden(b.long, mark) == mark * long + Hidden(b.long, 0.0)
      ensures Hidden(b.short, mark) == mark * short + Hidden(b.short, 0.0)
    {
      ShownIsFairLessHidden(b, mark);
      HiddenAt(b.long, mark);
      HiddenAt(b.short, mark);
    }
    HiddenAt(b.long, 0.0);
    HiddenAt(b.short, 0.0);
    if long == short {
      assert b.long.entry * long - b.short.entry * long == (b.long.entry - b.short.entry) * long;
      ProductIsZeroIff(b.long.entry - b.short.entry, long);
    }
    if forall mark :: Accounted(b, mark) == Fair(b, mark) {
      assert Accounted(b, 0.0) == Fair(b, 0.0) && Accounted(b, 1.0) == Fair(b, 1.0);
    }
  }

  /** Over any run from any holdings, oversold or not, and at any mark: the fair P&L grows by
      the cash that flowed and the growth in marked value, less the P&L forgone on the two
      legs. What is shown leaves out the P&L of oversold legs as well. */
  lemma AverageCostIsExact(start: Book, events: seq<Event>, mark: real)
    ensures var b, longs, shorts := Run(start, events), Views(events, LongPerp), Views(events, ShortPerp);
            var fair := Cash(longs) - Cash(shorts) + Worth(b, mark) - Worth(start, mark)
                        - Forgone(start.long, longs) + Forgone(start.short, shorts);
            && Fair(b, mark) - Fair(start, mark) == fair
            && Accounted(b, mark) - Accounted(start, mark) ==
               fair - (Hidden(b.long, mark) - Hidden(start.long, mark))
                    + (Hidden(b.short, mark) - Hidden(start.short, mark))
  {
    hide Step, Basis, Booked, Missed, Moved, Accounted, Worth, Hidden;
    LegsAreIndependent(start, events);
    LegIsExact(start.long, Views(events, LongPerp));
    LegIsExact(start.short, Views(events, ShortPerp));
    ShownIsFairLessHidden(start, mark);
    ShownIsFairLessHidden(Run(start, events), mark);
  }

  /** So from legs that are not oversold, and over harmless moves, the shown P&L grows by cash
      flow plus marked value exactly when no oversold leg is left hidden: with one leg
      oversold, only at its entry price. */
  lemma ShownIsCashPlusWorthIff(start: Book, events: seq<Event>, mark: real)
    requires 0.0 <= start.long.quantity && 0.0 <= start.short.quantity
    requires AllHarmless(start.long, Views(events, LongPerp)) && AllHarmless(start.short, Views(events, ShortPerp))
    ensures var b := Run(start, events);
            var exact := Accounted(b, mark) - Accounted(start, mark) ==
                         Cash(Views(events, LongPerp)) - Cash(Views(events, ShortPerp))
                         + Worth(b, mark) - Worth(start, mark);
            && (0.0 <= b.long.quantity && 0.0 <= b.short.quantity ==> exact)
            && (b.long.quantity < 0.0 <= b.short.quantity ==> (exact <==> mark == b.long.entry))
            && (b.short.quantity < 0.0 <= b.long.quantity ==> (exact <==> mark == b.short.entry))
  {
    hide Hidden, Accounted, Fair, Worth, Step;
    AverageCostIsExact(start, events, mark);
    HarmlessForgoesNothing(start.long, Views(events, LongPerp));
    HarmlessForgoesNothing(start.short, Views(events, ShortPerp));
    HiddenIsZeroIff(start.long, mark);
    HiddenIsZeroIff(start.short, mark);
    var b := Run(start, events);
    HiddenIsZeroIff(b.long, mark);
    HiddenIsZeroIff(b.short, mark);
  }

  /** What the figures show of a leg, seen from the long side. */
  function Shown(l: LegBook, price: real): real {
    (price - l.entry) * Max(l.quantity, 0.0)
  }

  lemma LegIsShown(l: LegBook, price: real)
    ensures PerpPnl(l.quantity, price, l.entry, LongPerp) == Shown(l, price)
    ensures PerpPnl(l.quantity, price, l.entry, ShortPerp) == -Shown(l, price)
  {
    if l.quantity <= 0.0 { assert (price - l.entry) * 0.0 == 0.0; }
    assert (l.entry - price) * l.quantity == -((price - l.entry) * l.quantity);
  }

  lemma AccountedIsShown(b: Book, price: real)
    ensures Accounted(b, price) == b.realized + Shown(b.long, price) - Shown(b.short, price)
  {
    hide PerpPnl, Shown;
    LegIsShown(b.long, price);
    LegIsShown(b.short, price);
  }

  lemma DropShows(l: LegBook, price: real, amount: real, repriced: bool)
    requires 0.0 < amount
    ensures var l' := Moved(l, Move(price, -amount, repriced, false));
            Shown(l', price) == Shown(l, price) <==> l.quantity <= 0.0 || price == l.entry
  {
    var l' := Moved(l, Move(price, -amount, repriced, false));
    var before, after := Max(l.quantity, 0.0), Max(l'.quantity, 0.0);
    if l'.entry == l.entry {
      assert (price - l.entry) * before - (price - l.entry) * after == (price - l.entry) * (before - after);
      ProductIsZeroIff(price - l.entry, before - after);
    } else {
      assert l'.entry == price && after == 0.0;
      ProductIsZeroIff(price - l.entry, before);
    }
  }

  lemma NoMove(l: LegBook, price: real)
    ensures Moved(l, Move(price, 0.0, false, false)) == l
  {
  }

  /** One unbooked reduction keeps the shown P&L, at the price it was made, exactly when
      that price is the entry price or the leg was not held at all. */
  lemma DropKeepsPnlIff(b: Book, leg: Leg, price: real, amount: real, repriced: bool)
    requires leg != Spot && 0.0 < amount
    ensures var held := if leg == LongPerp then b.long else b.short;
            var b' := Step(b, Drop(leg, price, amount, repriced));
            Accounted(b', price) == Accounted(b, price) <==> held.quantity <= 0.0 || price == held.entry
  {
    hide Accounted, Moved, Shown;
    var b' := Step(b, Drop(leg, price, amount, repriced));
    var held, other := if leg == LongPerp then b.long else b.short, if leg == LongPerp then b.short else b.long;
    DropShows(held, price, amount, repriced);
    NoMove(other, price);
    AccountedIsShown(b, price);
    AccountedIsShown(b', price);
  }

  ghost predicate NeverOversold(start: LegBook, moves: seq<Move>) {
    if |moves| == 0 then 0.0 <= start.quantity
    else NeverOversold(start, moves[..|moves| - 1]) && 0.0 <= LegRun(start, moves).quantity
  }

  /** Increases, and closes of no more than is held, forgo nothing. */
  lemma {:induction false} NoDropsNothingForgone(start: LegBook, events: seq<Event>, leg: Leg)
    requires forall i :: 0 <= i < |events| ==> events[i].Close? || (events[i].Increase? && events[i].amount > 0.0)
    requires NeverOversold(start, Views(events, leg))
    ensures 0.0 <= LegRun(start, Views(events, leg)).quantity
    ensures Forgone(start, Views(events, leg)) == 0.0
  {
    if |events| != 0 {
      var before, e := events[..|events| - 1], events[|events| - 1];
      ViewsSnoc(events, leg);
      NoDropsNothingForgone(start, before, leg);
      var l, m := LegRun(start, Views(before, leg)), View(e, leg);
      assert e.Increase? ==> m.change >= 0.0;
      MissedIsZeroIff(l, m);
      assert Harmless(l, m);
    }
  }

  // ---- The calculator object --------------------------------------------------------------

  class Calculator {
    var entryPrices: map<Leg, real>
    var cumulativeRealizedPnl: real

    ghost predicate Valid()
      reads this
    {
      Spot in entryPrices && LongPerp in entryPrices && ShortPerp in entryPrices
    }

    /** The calculator holds the entry prices and the realised counter of `b`. */
    ghost predicate Holds(b: Book)
      reads this
    {
      Valid() && entryPrices[LongPerp] == b.long.entry && entryPrices[ShortPerp] == b.short.entry
      && cumulativeRealizedPnl == b.realized
    }

    constructor ()
      ensures forall long, short :: Holds(OpenBook(long, short))
    {
      entryPrices := map[Spot := INITIAL_PRICE, LongPerp := INITIAL_PRICE, ShortPerp := INITIAL_PRICE];
      cumulativeRealizedPnl := 0.0;
    }

    method RealizePnl(closed: map<Leg, real>, closingPrice: real) returns (realized: real)
      requires Valid()
      modifies this`cumulativeRealizedPnl
      ensures realized == RealizedBy(entryPrices[LongPerp], entryPrices[ShortPerp],
                                     if LongPerp in closed then closed[LongPerp] else 0.0,
                                     if ShortPerp in closed then closed[ShortPerp] else 0.0, closingPrice)
      ensures cumulativeRealizedPnl == old(cumulativeRealizedPnl) + realized
    {
      realized := 0.0;
      if LongPerp in closed && closed[LongPerp] > 0.0 {
        var entry := if LongPerp in entryPrices then entryPrices[LongPerp] else closingPrice;
        realized := realized + (closingPrice - entry) * closed[LongPerp];
      }
      if ShortPerp in closed && closed[ShortPerp] > 0.0 {
        var entry := if ShortPerp in entryPrices then entryPrices[ShortPerp] else closingPrice;
        realized := realized + (entry - closingPrice) * closed[ShortPerp];
      }
      cumulativeRealizedPnl := cumulativeRealizedPnl + realized;
    }

    method UpdateEntryPrices(leg: Leg, newPrice: real, oldQuantity: real, newQuantity: real)
      requires Valid()
      modifies this`entryPrices
      ensures Valid()
      ensures entryPrices ==
              old(entryPrices)[leg := UpdatedEntry(old(entryPrices)[leg], newPrice, oldQuantity, newQuantity)]
    {
      if newQuantity <= 0.0 {
        entryPrices := entryPrices[leg := newPrice];
        return;
      }
      if oldQuantity <= 0.0 {
        entryPrices := entryPrices[leg := newPrice];
        return;
      }
      var addedQuantity := newQuantity - oldQuantity;
      if addedQuantity > 0.0 {
        var oldValue := entryPrices[leg] * oldQuantity;
        var newValue := newPrice * addedQuantity;
        var average := (oldValue + newValue) / newQuantity;
        assert average == UpdatedEntry(entryPrices[leg], newPrice, oldQuantity, newQuantity);
        entryPrices := entryPrices[leg := average];
      } else {
        assert UpdatedEntry(entryPrices[leg], newPrice, oldQuantity, newQuantity) == entryPrices[leg];
        assert entryPrices == entryPrices[leg := entryPrices[leg]];
      }
    }
  }
}
