/** What a price and an amount of hours mean, in every reachable state. */
module Prices {
  import opened Outcomes
  import opened Totals
  import opened Ledger
  import opened Invariants
  import Calendar
  import Tax

  /**
   * A price that is within half a cent, and half a cent for each hour, of hours at a stored rate. Both sides count
   * half ten-thousandths of a cent.
   */
  predicate NearPrice(hours: nat, rate: nat, price: nat) {
    0 - 10_000 - hours <= 2 * (Tax.Product(hours, rate) - 10_000 * price) <= 10_000 + hours
  }

  /** A priced movement is a charge, near its own hours at its own stored rate. */
  predicate PriceOk(r: Row) {
    r.price.Some? ==> Billable(r.kind) && r.rate.Some? && NearPrice(r.hours, r.rate.value, r.price.value)
  }

  predicate PricesOk(rows: seq<Row>) {
    forall i {:trigger rows[i]} :: 0 <= i < |rows| ==> PriceOk(rows[i])
  }

  /** A price is hours times the typed rate, rounded to the cent once. */
  lemma PriceIsRoundedOnce(hours: nat, rate: Fraction)
    ensures var drift := 2 * (hours * rate.num - 10_000 * rate.den * PriceAt(hours, rate));
            0 - 10_000 * rate.den <= drift < 10_000 * rate.den
  {
    Tax.ProductIsProduct(hours, rate.num);
    Tax.RoundingBounds(Tax.Product(hours, rate.num), 10_000 * rate.den);
    Regroup(10_000, rate.den, PriceAt(hours, rate));
  }

  lemma Regroup(a: int, b: int, c: int)
    ensures a * b * c == c * (a * b) == a * (c * b)
  {
  }

  /** Dividing a common denominator out of a bound. */
  lemma DivideOut(x: int, bound: int, d: int)
    requires d > 0 && 0 - bound * d <= x * d <= bound * d
    ensures 0 - bound <= x <= bound
  {
    Tax.CancelNext(x, bound, d);
    Tax.CancelNext(0 - bound, x, d);
  }

  lemma Distribute(a: int, b: int, c: int)
    ensures (a + b) * c == a * c + b * c
  {
  }

  /** Hours times what the column keeps of a rate, against hours times the rate: half a cent for each hour. */
  lemma StoredDrift(hours: nat, rate: Fraction)
    ensures var drift := 2 * (hours * (Stored(rate) * rate.den) - hours * rate.num);
            0 - hours * rate.den <= drift <= hours * rate.den
  {
    Tax.RoundingBounds(rate.num, rate.den);
    Drift(hours, Stored(rate) * rate.den, rate.num, rate.den);
  }

  lemma Drift(hours: nat, kept: nat, typed: nat, d: nat)
    requires 0 - d <= 2 * (kept - typed) <= d
    ensures 0 - hours * d <= 2 * (hours * kept - hours * typed) <= hours * d
  {
    Scale(hours, 2 * (kept - typed), d);
    assert hours * (2 * (kept - typed)) == 2 * (hours * kept - hours * typed);
  }

  lemma Scale(h: nat, x: int, d: nat)
    requires 0 - d <= x <= d
    ensures 0 - h * d <= h * x <= h * d
  {
  }

  /** A typed rate prices near what the stored rate would. */
  lemma TypedRateIsNear(hours: nat, rate: Fraction)
    ensures NearPrice(hours, Stored(rate), PriceAt(hours, rate))
  {
    var d, q, p := rate.den, Stored(rate), PriceAt(hours, rate);
    PriceIsRoundedOnce(hours, rate);
    StoredDrift(hours, rate);
    var x := 2 * (hours * q - 10_000 * p);
    Drifts(hours, q, p, d);
    Distribute(10_000, hours, d);
    DivideOut(x, 10_000 + hours, d);
    Tax.ProductIsProduct(hours, q);
  }

  lemma Drifts(h: nat, q: nat, p: nat, d: nat)
    ensures 2 * (h * q - 10_000 * p) * d == 2 * (h * (q * d)) - 2 * (10_000 * d * p)
  {
    Regroup(h, q, d);
    Regroup(10_000, d, p);
    Tax.Subtract(2 * (h * q), 20_000 * p, d);
    assert h * q * d == h * (q * d);
    assert 20_000 * p * d == 2 * (10_000 * d * p);
  }

  lemma StoredRateIsNear(hours: nat, rate: nat)
    ensures NearPrice(hours, rate, PriceOf(hours, rate))
  {
    PriceIsRoundedOnce(hours, Fraction(rate, 1));
    Tax.ProductIsProduct(hours, rate);
  }

  /** Rows that keep what they charge, followed by rows with a right price. */
  lemma PricesKept(before: seq<Row>, after: seq<Row>)
    requires PricesOk(before) && |before| <= |after|
    requires forall i :: 0 <= i < |before| ==> SameCharge(before[i], after[i])
    requires forall i :: |before| <= i < |after| ==> PriceOk(after[i])
    ensures PricesOk(after)
  {
    forall i | 0 <= i < |after|
      ensures PriceOk(after[i])
    {
      if i < |before| {
        assert SameCharge(before[i], after[i]) && PriceOk(before[i]);
      }
    }
  }

  lemma EditedPrice(row: Row, hours: Option<nat>, edit: RateEdit)
    requires Billable(row.kind)
    ensures PriceOk(EditedRow(row, hours, edit))
  {
    var edited := EditedRow(row, hours, edit);
    if edited.price.Some? {
      if edit.Keep? {
        StoredRateIsNear(edited.hours, row.rate.value);
      } else {
        TypedRateIsNear(edited.hours, edit.rate.value);
      }
    }
  }

  lemma EditKeepsPrices(s: State, i: nat, hours: Option<nat>, edit: RateEdit)
    requires PricesOk(s.rows) && EditHours(s, i, hours, edit).Ok?
    ensures PricesOk(EditHours(s, i, hours, edit).value.rows)
  {
    var t := EditHours(s, i, hours, edit).value;
    EditedPrice(s.rows[i], hours, edit);
    forall k | 0 <= k < |t.rows|
      ensures PriceOk(t.rows[k])
    {
      assert PriceOk(s.rows[k]);
    }
  }

  lemma MirrorsKeepPrices(before: seq<Row>, after: seq<Row>, originals: seq<nat>)
    requires PricesOk(before) && MirrorsAdded(before, after, originals)
    ensures PricesOk(after)
  {
    forall k | |before| <= k < |after|
      ensures PriceOk(after[k])
    {
      var mirror, j := after[k], originals[k - |before|];
      assert j < |before| && mirror == Mirror(before[j], j, mirror.createdOn);
      assert PriceOk(before[j]);
    }
    PricesKept(before, after);
  }

  lemma CreditKeepsPrices(s: State, q: CreditRequest)
    requires PricesOk(s.rows) && EmitCreditNote(s, q).Ok?
    ensures PricesOk(EmitCreditNote(s, q).value.rows)
  {
    var originals := ResolveLines(s, q.cycle, q.ids).value;
    EmittedIsCredited(s, q);
    CreditedMirrors(s, q, originals);
    MirrorsKeepPrices(s.rows, Credited(s, q, originals).rows, originals);
  }

  lemma CloseKeepsPrices(s: State, q: CloseRequest)
    requires PricesOk(s.rows) && CloseCycle(s, q).Ok?
    ensures PricesOk(CloseCycle(s, q).value.rows)
  {
    ClosedIsIssued(s, q);
    PricesKept(s.rows, Issue(s, q, CheckClose(s, q).value).rows);
  }

  lemma ReopenKeepsPrices(s: State, c: nat, reason: string)
    requires PricesOk(s.rows) && ReopenCycle(s, c, reason).Ok?
    ensures PricesOk(ReopenCycle(s, c, reason).value.rows)
  {
    PricesKept(s.rows, ReopenCycle(s, c, reason).value.rows);
  }

  lemma ConfirmKeepsPrices(s: State, e: Confirm)
    requires PricesOk(s.rows)
    ensures PricesOk(ConfirmEntry(s, e).rows)
  {
    var row := ChargeRow(s, e);
    if row.Some? && row.value.price.Some? {
      StoredRateIsNear(row.value.hours, row.value.rate.value);
    }
    PricesKept(s.rows, ConfirmEntry(s, e).rows);
  }

  lemma RevertKeepsPrices(s: State, e: Revert)
    requires PricesOk(s.rows)
    ensures PricesOk(RevertEntry(s, e).rows)
  {
    PricesKept(s.rows, RevertEntry(s, e).rows);
  }

  lemma DeleteKeepsPrices(s: State, i: nat)
    requires PricesOk(s.rows) && DeleteHours(s, i).Ok?
    ensures PricesOk(DeleteHours(s, i).value.rows)
  {
    PricesKept(s.rows, DeleteHours(s, i).value.rows);
  }

  lemma AddKeepsPrices(s: State, hours: nat, today: Calendar.Day)
    requires PricesOk(s.rows)
    ensures PricesOk(AddHours(s, hours, today).rows)
  {
    PricesKept(s.rows, AddHours(s, hours, today).rows);
  }

  lemma ApplyKeepsPrices(s: State, op: Op)
    requires PricesOk(s.rows)
    ensures PricesOk(Apply(s, op).rows)
  {
    if Step(s, op).Ok? {
      match op {
        case OpAddHours(hours, today) => AddKeepsPrices(s, hours, today);
        case OpConfirm(e) => ConfirmKeepsPrices(s, e);
        case OpRevert(e) => RevertKeepsPrices(s, e);
        case OpDelete(i) => DeleteKeepsPrices(s, i);
        case OpEdit(i, hours, edit) => EditKeepsPrices(s, i, hours, edit);
        case OpClose(q) => CloseKeepsPrices(s, q);
        case OpReopen(c, reason) => ReopenKeepsPrices(s, c, reason);
        case OpCredit(q) => CreditKeepsPrices(s, q);
        case SetTask(_, _) =>
        case SetTerms(_, _, _) =>
        case OpUpsert(_, _) =>
        case OpRemove(_) =>
        case OpUpdate(_, _, _, _) =>
        case OpWriteOff(_, _) =>
      }
    }
  }

  lemma {:induction false} RunKeepsPrices(ops: seq<Op>)
    ensures PricesOk(After(ops).rows)
  {
    if ops != [] {
      RunKeepsPrices(ops[..|ops| - 1]);
      ApplyKeepsPrices(After(ops[..|ops| - 1]), ops[|ops| - 1]);
    }
  }

  /**
   * In every reachable state, whatever edits, credits and re-billings, a price is near its own hours at its own stored
   * rate: within half a cent, and half a cent for each hour.
   */
  lemma PricesFollowHoursAndRates(ops: seq<Op>, i: nat)
    requires i < |After(ops).rows| && After(ops).rows[i].price.Some?
    ensures var r := After(ops).rows[i];
            && Billable(r.kind) && r.rate.Some?
            && 0 - 10_000 - r.hours <= 2 * (r.hours * r.rate.value - 10_000 * r.price.value) <= 10_000 + r.hours
  {
    RunKeepsPrices(ops);
    assert PriceOk(After(ops).rows[i]);
    Tax.ProductIsProduct(After(ops).rows[i].hours, After(ops).rows[i].rate.value);
  }

  /** An edit prices with the rate as it was typed, and keeps whole cents of it. */
  lemma EditPricesTheTypedRate(s: State, i: nat, hours: Option<nat>, rate: Fraction)
    requires rate.num > 0 && EditHours(s, i, hours, Set(Some(rate))).Ok?
    ensures var r := EditHours(s, i, hours, Set(Some(rate))).value.rows[i];
            && r.hours == (if hours.Some? then hours.value else s.rows[i].hours)
            && r.rate == Some(Stored(rate)) && r.price.Some?
            && 0 - 10_000 * rate.den <= 2 * (r.hours * rate.num - 10_000 * rate.den * r.price.value) < 10_000 * rate.den
  {
    PriceIsRoundedOnce(if hours.Some? then hours.value else s.rows[i].hours, rate);
  }

  predicate WholeCents(rate: Fraction) {
    rate.num == Stored(rate) * rate.den
  }

  /** The price of an edit is the price at the stored rate for all hours exactly when the typed rate is whole cents. */
  lemma StoredRateReprices(rate: Fraction)
    ensures (forall hours: nat :: PriceAt(hours, rate) == PriceOf(hours, Stored(rate))) <==> WholeCents(rate)
  {
    if WholeCents(rate) {
      forall hours: nat
        ensures PriceAt(hours, rate) == PriceOf(hours, Stored(rate))
      {
        WholeCentsReprice(hours, rate);
      }
    } else {
      FractionsDoNotReprice(rate);
    }
  }

  lemma WholeCentsReprice(hours: nat, rate: Fraction)
    requires WholeCents(rate)
    ensures PriceAt(hours, rate) == PriceOf(hours, Stored(rate))
  {
    var d, q := rate.den, Stored(rate);
    var p := PriceOf(hours, q);
    PriceIsRoundedOnce(hours, Fraction(q, 1));
    var x := 2 * (hours * q - 10_000 * p);
    Regroup(hours, q, d);
    Drifts(hours, q, p, d);
    Regroup(10_000, d, p);
    ScaleOpen(x, 10_000, d);
    Tax.ProductIsProduct(hours, rate.num);
    Tax.RoundingIsUnique(Tax.Product(hours, rate.num), 10_000 * d, p);
  }

  lemma ScaleOpen(x: int, bound: nat, d: nat)
    requires 0 - bound <= x < bound && d > 0
    ensures 0 - bound * d <= x * d < bound * d
  {
    Tax.Subtract(bound, x, d);
    Tax.Subtract(x, 0 - bound, d);
  }

  /** Enough hours tell a rate from what the column keeps of it: ten thousand times its denominator. */
  lemma FractionsDoNotReprice(rate: Fraction)
    requires !WholeCents(rate)
    ensures PriceAt(10_000 * rate.den, rate) != PriceOf(10_000 * rate.den, Stored(rate))
  {
    var d, q := rate.den, Stored(rate);
    var hours := 10_000 * d;
    Tax.ProductIsProduct(hours, rate.num);
    Regroup(10_000, d, rate.num);
    Tax.RoundingIsUnique(Tax.Product(hours, rate.num), hours, rate.num);
    Tax.ProductIsProduct(hours, q);
    Regroup(10_000, d, q);
    assert hours * q == (q * d) * 10_000;
    Tax.RoundingIsUnique(Tax.Product(hours, q), 10_000, q * d);
  }

  /**
   * Seconds are rounded to minutes, and minutes to ten-thousandths of an hour: what is charged is within half a minute
   * and half a ten-thousandth of an hour of what was worked.
   */
  lemma HoursAreRoundedTwice(seconds: nat)
    ensures var error := 3_600 * HoursOf(seconds) - 10_000 * seconds;
            -301_800 <= error <= 301_800
  {
    Tax.RoundingBounds(seconds, 60);
    Tax.RoundingBounds(Tax.RoundHalfUp(seconds, 60) * 10_000, 60);
  }
}
