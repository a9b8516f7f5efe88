/** The balance of an invoice: its total plus its (negative) credit notes. */
module Balance {
  import opened Outcomes
  import opened Totals
  import opened Ledger
  import opened Invariants
  import Tax

  function NoteTotalColumn(notes: seq<CreditNote>, c: nat): (xs: seq<int>)
    ensures |xs| == |notes|
    ensures forall k :: 0 <= k < |xs| ==> xs[k] == if notes[k].cycle == c then notes[k].amounts.total else 0
  {
    seq(|notes|, k requires 0 <= k < |notes| => if notes[k].cycle == c then notes[k].amounts.total else 0)
  }

  function CreditedTotal(notes: seq<CreditNote>, c: nat): int {
    Total(NoteTotalColumn(notes, c))
  }

  function BalanceOf(s: State, c: nat): int
    requires c < |s.cycles|
  {
    if s.cycles[c].status.Cancelled? then 0 else s.cycles[c].amounts.total + CreditedTotal(s.notes, c)
  }

  function NoteCount(notes: seq<CreditNote>, c: nat): nat {
    if notes == [] then 0
    else NoteCount(notes[..|notes| - 1], c) + if notes[|notes| - 1].cycle == c then 1 else 0
  }

  /** What the rows of a cycle still owe before tax: stamped and not credited. */
  function UncreditedColumn(s: State, c: nat): (xs: seq<int>)
    ensures |xs| == |s.rows|
    ensures forall i :: 0 <= i < |xs| ==> xs[i] == if i in s.lines then 0 else PriceIn(s.rows[i], c)
  {
    seq(|s.rows|, i requires 0 <= i < |s.rows| => if i in s.lines then 0 else PriceIn(s.rows[i], c))
  }

  function Outstanding(s: State, c: nat): int
    requires c < |s.cycles|
  {
    Total(UncreditedColumn(s, c)) + VariablesAmount(s.cycles[c].variables)
  }

  /** What the first notes have credited on a cycle. */
  function CreditedColumn(s: State, c: nat, n: nat): (xs: seq<int>)
    ensures |xs| == |s.rows|
    ensures forall i :: 0 <= i < |xs| ==>
      xs[i] == if i in s.lines && s.lines[i].note < n then PriceIn(s.rows[i], c) else 0
  {
    seq(|s.rows|, i requires 0 <= i < |s.rows| =>
      if i in s.lines && s.lines[i].note < n then PriceIn(s.rows[i], c) else 0)
  }

  function CreditedUpTo(s: State, c: nat, n: nat): int {
    Total(CreditedColumn(s, c, n))
  }

  lemma LineOfNote(s: State, c: nat, i: nat)
    requires LinesOk(s) && i in s.lines
    ensures i < |s.rows| && s.lines[i].note < |s.notes|
    ensures PriceIn(s.rows[i], c) == if s.notes[s.lines[i].note].cycle == c then s.lines[i].price else 0
  {
    assert LineOk(s, i);
  }

  /** One more note credits its own subtotal on its own cycle. */
  lemma NoteAddsItsLines(s: State, c: nat, n: nat)
    requires LinesOk(s) && n < |s.notes| && s.notes[n].cycle == c
    ensures CreditedUpTo(s, c, n + 1) == CreditedUpTo(s, c, n) + NoteAmount(s.lines, |s.rows|, n)
  {
    var before, after := CreditedColumn(s, c, n), CreditedColumn(s, c, n + 1);
    var own := LinePriceColumn(s.lines, |s.rows|, n);
    forall i | i in s.lines && s.lines[i].note == n
      ensures i < |s.rows| && PriceIn(s.rows[i], c) == s.lines[i].price
    {
      LineOfNote(s, c, i);
    }
    TotalPlus(before, own, after);
  }

  /** And nothing on the others. */
  lemma NoteAddsNothingElsewhere(s: State, c: nat, n: nat)
    requires LinesOk(s) && n < |s.notes| && s.notes[n].cycle != c
    ensures CreditedUpTo(s, c, n + 1) == CreditedUpTo(s, c, n)
  {
    forall i | i in s.lines && s.lines[i].note == n
      ensures i < |s.rows| && PriceIn(s.rows[i], c) == 0
    {
      LineOfNote(s, c, i);
    }
    assert CreditedColumn(s, c, n + 1) == CreditedColumn(s, c, n);
  }

  /** Stamped is credited plus uncredited. */
  lemma StampedSplits(s: State, c: nat)
    requires LinesOk(s)
    ensures StampedAmount(s.rows, c) == CreditedUpTo(s, c, |s.notes|) + Total(UncreditedColumn(s, c))
  {
    forall i | i in s.lines
      ensures s.lines[i].note < |s.notes|
    {
      LineOfNote(s, c, i);
    }
    TotalPlus(CreditedColumn(s, c, |s.notes|), UncreditedColumn(s, c), PriceColumn(s.rows, c));
  }

  /** A line has a price, a variable has an amount: nothing is owed below zero. */
  lemma OutstandingIsNotNegative(s: State, c: nat)
    requires c < |s.cycles|
    ensures Outstanding(s, c) >= 0
  {
    TotalNonNegative(UncreditedColumn(s, c));
    TotalNonNegative(ConvertedColumn(s.cycles[c].variables));
  }

  predicate AddsTax(c: Cycle) {
    Tax.Taxed(c.taxRate, c.taxMode) && Tax.ParseTaxMode(c.taxMode) == Some(Tax.Excluded)
  }

  /** An amount plus the tax on it, both in ten-thousandths of a cent. */
  function WithTax(amount: int, t: nat): int {
    amount * 10_000 + Tax.Product(amount, t)
  }

  /** A total that is within so many half cents of an amount with its tax. */
  predicate Near(t: nat, amount: int, total: int, halves: nat) {
    -10_000 * halves <= 2 * (10_000 * total - WithTax(amount, t)) <= 10_000 * halves
  }

  /** Roundings add up, whether amounts are added or taken away. */
  lemma NearSum(t: nat, a: int, x: int, h: nat, b: int, y: int, k: nat, sum: int, total: int, halves: nat)
    requires Near(t, a, x, h) && Near(t, b, y, k)
    requires sum == a + b && total == x + y && halves == h + k
    ensures Near(t, sum, total, halves)
  {
    Tax.ProductIsProduct(a, t);
    Tax.ProductIsProduct(b, t);
    Tax.ProductIsProduct(a + b, t);
    assert (a + b) * t == a * t + b * t;
  }

  lemma NearDifference(t: nat, a: int, x: int, h: nat, b: int, y: int, k: nat, rest: int, total: int, halves: nat)
    requires Near(t, a, x, h) && Near(t, b, y, k)
    requires rest == a - b && total == x - y && halves == h + k
    ensures Near(t, rest, total, halves)
  {
    Tax.ProductIsProduct(a, t);
    Tax.ProductIsProduct(b, t);
    Tax.ProductIsProduct(a - b, t);
    assert (a - b) * t == a * t - b * t;
  }

  lemma NearNothing(t: nat)
    ensures Near(t, 0, 0, 0)
  {
    Tax.ProductIsProduct(0, t);
  }

  /** What a document of an invoice adds up to, given the amount before tax. */
  predicate Documents(c: Cycle, amount: int, total: int) {
    if AddsTax(c) then Near(c.taxRate.value, amount, total, 1) else total == amount
  }

  /** The rounding of an added tax is off by at most half a cent, in either direction. */
  lemma ComputedTaxDocuments(c: Cycle, amount: nat)
    ensures Documents(c, amount, Tax.ComputeTax(amount, c.taxRate, c.taxMode).total)
  {
    if AddsTax(c) {
      Tax.RoundingBounds(Tax.Product(amount, c.taxRate.value), 10_000);
    }
  }

  lemma NoteDocuments(s: State, k: nat)
    requires NotesOk(s) && k < |s.notes|
    ensures s.notes[k].cycle < |s.cycles|
    ensures Documents(s.cycles[s.notes[k].cycle], NoteAmount(s.lines, |s.rows|, k), 0 - s.notes[k].amounts.total)
  {
    assert NoteOk(s, k);
    TotalNonNegative(LinePriceColumn(s.lines, |s.rows|, k));
    ComputedTaxDocuments(s.cycles[s.notes[k].cycle], NoteAmount(s.lines, |s.rows|, k));
  }

  lemma InvoiceDocuments(s: State, c: nat)
    requires CyclesOk(s) && c < |s.cycles| && !s.cycles[c].status.Cancelled?
    ensures var cycle := s.cycles[c];
            Documents(cycle, StampedAmount(s.rows, c) + VariablesAmount(cycle.variables), cycle.amounts.total)
  {
    assert CycleOk(s, c);
    TotalNonNegative(PriceColumn(s.rows, c));
    TotalNonNegative(ConvertedColumn(s.cycles[c].variables));
    ComputedTaxDocuments(s.cycles[c], StampedAmount(s.rows, c) + VariablesAmount(s.cycles[c].variables));
  }

  lemma AppendedNote(notes: seq<CreditNote>, c: nat, k: nat)
    requires k < |notes|
    ensures CreditedTotal(notes[..k + 1], c) ==
      CreditedTotal(notes[..k], c) + if notes[k].cycle == c then notes[k].amounts.total else 0
    ensures NoteCount(notes[..k + 1], c) == NoteCount(notes[..k], c) + if notes[k].cycle == c then 1 else 0
  {
    assert notes[..k + 1][..k] == notes[..k];
    var x := if notes[k].cycle == c then notes[k].amounts.total else 0;
    assert NoteTotalColumn(notes[..k + 1], c) == NoteTotalColumn(notes[..k], c) + [x];
    TotalAppend(NoteTotalColumn(notes[..k], c), x);
  }

  /** Where the total is the base, the notes give back exactly what they credit. */
  lemma {:induction false} NotesGiveBackExactly(s: State, c: nat, n: nat)
    requires LinesOk(s) && NotesOk(s) && c < |s.cycles| && !AddsTax(s.cycles[c]) && n <= |s.notes|
    ensures CreditedTotal(s.notes[..n], c) == 0 - CreditedUpTo(s, c, n)
  {
    if n == 0 {
      TotalZero(CreditedColumn(s, c, 0));
    } else {
      NotesGiveBackExactly(s, c, n - 1);
      AppendedNote(s.notes, c, n - 1);
      if s.notes[n - 1].cycle == c {
        NoteAddsItsLines(s, c, n - 1);
        NoteDocuments(s, n - 1);
      } else {
        NoteAddsNothingElsewhere(s, c, n - 1);
      }
    }
  }

  /** One more note adds at most half a cent of rounding. */
  lemma NoteKeepsNear(s: State, c: nat, n: nat)
    requires LinesOk(s) && NotesOk(s) && c < |s.cycles| && AddsTax(s.cycles[c]) && n < |s.notes|
    requires Near(s.cycles[c].taxRate.value, CreditedUpTo(s, c, n), 0 - CreditedTotal(s.notes[..n], c),
          NoteCount(s.notes[..n], c))
    ensures Near(s.cycles[c].taxRate.value, CreditedUpTo(s, c, n + 1), 0 - CreditedTotal(s.notes[..n + 1], c),
          NoteCount(s.notes[..n + 1], c))
  {
    AppendedNote(s.notes, c, n);
    if s.notes[n].cycle != c {
      NoteAddsNothingElsewhere(s, c, n);
    } else {
      NoteAddsItsLines(s, c, n);
      NoteDocuments(s, n);
      NearSum(s.cycles[c].taxRate.value,
              CreditedUpTo(s, c, n), 0 - CreditedTotal(s.notes[..n], c), NoteCount(s.notes[..n], c),
              NoteAmount(s.lines, |s.rows|, n), 0 - s.notes[n].amounts.total, 1,
              CreditedUpTo(s, c, n + 1), 0 - CreditedTotal(s.notes[..n + 1], c), NoteCount(s.notes[..n + 1], c));
    }
  }

  /** Where tax is added, each note contributes at most half a cent of rounding. */
  lemma {:induction false} NotesGiveBackNearly(s: State, c: nat, n: nat)
    requires LinesOk(s) && NotesOk(s) && c < |s.cycles| && AddsTax(s.cycles[c]) && n <= |s.notes|
    ensures Near(s.cycles[c].taxRate.value, CreditedUpTo(s, c, n), 0 - CreditedTotal(s.notes[..n], c),
          NoteCount(s.notes[..n], c))
  {
    if n == 0 {
      TotalZero(CreditedColumn(s, c, 0));
      NearNothing(s.cycles[c].taxRate.value);
    } else {
      NotesGiveBackNearly(s, c, n - 1);
      NoteKeepsNear(s, c, n - 1);
    }
  }

  /** What the tables say the balance is, where the total is the base. */
  lemma ExactBalance(s: State, c: nat)
    requires LinesOk(s) && NotesOk(s) && CyclesOk(s)
    requires c < |s.cycles| && !s.cycles[c].status.Cancelled? && !AddsTax(s.cycles[c])
    ensures BalanceOf(s, c) == Outstanding(s, c)
  {
    assert s.notes[..|s.notes|] == s.notes;
    NotesGiveBackExactly(s, c, |s.notes|);
    StampedSplits(s, c);
    InvoiceDocuments(s, c);
  }

  lemma NotesAreNear(s: State, c: nat)
    requires LinesOk(s) && NotesOk(s) && c < |s.cycles| && AddsTax(s.cycles[c])
    ensures Near(s.cycles[c].taxRate.value, CreditedUpTo(s, c, |s.notes|),
                 0 - CreditedTotal(s.notes, c), NoteCount(s.notes, c))
  {
    NotesGiveBackNearly(s, c, |s.notes|);
    assert s.notes[..|s.notes|] == s.notes;
  }

  lemma InvoiceIsNear(s: State, c: nat)
    requires CyclesOk(s) && c < |s.cycles| && !s.cycles[c].status.Cancelled? && AddsTax(s.cycles[c])
    ensures Near(s.cycles[c].taxRate.value,
                 StampedAmount(s.rows, c) + VariablesAmount(s.cycles[c].variables), s.cycles[c].amounts.total, 1)
  {
    InvoiceDocuments(s, c);
  }

  /** And where tax is added. */
  lemma NearBalance(s: State, c: nat)
    requires LinesOk(s) && NotesOk(s) && CyclesOk(s)
    requires c < |s.cycles| && !s.cycles[c].status.Cancelled? && AddsTax(s.cycles[c])
    ensures Near(s.cycles[c].taxRate.value, Outstanding(s, c), BalanceOf(s, c), NoteCount(s.notes, c) + 1)
  {
    NotesAreNear(s, c);
    InvoiceIsNear(s, c);
    StampedSplits(s, c);
    NearDifference(s.cycles[c].taxRate.value,
                   StampedAmount(s.rows, c) + VariablesAmount(s.cycles[c].variables), s.cycles[c].amounts.total, 1,
                   CreditedUpTo(s, c, |s.notes|), 0 - CreditedTotal(s.notes, c), NoteCount(s.notes, c),
                   Outstanding(s, c), BalanceOf(s, c), NoteCount(s.notes, c) + 1);
  }

  /**
   * Without tax, or with the tax included, the balance is exactly what is stamped, uncredited and billed as variables;
   * it is never negative.
   */
  lemma BalanceIsOutstanding(ops: seq<Op>, c: nat)
    requires c < |After(ops).cycles| && !After(ops).cycles[c].status.Cancelled? && !AddsTax(After(ops).cycles[c])
    ensures BalanceOf(After(ops), c) == Outstanding(After(ops), c) >= 0
  {
    ReachableInv(ops);
    ExactBalance(After(ops), c);
    OutstandingIsNotNegative(After(ops), c);
  }

  /**
   * With tax added, the balance differs from (1 + rate) times the outstanding amount by at most half a cent for the
   * invoice and half a cent for each of its credit notes.
   */
  lemma BalanceIsNearOutstanding(ops: seq<Op>, c: nat)
    requires c < |After(ops).cycles| && !After(ops).cycles[c].status.Cancelled? && AddsTax(After(ops).cycles[c])
    ensures var s := After(ops);
            Near(s.cycles[c].taxRate.value, Outstanding(s, c), BalanceOf(s, c), NoteCount(s.notes, c) + 1)
  {
    ReachableInv(ops);
    NearBalance(After(ops), c);
  }
}
