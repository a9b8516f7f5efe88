/** What every reachable state of the ledger keeps, and the proof that each operation keeps it. */
module Invariants {
  import opened Outcomes
  import opened Totals
  import opened Ledger
  import Calendar
  import Tax

  // ---------------------------------------------------------------- quota

  /** The hours a row holds against the counter of its kind: live, and not a mirror of a credited row. */
  function Weight(r: Row, kind: Kind): int {
    if r.kind == kind && !r.deleted && r.rebilledFrom.None? then r.hours else 0
  }

  function KindColumn(rows: seq<Row>, kind: Kind): (xs: seq<int>)
    ensures |xs| == |rows|
    ensures forall i :: 0 <= i < |xs| ==> xs[i] == Weight(rows[i], kind)
  {
    seq(|rows|, i requires 0 <= i < |rows| => Weight(rows[i], kind))
  }

  function LiveHours(rows: seq<Row>, kind: Kind): int {
    Total(KindColumn(rows, kind))
  }

  predicate QuotaOk(client: Client, rows: seq<Row>) {
    && client.contracted == LiveHours(rows, Purchase)
    && client.used == LiveHours(rows, Usage)
    && client.loaned == LiveHours(rows, Loan)
  }

  // ---------------------------------------------------------------- rows

  predicate RefundOk(rows: seq<Row>, j: nat)
    requires j < |rows| && rows[j].reverses.Some?
  {
    var i := rows[j].reverses.value;
    i < j && !rows[j].deleted && rows[i].deleted && Billable(rows[i].kind) && rows[i].rebilledFrom.None?
  }

  predicate SameCharge(a: Row, b: Row) {
    a.kind == b.kind && a.hours == b.hours && a.task == b.task && a.price == b.price && a.rate == b.rate
    && a.workedOn == b.workedOn
  }

  predicate MirrorOk(s: State, i: nat)
    requires i < |s.rows| && s.rows[i].rebilledFrom.Some?
  {
    var j := s.rows[i].rebilledFrom.value;
    j < i && j in s.lines && s.rows[i].key.None? && SameCharge(s.rows[i], s.rows[j])
  }

  /** An invoice of chosen months covers the months of the rows it stamped. */
  predicate WithinCycle(c: Cycle, r: Row)
    requires r.workedOn.Some?
  {
    c.kind.Accumulated? ==>
      Calendar.LocalMonth(c.start) <= Calendar.MonthOf(r.workedOn.value) <= Calendar.LocalMonth(c.end)
  }

  predicate StampOk(cycles: seq<Cycle>, r: Row) {
    r.billed.Some? ==>
      && Billable(r.kind) && r.price.Some? && r.workedOn.Some?
      && r.billed.value < |cycles| && !cycles[r.billed.value].status.Cancelled?
      && WithinCycle(cycles[r.billed.value], r)
  }

  predicate RowOk(s: State, i: nat)
    requires i < |s.rows|
  {
    var r := s.rows[i];
    && (Billable(r.kind) ==> r.workedOn.Some?)
    && (r.kind.Refund? <==> r.reverses.Some?)
    && (r.reverses.Some? ==> RefundOk(s.rows, i))
    && (r.rebilledFrom.Some? ==> MirrorOk(s, i))
    && StampOk(s.cycles, r)
  }

  predicate RowsOk(s: State) {
    forall i {:trigger RowOk(s, i)} :: 0 <= i < |s.rows| ==> RowOk(s, i)
  }

  predicate LinksDiffer(a: Row, b: Row) {
    && (a.key.Some? ==> a.key != b.key)
    && (a.reverses.Some? ==> a.reverses != b.reverses)
    && (a.rebilledFrom.Some? ==> a.rebilledFrom != b.rebilledFrom)
  }

  /** At most one row per key, one refund per charge, one mirror per credited row. */
  predicate LinksUnique(rows: seq<Row>) {
    forall i, j {:trigger LinksDiffer(rows[i], rows[j])} :: 0 <= i < j < |rows| ==> LinksDiffer(rows[i], rows[j])
  }

  // ---------------------------------------------------------------- credit notes

  predicate LineOk(s: State, i: nat)
    requires i in s.lines
  {
    && i < |s.rows| && s.lines[i].note < |s.notes| && s.rows[i].price.Some?
    && s.rows[i].billed == Some(s.notes[s.lines[i].note].cycle)
    && s.lines[i] == LineOf(s.rows[i], s.lines[i].note)
  }

  predicate LinesOk(s: State) {
    forall i {:trigger LineOk(s, i)} :: i in s.lines ==> LineOk(s, i)
  }

  function LinePriceColumn(lines: map<nat, CreditLine>, n: nat, note: nat): (xs: seq<int>)
    ensures |xs| == n
    ensures forall i :: 0 <= i < n ==> xs[i] == if i in lines && lines[i].note == note then lines[i].price else 0
  {
    seq(n, i requires 0 <= i < n => if i in lines && lines[i].note == note then lines[i].price else 0)
  }

  function LineHoursColumn(lines: map<nat, CreditLine>, n: nat, note: nat): (xs: seq<int>)
    ensures |xs| == n
    ensures forall i :: 0 <= i < n ==> xs[i] == if i in lines && lines[i].note == note then lines[i].hours else 0
  {
    seq(n, i requires 0 <= i < n => if i in lines && lines[i].note == note then lines[i].hours else 0)
  }

  /** The credited subtotal of a note: the sum of its frozen lines. */
  function NoteAmount(lines: map<nat, CreditLine>, n: nat, note: nat): int {
    Total(LinePriceColumn(lines, n, note))
  }

  function NoteHours(lines: map<nat, CreditLine>, n: nat, note: nat): int {
    Total(LineHoursColumn(lines, n, note))
  }

  /** A note credits its lines with the tax of its invoice, and only invoices that left draft carry notes. */
  predicate NoteOk(s: State, k: nat)
    requires k < |s.notes|
  {
    var note := s.notes[k];
    && note.cycle < |s.cycles|
    && AcceptsCredit(s.cycles[note.cycle].status)
    && note.amounts == Tax.Negate(Tax.ComputeTax(NoteAmount(s.lines, |s.rows|, k), s.cycles[note.cycle].taxRate,
          s.cycles[note.cycle].taxMode))
    && note.hours == 0 - NoteHours(s.lines, |s.rows|, k)
  }

  predicate NotesOk(s: State) {
    forall k {:trigger NoteOk(s, k)} :: 0 <= k < |s.notes| ==> NoteOk(s, k)
  }

  // ---------------------------------------------------------------- cycles

  /** The dates tell the status apart: sent while it ever left draft, paid exactly in the paid status. */
  predicate DatesOk(c: Cycle) {
    && (c.paidAt.Some? <==> c.status.Paid?)
    && (c.status.Draft? ==> c.sentAt.None?)
    && (AcceptsCredit(c.status) ==> c.sentAt.Some?)
  }

  predicate TotalsOk(c: Cycle, rows: seq<Row>, id: nat) {
    !c.status.Cancelled? ==>
      && c.hours == StampedHours(rows, id)
      && c.amounts == Tax.ComputeTax(StampedAmount(rows, id) + VariablesAmount(c.variables), c.taxRate, c.taxMode)
  }

  predicate CycleOk(s: State, c: nat)
    requires c < |s.cycles|
  {
    DatesOk(s.cycles[c]) && TotalsOk(s.cycles[c], s.rows, c)
  }

  predicate CyclesOk(s: State) {
    forall c {:trigger CycleOk(s, c)} :: 0 <= c < |s.cycles| ==> CycleOk(s, c)
  }

  // ---------------------------------------------------------------- variables

  function OfPeriod(lines: seq<VariableLine>, m: Calendar.Month): seq<VariableLine> {
    if lines == [] then []
    else OfPeriod(lines[..|lines| - 1], m)
         + if lines[|lines| - 1].period == m then [lines[|lines| - 1]] else []
  }

  predicate SealedBy(statements: map<Calendar.Month, Statement>, m: Calendar.Month, c: nat) {
    m in statements && statements[m].billed == Some(c)
  }

  /** What a cycle billed for a month is what the statement it sealed says, and nothing if it sealed none. */
  predicate MonthBilled(s: State, c: nat, m: Calendar.Month)
    requires c < |s.cycles|
  {
    OfPeriod(s.cycles[c].variables, m) ==
      if SealedBy(s.statements, m, c) then ItemLines(m, s.statements[m].items, s.cycles[c].exchangeRate) else []
  }

  predicate SealOk(cycles: seq<Cycle>, statement: Statement) {
    statement.billed.Some? ==> statement.billed.value < |cycles| && !cycles[statement.billed.value].status.Cancelled?
  }

  ghost predicate VariablesOk(s: State) {
    && (forall m {:trigger SealOk(s.cycles, s.statements[m])} :: m in s.statements ==>
          SealOk(s.cycles, s.statements[m]))
    && (forall c, m {:trigger MonthBilled(s, c, m)} :: 0 <= c < |s.cycles| && !s.cycles[c].status.Cancelled? ==>
          MonthBilled(s, c, m))
  }

  /** The invariant of the ledger. */
  ghost predicate Inv(s: State) {
    && QuotaOk(s.client, s.rows)
    && RowsOk(s)
    && LinksUnique(s.rows)
    && LinesOk(s)
    && NotesOk(s)
    && CyclesOk(s)
    && VariablesOk(s)
  }

  // ---------------------------------------------------------------- what a change of rows keeps

  /** Rows that keep what they hold of a cycle, followed by rows that hold nothing of it, keep its aggregates. */
  lemma StampedKept(before: seq<Row>, after: seq<Row>, c: nat)
    requires |before| <= |after|
    requires forall i :: 0 <= i < |before| ==>
      PriceIn(after[i], c) == PriceIn(before[i], c) && HoursIn(after[i], c) == HoursIn(before[i], c)
    requires forall i :: |before| <= i < |after| ==> after[i].billed != Some(c)
    ensures StampedAmount(after, c) == StampedAmount(before, c)
    ensures StampedHours(after, c) == StampedHours(before, c)
  {
    TotalPadded(PriceColumn(before, c), PriceColumn(after, c));
    TotalPadded(HoursColumn(before, c), HoursColumn(after, c));
  }

  /** Everything billed about a row is as it was. */
  predicate SameBilling(a: Row, b: Row) {
    a.billed == b.billed && (a.billed.Some? ==> SameCharge(a, b))
  }

  /** The rows grow by unbilled ones, and keep what was billed. */
  predicate BillingKept(before: seq<Row>, after: seq<Row>) {
    && |before| <= |after|
    && (forall i :: 0 <= i < |before| ==> SameBilling(before[i], after[i]))
    && (forall i :: |before| <= i < |after| ==> after[i].billed.None?)
  }

  lemma TotalsKept(s: State, after: seq<Row>)
    requires CyclesOk(s) && BillingKept(s.rows, after)
    ensures CyclesOk(s.(rows := after))
  {
    forall c | 0 <= c < |s.cycles|
      ensures CycleOk(s.(rows := after), c)
    {
      assert CycleOk(s, c);
      forall i | 0 <= i < |s.rows|
        ensures PriceIn(after[i], c) == PriceIn(s.rows[i], c) && HoursIn(after[i], c) == HoursIn(s.rows[i], c)
      {
        assert SameBilling(s.rows[i], after[i]);
      }
      StampedKept(s.rows, after, c);
    }
  }

  lemma LinesKept(s: State, t: State)
    requires LinesOk(s) && BillingKept(s.rows, t.rows)
    requires t.lines == s.lines && t.notes == s.notes
    ensures LinesOk(t)
  {
    forall i | i in t.lines
      ensures LineOk(t, i)
    {
      assert LineOk(s, i);
      assert SameBilling(s.rows[i], t.rows[i]);
    }
  }

  /** Rows beyond those credited add nothing to a note. */
  lemma NoteKept(lines: map<nat, CreditLine>, m: nat, n: nat, k: nat)
    requires m <= n && forall i :: i in lines ==> i < m
    ensures NoteAmount(lines, n, k) == NoteAmount(lines, m, k)
    ensures NoteHours(lines, n, k) == NoteHours(lines, m, k)
  {
    TotalPadded(LinePriceColumn(lines, m, k), LinePriceColumn(lines, n, k));
    TotalPadded(LineHoursColumn(lines, m, k), LineHoursColumn(lines, n, k));
  }

  lemma LinesPointAtRows(s: State)
    requires LinesOk(s)
    ensures forall i :: i in s.lines ==> i < |s.rows|
  {
    forall i | i in s.lines
      ensures i < |s.rows|
    {
      assert LineOk(s, i);
    }
  }

  /** The cycles that carry notes keep doing so, with the same tax terms. */
  predicate TermsKept(notes: seq<CreditNote>, before: seq<Cycle>, after: seq<Cycle>) {
    && |before| <= |after|
    && (forall k :: 0 <= k < |notes| && notes[k].cycle < |before| && AcceptsCredit(before[notes[k].cycle].status) ==>
          && AcceptsCredit(after[notes[k].cycle].status)
          && after[notes[k].cycle].taxRate == before[notes[k].cycle].taxRate
          && after[notes[k].cycle].taxMode == before[notes[k].cycle].taxMode)
  }

  lemma NotesKept(s: State, t: State)
    requires LinesOk(s) && NotesOk(s) && TermsKept(s.notes, s.cycles, t.cycles)
    requires t.lines == s.lines && t.notes == s.notes && |s.rows| <= |t.rows|
    ensures NotesOk(t)
  {
    LinesPointAtRows(s);
    forall k | 0 <= k < |t.notes|
      ensures NoteOk(t, k)
    {
      assert NoteOk(s, k);
      NoteKept(s.lines, |s.rows|, |t.rows|, k);
    }
  }

  lemma VariablesKept(s: State, t: State)
    requires VariablesOk(s)
    requires t.statements == s.statements && |t.cycles| == |s.cycles|
    requires forall c :: 0 <= c < |s.cycles| ==>
      && t.cycles[c].variables == s.cycles[c].variables && t.cycles[c].exchangeRate == s.cycles[c].exchangeRate
      && (t.cycles[c].status.Cancelled? <==> s.cycles[c].status.Cancelled?)
    ensures VariablesOk(t)
  {
    forall c, m | 0 <= c < |t.cycles| && !t.cycles[c].status.Cancelled?
      ensures MonthBilled(t, c, m)
    {
      assert MonthBilled(s, c, m);
    }
    forall m | m in t.statements
      ensures SealOk(t.cycles, t.statements[m])
    {
      assert SealOk(s.cycles, s.statements[m]);
    }
  }

  /** An operation on rows alone keeps the invariant once the rows, their links and the counters are right. */
  lemma RowChangeKeepsInv(s: State, t: State)
    requires Inv(s) && BillingKept(s.rows, t.rows)
    requires t == s.(rows := t.rows, client := t.client)
    requires QuotaOk(t.client, t.rows) && RowsOk(t) && LinksUnique(t.rows)
    ensures Inv(t)
  {
    TotalsKept(s, t.rows);
    assert forall c :: 0 <= c < |s.cycles| && CycleOk(s.(rows := t.rows), c) ==> CycleOk(t, c);
    LinesKept(s, t);
    NotesKept(s, t);
    VariablesKept(s, t);
  }

  lemma AppendedHours(rows: seq<Row>, row: Row, kind: Kind)
    ensures LiveHours(rows + [row], kind) == LiveHours(rows, kind) + Weight(row, kind)
  {
    assert KindColumn(rows + [row], kind) == KindColumn(rows, kind) + [Weight(row, kind)];
    TotalAppend(KindColumn(rows, kind), Weight(row, kind));
  }

  lemma ReplacedHours(rows: seq<Row>, i: nat, row: Row, kind: Kind)
    requires i < |rows|
    ensures LiveHours(rows[i := row], kind) == LiveHours(rows, kind) - Weight(rows[i], kind) + Weight(row, kind)
  {
    assert KindColumn(rows[i := row], kind) == KindColumn(rows, kind)[i := Weight(row, kind)];
    TotalUpdate(KindColumn(rows, kind), i, Weight(row, kind));
  }

  // ---------------------------------------------------------------- hours operations

  /** A new row leaves the others well formed. */
  lemma AppendedRows(s: State, t: State, row: Row)
    requires RowsOk(s) && t.rows == s.rows + [row] && t.cycles == s.cycles && t.lines == s.lines
    requires RowOk(t, |s.rows|)
    ensures RowsOk(t)
  {
    forall i | 0 <= i < |s.rows|
      ensures RowOk(t, i)
    {
      assert RowOk(s, i);
      assert t.rows[i] == s.rows[i];
    }
  }

  lemma AppendedLinks(rows: seq<Row>, row: Row)
    requires LinksUnique(rows)
    requires row.key.Some? ==> !HasKey(rows, row.key.value)
    requires row.reverses.Some? ==> !HasReversal(rows, row.reverses.value)
    requires row.rebilledFrom.None?
    ensures LinksUnique(rows + [row])
  {
    var all := rows + [row];
    forall i, j | 0 <= i < j < |all|
      ensures LinksDiffer(all[i], all[j])
    {
      if j < |rows| {
        assert LinksDiffer(rows[i], rows[j]);
      }
    }
  }

  lemma LinksKept(before: seq<Row>, after: seq<Row>)
    requires LinksUnique(before) && |after| == |before|
    requires forall i :: 0 <= i < |before| ==>
      after[i].key == before[i].key && after[i].reverses == before[i].reverses
            && after[i].rebilledFrom == before[i].rebilledFrom
    ensures LinksUnique(after)
  {
    forall i, j | 0 <= i < j < |after|
      ensures LinksDiffer(after[i], after[j])
    {
      assert LinksDiffer(before[i], before[j]);
    }
  }

  /** A tombstone on a row that is no refund leaves the rows well formed and their links unique. */
  lemma TombstonedRows(s: State, t: State, i: nat)
    requires RowsOk(s) && i < |s.rows| && !s.rows[i].kind.Refund?
    requires LinksUnique(s.rows)
    requires t.rows == s.rows[i := s.rows[i].(deleted := true)] && t.cycles == s.cycles && t.lines == s.lines
    ensures RowsOk(t) && LinksUnique(t.rows)
  {
    LinksKept(s.rows, t.rows);
    forall k | 0 <= k < |t.rows|
      ensures RowOk(t, k)
    {
      assert RowOk(s, k);
    }
  }

  lemma AppendKeepsInv(s: State, row: Row)
    requires Inv(s)
    requires !row.deleted && row.billed.None? && row.reverses.None? && row.rebilledFrom.None? && !row.kind.Refund?
    requires Billable(row.kind) ==> row.workedOn.Some?
    requires row.key.Some? ==> !HasKey(s.rows, row.key.value)
    ensures Inv(s.(rows := s.rows + [row], client := Move(s.client, row.kind, row.hours)))
  {
    var t := s.(rows := s.rows + [row], client := Move(s.client, row.kind, row.hours));
    AppendedHours(s.rows, row, Purchase);
    AppendedHours(s.rows, row, Usage);
    AppendedHours(s.rows, row, Loan);
    AppendedRows(s, t, row);
    AppendedLinks(s.rows, row);
    RowChangeKeepsInv(s, t);
  }

  lemma AddHoursKeepsInv(s: State, hours: nat, today: Calendar.Day)
    requires Inv(s)
    ensures Inv(AddHours(s, hours, today))
  {
    AppendKeepsInv(s, Row(Purchase, hours, None, None, None, None, today, false, None, None, None, None));
  }

  lemma ConfirmKeepsInv(s: State, e: Confirm)
    requires Inv(s)
    ensures Inv(ConfirmEntry(s, e))
  {
    var row := ChargeRow(s, e);
    if row.Some? && !HasKey(s.rows, e.key) {
      AppendKeepsInv(s, row.value);
    }
  }

  /** The counters after one row changes. */
  lemma QuotaReplaced(s: State, i: nat, row: Row, client: Client)
    requires QuotaOk(s.client, s.rows) && i < |s.rows|
    requires client.contracted == s.client.contracted - Weight(s.rows[i], Purchase) + Weight(row, Purchase)
    requires client.used == s.client.used - Weight(s.rows[i], Usage) + Weight(row, Usage)
    requires client.loaned == s.client.loaned - Weight(s.rows[i], Loan) + Weight(row, Loan)
    ensures QuotaOk(client, s.rows[i := row])
  {
    ReplacedHours(s.rows, i, row, Purchase);
    ReplacedHours(s.rows, i, row, Usage);
    ReplacedHours(s.rows, i, row, Loan);
  }

  lemma QuotaOfRefund(client: Client, rows: seq<Row>, refund: Row)
    requires QuotaOk(client, rows) && refund.kind.Refund?
    ensures QuotaOk(client, rows + [refund])
  {
    AppendedHours(rows, refund, Purchase);
    AppendedHours(rows, refund, Usage);
    AppendedHours(rows, refund, Loan);
  }

  /** The tombstoned charge on its own, the refund still to come. */
  function Tombstoned(s: State, i: nat): State
    requires i < |s.rows|
  {
    s.(rows := s.rows[i := s.rows[i].(deleted := true)])
  }

  lemma ReversalKeepsInv(s: State, i: nat, today: Calendar.Day, t: State)
    requires Inv(s) && i < |s.rows| && Billable(s.rows[i].kind) && !s.rows[i].deleted && s.rows[i].rebilledFrom.None?
    requires !HasReversal(s.rows, i)
    requires t == s.(rows := Tombstoned(s, i).rows + [RefundRow(s.rows[i], i, today)],
                     client := Move(s.client, s.rows[i].kind, 0 - s.rows[i].hours))
    ensures Inv(t)
  {
    var u := Tombstoned(s, i);
    var refund := RefundRow(s.rows[i], i, today);
    TombstonedRows(s, u, i);
    assert RowOk(t, |s.rows|);
    AppendedRows(u, t, refund);
    AppendedLinks(u.rows, refund);
    QuotaReplaced(s, i, s.rows[i].(deleted := true), t.client);
    QuotaOfRefund(t.client, u.rows, refund);
    RowChangeKeepsInv(s, t);
  }

  lemma RevertKeepsInv(s: State, e: Revert)
    requires Inv(s)
    ensures Inv(RevertEntry(s, e))
  {
    var found := FindCharge(s.rows, e);
    if found.Some? && !HasReversal(s.rows, found.value) {
      ReversalKeepsInv(s, found.value, e.today, RevertEntry(s, e));
    }
  }

  lemma MirrorIsBillable(s: State, i: nat)
    requires RowsOk(s) && LinesOk(s) && i < |s.rows| && s.rows[i].rebilledFrom.Some?
    ensures Billable(s.rows[i].kind) && s.rows[i].price.Some?
  {
    assert RowOk(s, i);
    var j := s.rows[i].rebilledFrom.value;
    assert LineOk(s, j);
    assert RowOk(s, j);
  }

  lemma DeleteKeepsInv(s: State, i: nat)
    requires Inv(s) && DeleteHours(s, i).Ok?
    ensures Inv(DeleteHours(s, i).value)
  {
    var t := DeleteHours(s, i).value;
    if s.rows[i].rebilledFrom.Some? {
      MirrorIsBillable(s, i);
    }
    TombstonedRows(s, t, i);
    QuotaReplaced(s, i, s.rows[i].(deleted := true), t.client);
    RowChangeKeepsInv(s, t);
  }

  lemma EditKeepsInv(s: State, i: nat, hours: Option<nat>, edit: RateEdit)
    requires Inv(s) && EditHours(s, i, hours, edit).Ok?
    ensures Inv(EditHours(s, i, hours, edit).value)
  {
    var t := EditHours(s, i, hours, edit).value;
    forall k | 0 <= k < |t.rows|
      ensures RowOk(t, k)
    {
      assert RowOk(s, k);
      if s.rows[k].rebilledFrom.Some? {
        assert LineOk(s, s.rows[k].rebilledFrom.value);
      }
    }
    LinksKept(s.rows, t.rows);
    QuotaReplaced(s, i, t.rows[i], t.client);
    RowChangeKeepsInv(s, t);
  }

  // ---------------------------------------------------------------- variables operations

  /** A statement that no cycle sealed may change or go. */
  lemma StatementsKeepInv(s: State, period: Calendar.Month, t: State)
    requires Inv(s)
    requires t == s.(statements := t.statements)
    requires period in s.statements ==> s.statements[period].billed.None?
    requires period in t.statements ==> t.statements[period].billed.None?
    requires forall m :: m != period ==> (m in s.statements <==> m in t.statements)
    requires forall m :: m != period && m in s.statements ==> t.statements[m] == s.statements[m]
    ensures Inv(t)
  {
    forall c, m | 0 <= c < |t.cycles| && !t.cycles[c].status.Cancelled?
      ensures MonthBilled(t, c, m)
    {
      assert MonthBilled(s, c, m);
    }
    forall m | m in t.statements
      ensures SealOk(t.cycles, t.statements[m])
    {
      if m != period {
        assert SealOk(s.cycles, s.statements[m]);
      }
    }
    RowChangeKeepsOthers(s, t);
  }

  /** The parts of the invariant that read neither statements nor terms of trade. */
  lemma RowChangeKeepsOthers(s: State, t: State)
    requires Inv(s)
    requires t.rows == s.rows && t.cycles == s.cycles && t.notes == s.notes && t.lines == s.lines
    ensures RowsOk(t) && LinesOk(t) && NotesOk(t) && CyclesOk(t)
  {
    forall i | 0 <= i < |t.rows| ensures RowOk(t, i) { assert RowOk(s, i); }
    forall i | i in t.lines ensures LineOk(t, i) { assert LineOk(s, i); }
    forall k | 0 <= k < |t.notes| ensures NoteOk(t, k) { assert NoteOk(s, k); }
    forall c | 0 <= c < |t.cycles| ensures CycleOk(t, c) { assert CycleOk(s, c); }
  }

  // ---------------------------------------------------------------- cycle operations

  /** Nothing that was billed changes; a cycle in force stays in force, and one with notes keeps accepting them. */
  predicate SameInvoice(a: Cycle, b: Cycle) {
    && a.kind == b.kind && a.start == b.start && a.end == b.end
    && a.hours == b.hours && a.amounts == b.amounts && a.taxRate == b.taxRate && a.taxMode == b.taxMode
    && a.variables == b.variables && a.exchangeRate == b.exchangeRate
    && (a.status.Cancelled? <==> b.status.Cancelled?)
    && (AcceptsCredit(a.status) ==> AcceptsCredit(b.status))
  }

  lemma CycleChangeKeepsInv(s: State, c: nat, cycle: Cycle)
    requires Inv(s) && c < |s.cycles| && SameInvoice(s.cycles[c], cycle) && DatesOk(cycle)
    ensures Inv(s.(cycles := s.cycles[c := cycle]))
  {
    var t := s.(cycles := s.cycles[c := cycle]);
    forall i | 0 <= i < |t.rows| ensures RowOk(t, i) { assert RowOk(s, i); }
    forall i | i in t.lines ensures LineOk(t, i) { assert LineOk(s, i); }
    forall d | 0 <= d < |t.cycles| ensures CycleOk(t, d) { assert CycleOk(s, d); }
    NotesKept(s, t);
    VariablesKept(s, t);
  }

  lemma UpdateKeepsInv(s: State, c: nat, status: Option<Status>, notes: Option<string>, now: Calendar.Instant)
    requires Inv(s) && UpdateCycle(s, c, status, notes, now).Ok?
    ensures Inv(UpdateCycle(s, c, status, notes, now).value)
  {
    var t := UpdateCycle(s, c, status, notes, now).value;
    assert CycleOk(s, c);
    CycleChangeKeepsInv(s, c, t.cycles[c]);
  }

  lemma WriteOffKeepsInv(s: State, c: nat, reason: string)
    requires Inv(s) && WriteOffCycle(s, c, reason).Ok?
    ensures Inv(WriteOffCycle(s, c, reason).value)
  {
    var t := WriteOffCycle(s, c, reason).value;
    assert CycleOk(s, c);
    CycleChangeKeepsInv(s, c, t.cycles[c]);
  }

  /** Quota weighs hours and tombstones; it does not see stamps. */
  lemma QuotaIgnoresStamps(client: Client, before: seq<Row>, after: seq<Row>)
    requires QuotaOk(client, before) && |after| == |before|
    requires forall i :: 0 <= i < |before| ==> after[i] == before[i].(billed := after[i].billed)
    ensures QuotaOk(client, after)
  {
    assert KindColumn(after, Purchase) == KindColumn(before, Purchase);
    assert KindColumn(after, Usage) == KindColumn(before, Usage);
    assert KindColumn(after, Loan) == KindColumn(before, Loan);
  }

  /** A credited row is stamped with the cycle of its note. */
  lemma CreditedIsStamped(s: State, i: nat)
    requires LinesOk(s) && i in s.lines
    ensures i < |s.rows| && s.rows[i].billed.Some? && HasNotes(s.notes, s.rows[i].billed.value)
  {
    assert LineOk(s, i);
  }

  /** A row with a mirror was credited, so it is still charged as it was, on a cycle with notes. */
  lemma MirrorSource(s: State, i: nat)
    requires LinesOk(s) && i < |s.rows| && RowOk(s, i) && s.rows[i].rebilledFrom.Some?
    ensures var j := s.rows[i].rebilledFrom.value;
            && j < i && j in s.lines && s.rows[j].billed.Some? && HasNotes(s.notes, s.rows[j].billed.value)
            && s.rows[i].key.None? && SameCharge(s.rows[i], s.rows[j])
  {
    CreditedIsStamped(s, s.rows[i].rebilledFrom.value);
  }

  lemma ReopenedLines(s: State, c: nat, t: State)
    requires LinesOk(s) && !HasNotes(s.notes, c)
    requires t.rows == Release(s.rows, c) && t.lines == s.lines && t.notes == s.notes
    ensures LinesOk(t)
  {
    forall i | i in t.lines
      ensures LineOk(t, i)
    {
      assert LineOk(s, i);
      CreditedIsStamped(s, i);
    }
  }

  lemma ReopenedRows(s: State, c: nat, t: State)
    requires RowsOk(s) && LinesOk(s) && c < |s.cycles| && !HasNotes(s.notes, c)
    requires t.rows == Release(s.rows, c) && t.lines == s.lines
    requires |t.cycles| == |s.cycles| && forall d :: 0 <= d < |s.cycles| && d != c ==> t.cycles[d] == s.cycles[d]
    ensures RowsOk(t)
  {
    forall i | 0 <= i < |t.rows|
      ensures RowOk(t, i)
    {
      assert RowOk(s, i);
      if s.rows[i].rebilledFrom.Some? {
        MirrorSource(s, i);
      }
    }
  }

  lemma ReopenedTotals(s: State, c: nat, t: State)
    requires CyclesOk(s) && c < |s.cycles| && t.rows == Release(s.rows, c)
    requires |t.cycles| == |s.cycles| && t.cycles[c].status.Cancelled? && DatesOk(t.cycles[c])
    requires forall d :: 0 <= d < |s.cycles| && d != c ==> t.cycles[d] == s.cycles[d]
    ensures CyclesOk(t)
  {
    forall d | 0 <= d < |t.cycles|
      ensures CycleOk(t, d)
    {
      assert CycleOk(s, d);
      if d != c {
        StampedKept(s.rows, t.rows, d);
      }
    }
  }

  lemma ReopenedVariables(s: State, c: nat, t: State)
    requires VariablesOk(s) && c < |s.cycles| && t.statements == Unseal(s.statements, c)
    requires |t.cycles| == |s.cycles| && t.cycles[c].status.Cancelled?
    requires forall d :: 0 <= d < |s.cycles| && d != c ==> t.cycles[d] == s.cycles[d]
    ensures VariablesOk(t)
  {
    forall d, m | 0 <= d < |t.cycles| && !t.cycles[d].status.Cancelled?
      ensures MonthBilled(t, d, m)
    {
      assert MonthBilled(s, d, m);
    }
    forall m | m in t.statements
      ensures SealOk(t.cycles, t.statements[m])
    {
      assert SealOk(s.cycles, s.statements[m]);
    }
  }

  lemma ReopenKeepsInv(s: State, c: nat, reason: string)
    requires Inv(s) && ReopenCycle(s, c, reason).Ok?
    ensures Inv(ReopenCycle(s, c, reason).value)
  {
    var t := ReopenCycle(s, c, reason).value;
    assert CycleOk(s, c);
    QuotaIgnoresStamps(s.client, s.rows, t.rows);
    LinksKept(s.rows, t.rows);
    ReopenedLines(s, c, t);
    ReopenedRows(s, c, t);
    ReopenedTotals(s, c, t);
    ReopenedVariables(s, c, t);
    NotesKept(s, t);
  }

  // ---------------------------------------------------------------- emission

  lemma {:induction false} ItemLinesOfPeriod(period: Calendar.Month, items: seq<Item>, rate: nat, m: Calendar.Month)
    ensures OfPeriod(ItemLines(period, items, rate), m) == if m == period then ItemLines(period, items, rate) else []
  {
    if items != [] {
      var rest := ItemLines(period, items[..|items| - 1], rate);
      ItemLinesOfPeriod(period, items[..|items| - 1], rate, m);
      var last := ItemLines(period, items, rate)[|rest|..];
      assert ItemLines(period, items, rate) == rest + last;
      OfPeriodConcat(rest, last, m);
    }
  }

  lemma {:induction false} OfPeriodConcat(xs: seq<VariableLine>, ys: seq<VariableLine>, m: Calendar.Month)
    ensures OfPeriod(xs + ys, m) == OfPeriod(xs, m) + OfPeriod(ys, m)
  {
    if ys == [] {
      assert xs + ys == xs;
    } else {
      var last := |ys| - 1;
      assert (xs + ys)[..|xs + ys| - 1] == xs + ys[..last];
      OfPeriodConcat(xs, ys[..last], m);
    }
  }

  /** Collecting distinct periods takes each one's lines once. */
  lemma {:induction false} CollectedOfPeriod(
      statements: map<Calendar.Month, Statement>, periods: seq<Calendar.Month>, rate: nat, m: Calendar.Month)
    requires forall i, j :: 0 <= i < j < |periods| ==> periods[i] != periods[j]
    ensures OfPeriod(CollectLines(statements, periods, rate), m) ==
          if m in periods then PeriodLines(statements, m, rate) else []
  {
    if periods != [] {
      var last := |periods| - 1;
      var first := periods[..last];
      assert periods == first + [periods[last]];
      CollectedOfPeriod(statements, first, rate, m);
      PeriodLinesOfPeriod(statements, periods[last], rate, m);
      OfPeriodConcat(CollectLines(statements, first, rate), PeriodLines(statements, periods[last], rate), m);
    }
  }

  lemma PeriodLinesOfPeriod(statements: map<Calendar.Month, Statement>, period: Calendar.Month, rate: nat,
                            m: Calendar.Month)
    ensures OfPeriod(PeriodLines(statements, period, rate), m) ==
      if m == period then PeriodLines(statements, period, rate) else []
  {
    if period in statements {
      ItemLinesOfPeriod(period, statements[period].items, rate, m);
    }
  }

  /** Whether a statement contributes does not depend on the rate. */
  lemma {:induction false} ContributionIgnoresRate(period: Calendar.Month, items: seq<Item>, a: nat, b: nat)
    ensures ItemLines(period, items, a) == [] <==> ItemLines(period, items, b) == []
  {
    if items != [] {
      ContributionIgnoresRate(period, items[..|items| - 1], a, b);
    }
  }

  lemma PeriodsAreDistinct(scope: Scope)
    ensures forall i, j :: 0 <= i < j < |Periods(scope)| ==> Periods(scope)[i] != Periods(scope)[j]
  {
  }

  /** A statement that an earlier cycle sealed is not sealed again. */
  lemma EarlierMonthBilled(s: State, q: CloseRequest, t: State, c: nat, m: Calendar.Month)
    requires VariablesOk(s) && c < |s.cycles| && !s.cycles[c].status.Cancelled?
    requires t.statements == Seal(s.statements, Periods(q.scope), |s.cycles|)
    requires c < |t.cycles| && t.cycles[c] == s.cycles[c]
    ensures MonthBilled(t, c, m)
  {
    assert MonthBilled(s, c, m);
  }

  /** The new cycle bills a month exactly if it seals its statement. */
  lemma NewMonthBilled(s: State, q: CloseRequest, t: State, m: Calendar.Month)
    requires VariablesOk(s) && |t.cycles| == |s.cycles| + 1
    requires t.statements == Seal(s.statements, Periods(q.scope), |s.cycles|)
    requires t.cycles[|s.cycles|].variables == BilledVariables(s, q)
    requires t.cycles[|s.cycles|].exchangeRate == StampedRate(s, q)
    ensures MonthBilled(t, |s.cycles|, m)
  {
    PeriodsAreDistinct(q.scope);
    CollectedOfPeriod(s.statements, Periods(q.scope), RateOf(q), m);
    if m in s.statements {
      ContributionIgnoresRate(m, s.statements[m].items, 0, RateOf(q));
      assert SealOk(s.cycles, s.statements[m]);
    }
  }

  lemma IssuedVariables(s: State, q: CloseRequest, t: State)
    requires VariablesOk(s)
    requires t.statements == Seal(s.statements, Periods(q.scope), |s.cycles|)
    requires |t.cycles| == |s.cycles| + 1 && Grows(s.cycles, t.cycles) && !t.cycles[|s.cycles|].status.Cancelled?
    requires t.cycles[|s.cycles|].variables == BilledVariables(s, q)
    requires t.cycles[|s.cycles|].exchangeRate == StampedRate(s, q)
    ensures VariablesOk(t)
  {
    forall c, m | 0 <= c < |t.cycles| && !t.cycles[c].status.Cancelled?
      ensures MonthBilled(t, c, m)
    {
      if c < |s.cycles| {
        EarlierMonthBilled(s, q, t, c, m);
      } else {
        NewMonthBilled(s, q, t, m);
      }
    }
    forall m | m in t.statements
      ensures SealOk(t.cycles, t.statements[m])
    {
      assert SealOk(s.cycles, s.statements[m]);
    }
  }

  /** The rows an invoice takes are inside the months it covers. */
  lemma TakenWithinCycle(s: State, q: CloseRequest, w: Window, i: nat, cycle: Cycle)
    requires i < |s.rows| && Takes(s, q.scope, Calendar.LocalDay(w.cutoff), s.rows[i])
    requires q.scope.Chosen? ==> w.end == w.cutoff
    requires cycle.kind.Accumulated? <==> q.scope.Chosen?
    requires cycle.start == PeriodStart(s, q.scope, w) && cycle.end == w.end
    ensures WithinCycle(cycle, s.rows[i])
  {
    if q.scope.Chosen? {
      var day := Calendar.LocalDay(w.cutoff);
      var worked := s.rows[i].workedOn.value;
      var oldest := OldestTaken(s, q.scope, day, |s.rows|);
      Calendar.MonthOfIsMonotone(oldest.value, worked);
      Calendar.MonthOfIsMonotone(worked, day);
      var first := Calendar.MonthOf(oldest.value);
      Calendar.MonthsAreConsecutive(first);
      Calendar.PeriodHoldsItsMonth(first, Calendar.PeriodBounds(first).start);
    }
  }

  /** The rows of a new cycle: what it takes gets its number, the rest stays. */
  predicate StampedWith(before: seq<Row>, after: seq<Row>, c: nat) {
    && |after| == |before|
    && (forall i {:trigger after[i]} :: 0 <= i < |before| ==>
          after[i] == before[i] || (before[i].billed.None? && after[i] == before[i].(billed := Some(c))))
  }

  lemma IssuedLines(s: State, t: State)
    requires LinesOk(s) && StampedWith(s.rows, t.rows, |s.cycles|) && t.lines == s.lines && t.notes == s.notes
    ensures LinesOk(t)
  {
    forall i | i in t.lines
      ensures LineOk(t, i)
    {
      assert LineOk(s, i);
      assert t.rows[i] == s.rows[i];
    }
  }

  lemma IssuedRow(s: State, t: State, i: nat)
    requires LinesOk(s) && i < |s.rows| && RowOk(s, i)
    requires StampedWith(s.rows, t.rows, |s.cycles|) && t.lines == s.lines
    requires |t.cycles| == |s.cycles| + 1 && Grows(s.cycles, t.cycles) && !t.cycles[|s.cycles|].status.Cancelled?
    requires t.rows[i] != s.rows[i] ==>
      Billable(s.rows[i].kind) && s.rows[i].price.Some? && s.rows[i].workedOn.Some?
            && WithinCycle(t.cycles[|s.cycles|], s.rows[i])
    ensures RowOk(t, i)
  {
    if s.rows[i].rebilledFrom.Some? {
      MirrorSource(s, i);
    }
  }

  lemma IssuedRows(s: State, q: CloseRequest, w: Window, t: State)
    requires RowsOk(s) && LinesOk(s)
    requires q.scope.Chosen? ==> w.end == w.cutoff
    requires t.rows == Stamp(s, q.scope, Calendar.LocalDay(w.cutoff), |s.cycles|) && t.lines == s.lines
    requires |t.cycles| == |s.cycles| + 1 && Grows(s.cycles, t.cycles)
    requires var cycle := t.cycles[|s.cycles|];
             !cycle.status.Cancelled? && (cycle.kind.Accumulated? <==> q.scope.Chosen?)
             && cycle.start == PeriodStart(s, q.scope, w) && cycle.end == w.end
    ensures RowsOk(t)
  {
    assert StampedWith(s.rows, t.rows, |s.cycles|);
    forall i | 0 <= i < |t.rows|
      ensures RowOk(t, i)
    {
      assert RowOk(s, i);
      if t.rows[i] != s.rows[i] {
        TakenWithinCycle(s, q, w, i, t.cycles[|s.cycles|]);
      }
      IssuedRow(s, t, i);
    }
  }

  lemma TotalledOk(draft: Cycle, rows: seq<Row>, c: nat, client: Client)
    ensures TotalsOk(Totalled(draft, rows, c, client), rows, c)
  {
    Tax.KeptTermsRecompute(StampedAmount(rows, c) + VariablesAmount(draft.variables), client.taxRate, client.taxMode);
  }

  lemma IssuedTotals(s: State, t: State)
    requires CyclesOk(s) && StampedWith(s.rows, t.rows, |s.cycles|)
    requires |t.cycles| == |s.cycles| + 1 && Grows(s.cycles, t.cycles) && CycleOk(t, |s.cycles|)
    ensures CyclesOk(t)
  {
    forall c | 0 <= c < |t.cycles|
      ensures CycleOk(t, c)
    {
      if c < |s.cycles| {
        assert CycleOk(s, c);
        StampedKept(s.rows, t.rows, c);
      }
    }
  }

  /** An emission that goes through is the issue over the window that was checked. */
  lemma ClosedIsIssued(s: State, q: CloseRequest)
    requires CloseCycle(s, q).Ok?
    ensures CheckClose(s, q).Ok? && CloseCycle(s, q).value == Issue(s, q, CheckClose(s, q).value)
    ensures q.scope.Chosen? ==> CheckClose(s, q).value.end == CheckClose(s, q).value.cutoff
  {
  }

  lemma IssueKeepsInv(s: State, q: CloseRequest, w: Window)
    requires Inv(s)
    requires q.scope.Chosen? ==> w.end == w.cutoff
    ensures Inv(Issue(s, q, w))
  {
    var t := Issue(s, q, w);
    assert Grows(s.cycles, t.cycles);
    assert StampedWith(s.rows, t.rows, |s.cycles|);
    TotalledOk(DraftCycle(s, q, w), t.rows, |s.cycles|, s.client);
    QuotaIgnoresStamps(s.client, s.rows, t.rows);
    LinksKept(s.rows, t.rows);
    IssuedLines(s, t);
    IssuedRows(s, q, w, t);
    IssuedTotals(s, t);
    IssuedVariables(s, q, t);
    NotesKept(s, t);
  }

  lemma CloseKeepsInv(s: State, q: CloseRequest)
    requires Inv(s) && CloseCycle(s, q).Ok?
    ensures Inv(CloseCycle(s, q).value)
  {
    ClosedIsIssued(s, q);
    IssueKeepsInv(s, q, CheckClose(s, q).value);
  }

  // ---------------------------------------------------------------- credit notes

  lemma {:induction false} MirrorsWeighNothing(rows: seq<Row>, mirrors: seq<Row>, kind: Kind)
    requires forall k :: 0 <= k < |mirrors| ==> mirrors[k].rebilledFrom.Some?
    ensures LiveHours(rows + mirrors, kind) == LiveHours(rows, kind)
  {
    TotalPadded(KindColumn(rows, kind), KindColumn(rows + mirrors, kind));
  }

  /** A request that can be credited: distinct creditable rows, none credited before. */
  predicate Resolved(s: State, c: nat, originals: seq<nat>) {
    && c < |s.cycles| && AcceptsCredit(s.cycles[c].status)
    && (forall k :: 0 <= k < |originals| ==> Creditable(s, c, originals[k]) && originals[k] !in s.lines)
    && (forall j, k :: 0 <= j < k < |originals| ==> originals[j] != originals[k])
  }

  lemma CreditedLines(s: State, q: CreditRequest, originals: seq<nat>)
    requires Inv(s) && Resolved(s, q.cycle, originals)
    ensures LinesOk(Credited(s, q, originals))
  {
    var t := Credited(s, q, originals);
    forall i | i in t.lines
      ensures LineOk(t, i)
    {
      if i in s.lines {
        assert LineOk(s, i);
      }
    }
  }

  /** Mirrors of credited rows, added to the rows. */
  ghost predicate MirrorsAdded(before: seq<Row>, after: seq<Row>, originals: seq<nat>) {
    && Grows(before, after) && |after| <= |before| + |originals|
    && (forall i {:trigger after[i]} :: |before| <= i < |after| ==>
          && originals[i - |before|] < |before|
          && after[i] == Mirror(before[originals[i - |before|]], originals[i - |before|], after[i].createdOn))
  }

  lemma CreditedMirrors(s: State, q: CreditRequest, originals: seq<nat>)
    requires Resolved(s, q.cycle, originals)
    ensures MirrorsAdded(s.rows, Credited(s, q, originals).rows, originals)
    ensures Grows(s.notes, Credited(s, q, originals).notes)
  {
  }

  lemma CreditedRows(s: State, t: State, originals: seq<nat>)
    requires RowsOk(s) && MirrorsAdded(s.rows, t.rows, originals) && t.cycles == s.cycles
    requires forall i :: i in s.lines ==> i in t.lines
    requires forall k :: 0 <= k < |originals| ==>
      originals[k] in t.lines && originals[k] < |s.rows| && Billable(s.rows[originals[k]].kind)
    ensures RowsOk(t)
  {
    forall i | 0 <= i < |t.rows|
      ensures RowOk(t, i)
    {
      if i < |s.rows| {
        assert RowOk(s, i);
      } else {
        var j := originals[i - |s.rows|];
        assert RowOk(s, j);
      }
    }
  }

  lemma CreditedLinks(s: State, t: State, originals: seq<nat>)
    requires RowsOk(s) && LinksUnique(s.rows) && MirrorsAdded(s.rows, t.rows, originals)
    requires forall k :: 0 <= k < |originals| ==> originals[k] !in s.lines
    requires forall j, k :: 0 <= j < k < |originals| ==> originals[j] != originals[k]
    ensures LinksUnique(t.rows)
  {
    forall i, j | 0 <= i < j < |t.rows|
      ensures LinksDiffer(t.rows[i], t.rows[j])
    {
      if j < |s.rows| {
        assert LinksDiffer(s.rows[i], s.rows[j]);
      } else if i < |s.rows| {
        assert RowOk(s, i);
        assert t.rows[j].rebilledFrom == Some(originals[j - |s.rows|]);
      } else {
        assert t.rows[i].rebilledFrom == Some(originals[i - |s.rows|]);
        assert t.rows[j].rebilledFrom == Some(originals[j - |s.rows|]);
      }
    }
  }

  lemma CreditedNotes(s: State, q: CreditRequest, originals: seq<nat>)
    requires Inv(s) && Resolved(s, q.cycle, originals)
    ensures NotesOk(Credited(s, q, originals))
  {
    var t := Credited(s, q, originals);
    var n := |s.notes|;
    forall i | i in s.lines
      ensures s.lines[i].note < n && i < |s.rows|
    {
      assert LineOk(s, i);
    }
    forall k | 0 <= k < |t.notes|
      ensures NoteOk(t, k)
    {
      if k < n {
        assert NoteOk(s, k);
        NoteUnchanged(s.lines, t.lines, |s.rows|, |t.rows|, k);
      } else {
        assert forall j :: 0 <= j < |originals| ==> originals[j] in originals && Creditable(s, q.cycle, originals[j]);
        NoteFilled(t.lines, s.rows, |t.rows|, n, originals);
      }
    }
  }

  /** A note keeps its subtotal when the lines that are added belong to other notes. */
  lemma NoteUnchanged(before: map<nat, CreditLine>, after: map<nat, CreditLine>, m: nat, n: nat, k: nat)
    requires m <= n && forall i :: i in before ==> i < m && i in after && after[i] == before[i]
    requires forall i :: i in after && i !in before ==> after[i].note != k
    ensures NoteAmount(after, n, k) == NoteAmount(before, m, k)
    ensures NoteHours(after, n, k) == NoteHours(before, m, k)
  {
    TotalPadded(LinePriceColumn(before, m, k), LinePriceColumn(after, n, k));
    TotalPadded(LineHoursColumn(before, m, k), LineHoursColumn(after, n, k));
  }

  /** A note whose lines are the rows credited has their sum as subtotal. */
  lemma NoteFilled(after: map<nat, CreditLine>, rows: seq<Row>, n: nat, k: nat, originals: seq<nat>)
    requires forall j :: 0 <= j < |originals| ==> originals[j] < |rows| && rows[originals[j]].price.Some?
    requires forall j :: 0 <= j < |originals| ==>
      originals[j] < n && originals[j] in after && after[originals[j]] == LineOf(rows[originals[j]], k)
    requires forall i, j :: 0 <= i < j < |originals| ==> originals[i] != originals[j]
    requires forall i :: i in after && i !in originals ==> after[i].note != k
    ensures NoteAmount(after, n, k) == Total(RequestedPrices(rows, originals))
    ensures NoteHours(after, n, k) == Total(RequestedHours(rows, originals))
  {
    TotalScattered(LinePriceColumn(after, n, k), originals, RequestedPrices(rows, originals));
    TotalScattered(LineHoursColumn(after, n, k), originals, RequestedHours(rows, originals));
  }

  lemma CreditedQuota(s: State, t: State, originals: seq<nat>)
    requires QuotaOk(s.client, s.rows) && MirrorsAdded(s.rows, t.rows, originals)
    ensures QuotaOk(s.client, t.rows)
  {
    var mirrors := t.rows[|s.rows|..];
    assert t.rows == s.rows + mirrors;
    MirrorsWeighNothing(s.rows, mirrors, Purchase);
    MirrorsWeighNothing(s.rows, mirrors, Usage);
    MirrorsWeighNothing(s.rows, mirrors, Loan);
  }

  lemma CreditedTotals(s: State, t: State, originals: seq<nat>)
    requires CyclesOk(s) && MirrorsAdded(s.rows, t.rows, originals) && t.cycles == s.cycles
    ensures CyclesOk(t)
  {
    TotalsKept(s, t.rows);
    forall c | 0 <= c < |t.cycles|
      ensures CycleOk(t, c)
    {
      assert CycleOk(s.(rows := t.rows), c);
    }
  }

  /** A credit note that goes through is the write over the lines that were resolved. */
  lemma EmittedIsCredited(s: State, q: CreditRequest)
    requires EmitCreditNote(s, q).Ok?
    ensures ResolveLines(s, q.cycle, q.ids).Ok? && Resolved(s, q.cycle, ResolveLines(s, q.cycle, q.ids).value)
    ensures EmitCreditNote(s, q).value == Credited(s, q, ResolveLines(s, q.cycle, q.ids).value)
  {
  }

  lemma CreditedKeepsInv(s: State, q: CreditRequest, originals: seq<nat>)
    requires Inv(s) && Resolved(s, q.cycle, originals)
    ensures Inv(Credited(s, q, originals))
  {
    var t := Credited(s, q, originals);
    CreditedMirrors(s, q, originals);
    CreditedQuota(s, t, originals);
    CreditedLines(s, q, originals);
    CreditedRows(s, t, originals);
    CreditedLinks(s, t, originals);
    CreditedNotes(s, q, originals);
    CreditedTotals(s, t, originals);
    VariablesKept(s, t);
  }

  lemma CreditKeepsInv(s: State, q: CreditRequest)
    requires Inv(s) && EmitCreditNote(s, q).Ok?
    ensures Inv(EmitCreditNote(s, q).value)
  {
    EmittedIsCredited(s, q);
    CreditedKeepsInv(s, q, ResolveLines(s, q.cycle, q.ids).value);
  }

  // ---------------------------------------------------------------- runs

  /** Tasks and terms of trade are not part of what the invariant reads. */
  lemma SettingsKeepInv(s: State, t: State)
    requires Inv(s)
    requires t == s.(tasks := t.tasks, client := t.client)
    requires t.client.contracted == s.client.contracted && t.client.used == s.client.used
    requires t.client.loaned == s.client.loaned
    ensures Inv(t)
  {
    RowChangeKeepsOthers(s, t);
    VariablesKept(s, t);
  }

  lemma UpsertKeepsInv(s: State, period: Calendar.Month, items: seq<Item>)
    requires Inv(s) && UpsertVariables(s, period, items).Ok?
    ensures Inv(UpsertVariables(s, period, items).value)
  {
    StatementsKeepInv(s, period, UpsertVariables(s, period, items).value);
  }

  lemma RemoveKeepsInv(s: State, period: Calendar.Month)
    requires Inv(s) && RemoveVariables(s, period).Ok?
    ensures Inv(RemoveVariables(s, period).value)
  {
    StatementsKeepInv(s, period, RemoveVariables(s, period).value);
  }

  lemma ApplyKeepsInv(s: State, op: Op)
    requires Inv(s)
    ensures Inv(Apply(s, op))
  {
    if Step(s, op).Ok? {
      match op {
        case SetTask(_, _) => SettingsKeepInv(s, Step(s, op).value);
        case SetTerms(_, _, _) => SettingsKeepInv(s, Step(s, op).value);
        case OpAddHours(hours, today) => AddHoursKeepsInv(s, hours, today);
        case OpConfirm(e) => ConfirmKeepsInv(s, e);
        case OpRevert(e) => RevertKeepsInv(s, e);
        case OpDelete(i) => DeleteKeepsInv(s, i);
        case OpEdit(i, hours, edit) => EditKeepsInv(s, i, hours, edit);
        case OpUpsert(period, items) => UpsertKeepsInv(s, period, items);
        case OpRemove(period) => RemoveKeepsInv(s, period);
        case OpClose(q) => CloseKeepsInv(s, q);
        case OpReopen(c, reason) => ReopenKeepsInv(s, c, reason);
        case OpUpdate(c, status, notes, now) => UpdateKeepsInv(s, c, status, notes, now);
        case OpWriteOff(c, reason) => WriteOffKeepsInv(s, c, reason);
        case OpCredit(q) => CreditKeepsInv(s, q);
      }
    }
  }

  lemma {:induction false} ReplayKeepsInv(s: State, ops: seq<Op>)
    requires Inv(s)
    ensures Inv(Replay(s, ops))
  {
    if ops != [] {
      ReplayKeepsInv(s, ops[..|ops| - 1]);
      ApplyKeepsInv(Replay(s, ops[..|ops| - 1]), ops[|ops| - 1]);
    }
  }

  /** Every state a run can reach satisfies the invariant. */
  lemma ReachableInv(ops: seq<Op>)
    ensures Inv(After(ops))
  {
    ReplayKeepsInv(Empty(), ops);
  }
}
