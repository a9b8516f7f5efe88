/** The tables of one client as the services hold them, updated in place. */
module Store {
  import opened Outcomes
  import opened Totals
  import opened Ledger
  import opened Reports
  import opened Variables
  import Calendar
  import Invariants
  import Tax

  /** A transaction commits what the ledger says, or reports its error and leaves the tables alone. */
  predicate Settles(before: State, after: State, expected: Result<State, Error>, error: Option<Error>) {
    match expected
    case Ok(s) => after == s && error.None?
    case Err(e) => after == before && error == Some(e)
  }

  class Tables {
    var client: Client
    var tasks: map<nat, Task>
    var rows: seq<Row>
    var cycles: seq<Cycle>
    var notes: seq<CreditNote>
    var lines: map<nat, CreditLine>
    var statements: map<Calendar.Month, Statement>

    function View(): State
      reads this`client, this`tasks, this`rows, this`cycles, this`notes, this`lines, this`statements
    {
      State(client, tasks, rows, cycles, notes, lines, statements)
    }

    constructor ()
      ensures View() == Empty()
    {
      client := Client(0, 0, 0, None, None, None);
      tasks, rows, cycles, notes, lines, statements := map[], [], [], [], map[], map[];
    }

    method SetTask(id: nat, task: Task)
      modifies this`tasks
      ensures View() == old(View()).(tasks := old(tasks)[id := task])
    {
      tasks := tasks[id := task];
    }

    method SetTerms(supportRate: Option<nat>, taxRate: Option<int>, taxMode: Option<string>)
      modifies this`client
      ensures View() ==
        old(View()).(client := old(client).(supportRate := supportRate, taxRate := taxRate, taxMode := taxMode))
    {
      client := client.(supportRate := supportRate, taxRate := taxRate, taxMode := taxMode);
    }

    method AddHours(hours: nat, today: Calendar.Day)
      modifies this`rows, this`client
      ensures View() == Ledger.AddHours(old(View()), hours, today)
    {
      rows := rows + [Row(Purchase, hours, None, None, None, None, today, false, None, None, None, None)];
      client := client.(contracted := client.contracted + hours);
    }

    /** Inserts under the unique key of the time entry; a second delivery is bounced by it. */
    method ConfirmEntry(e: Confirm)
      modifies this`rows, this`client
      ensures View() == Ledger.ConfirmEntry(old(View()), e)
    {
      if e.legacy || e.seconds <= 0 || e.task !in tasks {
        return;
      }
      var task := tasks[e.task];
      if task.kind.Project? {
        return;
      }
      var hours := HoursOf(e.seconds);
      var workedOn := if e.workedOn.Some? then e.workedOn else Some(e.today);
      if HasKey(rows, e.key) {
        return;
      }
      if !task.billable {
        rows := rows +
          [Row(Internal, hours, Some(e.task), None, None, workedOn, e.today, false, None, Some(e.key), None, None)];
        return;
      }
      var rate := ResolvedRate(View(), task);
      var price := if rate.Some? then Some(PriceOf(hours, rate.value)) else None;
      if client.contracted - client.used <= 0 {
        rows := rows +
          [Row(Loan, hours, Some(e.task), price, rate, workedOn, e.today, false, None, Some(e.key), None, None)];
        client := client.(loaned := client.loaned + hours);
      } else {
        rows := rows +
          [Row(Usage, hours, Some(e.task), price, rate, workedOn, e.today, false, None, Some(e.key), None, None)];
        client := client.(used := client.used + hours);
      }
    }

    /** Refund, tombstone and counter in one transaction. */
    method RevertEntry(e: Revert)
      modifies this`rows, this`client
      ensures View() == Ledger.RevertEntry(old(View()), e)
    {
      var found := FindCharge(rows, e);
      if found.None? {
        return;
      }
      if HasReversal(rows, found.value) {
        return;
      }
      var i := found.value;
      var charge := rows[i];
      rows := rows + [RefundRow(charge, i, e.today)];
      rows := rows[i := charge.(deleted := true)];
      if charge.kind.Loan? {
        client := client.(loaned := client.loaned - charge.hours);
      } else {
        client := client.(used := client.used - charge.hours);
      }
      assert rows == old(rows)[i := charge.(deleted := true)] + [RefundRow(charge, i, e.today)];
    }

    method DeleteHours(i: nat) returns (error: Option<Error>)
      modifies this`rows, this`client
      ensures Settles(old(View()), View(), Ledger.DeleteHours(old(View()), i), error)
    {
      if i >= |rows| || rows[i].deleted {
        return Some(TransactionNotFound);
      }
      var row := rows[i];
      if row.billed.Some? {
        return Some(TransactionBilled);
      }
      if row.rebilledFrom.Some? {
        rows := rows[i := row.(deleted := true)];
        return None;
      }
      if row.kind.Refund? {
        if row.reverses.Some? {
          return Some(RefundNotDeletable);
        }
        return Some(RefundOrphanNotDeletable);
      }
      rows := rows[i := row.(deleted := true)];
      match row.kind {
        case Purchase => client := client.(contracted := client.contracted - row.hours);
        case Usage => client := client.(used := client.used - row.hours);
        case Loan => client := client.(loaned := client.loaned - row.hours);
        case Internal =>
      }
      error := None;
    }

    method EditHours(i: nat, hours: Option<nat>, edit: RateEdit) returns (error: Option<Error>)
      modifies this`rows, this`client
      ensures Settles(old(View()), View(), Ledger.EditHours(old(View()), i, hours, edit), error)
    {
      if i >= |rows| || rows[i].deleted {
        return Some(TransactionNotFound);
      }
      var row := rows[i];
      if row.billed.Some? {
        return Some(TransactionBilled);
      }
      if row.rebilledFrom.Some? {
        return Some(MirrorRowReadonly);
      }
      if !Billable(row.kind) {
        return Some(TransactionNotEditable);
      }
      if hours.None? && edit.Keep? {
        return Some(NothingToEdit);
      }
      var newHours := if hours.Some? then hours.value else row.hours;
      var newRate := EditedRate(row, edit);
      var newPrice: Option<nat> := None;
      if newRate.Some? && newRate.value.num > 0 {
        newPrice := Some(PriceAt(newHours, newRate.value));
      }
      var kept := row.rate;
      if edit.Set? {
        kept := if newRate.Some? then Some(Stored(newRate.value)) else None;
      }
      rows := rows[i := row.(hours := newHours, rate := kept, price := newPrice)];
      var delta := newHours - row.hours;
      if delta != 0 {
        if row.kind.Usage? {
          client := client.(used := client.used + delta);
        } else {
          client := client.(loaned := client.loaned + delta);
        }
      }
      error := None;
    }

    method UpsertVariables(period: Calendar.Month, items: seq<Item>) returns (error: Option<Error>)
      modifies this`statements
      ensures Settles(old(View()), View(), Ledger.UpsertVariables(old(View()), period, items), error)
    {
      if period in statements && statements[period].billed.Some? {
        return Some(VariablesAlreadyBilled);
      }
      statements := statements[period := Statement(items, None)];
      error := None;
    }

    method RemoveVariables(period: Calendar.Month) returns (error: Option<Error>)
      modifies this`statements
      ensures Settles(old(View()), View(), Ledger.RemoveVariables(old(View()), period), error)
    {
      if period in statements && statements[period].billed.Some? {
        return Some(VariablesAlreadyBilled);
      }
      statements := statements - {period};
      error := None;
    }

    /** The enabled items with a positive value. */
    static method BillableItems(period: Calendar.Month, items: seq<Item>, rate: nat) returns (own: seq<VariableLine>)
      ensures own == ItemLines(period, items, rate) && Itemizes(period, items, rate, own)
    {
      own := [];
      for j := 0 to |items|
        invariant own == ItemLines(period, items[..j], rate)
      {
        assert items[..j + 1][..j] == items[..j];
        var item := items[j];
        if item.enabled && item.commercial > 0 {
          own := own + [VariableLine(period, item.name, item.commercial, Converted(item.commercial, rate))];
        }
      }
      assert items[..|items|] == items;
      ItemLinesItemize(period, items, rate);
    }

    /** The lines of the unsealed statements of the periods, and the periods that contribute one. */
    method CollectCommercial(periods: seq<Calendar.Month>, rate: nat)
      returns (found: seq<VariableLine>, contributing: set<Calendar.Month>)
      ensures found == CollectLines(statements, periods, rate)
      ensures contributing == Contributing(statements, periods, rate)
      ensures forall m :: m in contributing <==> m in periods && OpenMonth(statements, m)
      ensures (forall i, j :: 0 <= i < j < |periods| ==> periods[i] != periods[j]) ==>
        Collected(statements, periods, rate, found)
    {
      found, contributing := [], {};
      for k := 0 to |periods|
        invariant found == CollectLines(statements, periods[..k], rate)
        invariant contributing == Contributing(statements, periods[..k], rate)
      {
        var period := periods[k];
        ContributingGrows(statements, periods, k, rate);
        assert periods[..k + 1][..k] == periods[..k];
        if period in statements && statements[period].billed.None? {
          var own := BillableItems(period, statements[period].items, rate);
          found := found + own;
          if own != [] {
            contributing := contributing + {period};
          }
        }
      }
      assert periods[..|periods|] == periods;
      ContributingIsOpen(statements, periods, rate);
      if forall i, j :: 0 <= i < j < |periods| ==> periods[i] != periods[j] {
        CollectLinesCollect(statements, periods, rate);
      }
    }

    /** Creates the draft, and stamps the rows picked with it. */
    method DraftAndStamp(draft: Cycle, ids: seq<nat>)
      modifies this`rows, this`cycles
      ensures View() ==
        old(View()).(rows := StampIds(old(rows), ids, |old(cycles)|), cycles := old(cycles) + [draft])
    {
      cycles := cycles + [draft];
      rows := StampIds(rows, ids, |cycles| - 1);
    }

    /** Seals the statements that contributed, and writes the totals over what got stamped. */
    method SealAndTotal(c: nat, contributing: set<Calendar.Month>)
      requires c < |cycles|
      modifies this`cycles, this`statements
      ensures View() == old(View()).(statements := SealPeriods(old(statements), contributing, c),
                                     cycles := old(cycles)[c := Totalled(old(cycles)[c], rows, c, client)])
    {
      statements := SealPeriods(statements, contributing, c);
      cycles := cycles[c := Totalled(cycles[c], rows, c, client)];
    }

    /**
     * The transaction of an emission: creates the draft, stamps the rows picked, seals the statements that contributed,
     * and writes the totals over what got stamped. Nothing stamped and nothing to charge rolls back.
     */
    method WriteCycle(q: CloseRequest, w: Window, ids: seq<nat>) returns (nothing: bool)
      requires ids == Places(TakenFlags(View(), q.scope, Calendar.LocalDay(w.cutoff)))
      modifies this`rows, this`cycles, this`statements
      ensures nothing <==> |ids| == 0 && VariablesAmount(BilledVariables(old(View()), q)) <= 0
      ensures View() == if nothing then old(View()) else Issue(old(View()), q, w)
    {
      ghost var s := View();
      var draft := DraftCycle(View(), q, w);
      var variables, contributing := CollectCommercial(Periods(q.scope), RateOf(q));
      var c := |cycles|;
      var savedRows, savedCycles := rows, cycles;
      DraftAndStamp(draft, ids);
      if |ids| == 0 && VariablesAmount(variables) <= 0 {
        rows, cycles := savedRows, savedCycles;
        return true;
      }
      SealAndTotal(c, contributing);
      IssueParts(s, q, w, ids, contributing, draft, View());
      nothing := false;
    }

    /** Reads and checks first; then the transaction. */
    method CloseCycle(q: CloseRequest) returns (error: Option<Error>)
      modifies this`rows, this`cycles, this`statements
      ensures Settles(old(View()), View(), Ledger.CloseCycle(old(View()), q), error)
    {
      var checked := CheckClose(View(), q);
      if checked.Err? {
        return Some(checked.error);
      }
      var day := Calendar.LocalDay(checked.value.cutoff);
      var ids := PickTaken(View(), q.scope, day);
      PickedAny(View(), q.scope, day);
      var nothing := WriteCycle(q, checked.value, ids);
      error := if nothing then Some(NothingToBill) else None;
    }

    method ReopenCycle(c: nat, reason: string) returns (error: Option<Error>)
      modifies this`rows, this`cycles, this`statements
      ensures Settles(old(View()), View(), Ledger.ReopenCycle(old(View()), c, reason), error)
    {
      if c >= |cycles| {
        return Some(CycleNotFound);
      }
      if cycles[c].status.Paid? {
        return Some(CycleAlreadyPaid);
      }
      if !cycles[c].status.Draft? && !cycles[c].status.Sent? {
        return Some(InvalidCycleState);
      }
      if HasNotes(notes, c) {
        return Some(CycleHasCreditNotes);
      }
      rows := Release(rows, c);
      statements := Unseal(statements, c);
      cycles := cycles[c := cycles[c].(status := Cancelled, cancelReason := Some(reason))];
      error := None;
    }

    method UpdateCycle(c: nat, status: Option<Status>, newNotes: Option<string>, now: Calendar.Instant)
      returns (error: Option<Error>)
      modifies this`cycles
      ensures Settles(old(View()), View(), Ledger.UpdateCycle(old(View()), c, status, newNotes, now), error)
    {
      if c >= |cycles| {
        return Some(CycleNotFound);
      }
      var cycle := cycles[c];
      if status.Some? {
        if !ValidTransition(cycle.status, status.value) {
          return Some(InvalidCycleTransition);
        }
        cycle := cycle.(status := status.value);
        if status.value.Sent? {
          cycle := cycle.(sentAt := Some(now));
        }
        if status.value.Paid? {
          cycle := cycle.(paidAt := Some(now));
        }
      }
      if newNotes.Some? {
        cycle := cycle.(notes := newNotes);
      }
      if status.None? && newNotes.None? {
        return Some(NothingToUpdate);
      }
      cycles := cycles[c := cycle];
      error := None;
    }

    method WriteOffCycle(c: nat, reason: string) returns (error: Option<Error>)
      modifies this`cycles
      ensures Settles(old(View()), View(), Ledger.WriteOffCycle(old(View()), c, reason), error)
    {
      if c >= |cycles| {
        return Some(CycleNotFound);
      }
      if !ValidTransition(cycles[c].status, WrittenOff) {
        return Some(InvalidCycleTransition);
      }
      cycles := cycles[c := cycles[c].(status := WrittenOff, notes := Some(WriteOffNotes(cycles[c].notes, reason)))];
      error := None;
    }

    /** Line by line: the frozen line and, if the hours go back, the mirror. */
    method WriteCreditLines(originals: seq<nat>, note: nat, returnHours: bool, today: Calendar.Day)
      requires forall k :: 0 <= k < |originals| ==> originals[k] < |rows| && rows[originals[k]].price.Some?
      modifies this`rows, this`lines
      ensures rows == if returnHours then old(rows) + Mirrors(old(rows), originals, today) else old(rows)
      ensures lines == old(lines) + CreditLines(old(rows), originals, note)
    {
      ghost var before, linesBefore := rows, lines;
      for k := 0 to |originals|
        invariant LinesWritten(before, linesBefore, originals[..k], note, returnHours, today, rows, lines)
      {
        var i := originals[k];
        CreditGrows(before, linesBefore, originals, k, note, returnHours, today, rows, lines);
        lines := lines[i := LineOf(rows[i], note)];
        if returnHours {
          rows := rows + [Mirror(rows[i], i, today)];
        }
      }
      assert originals[..|originals|] == originals;
    }

    /** The transaction of a credit note: the note, and then its lines and mirrors. */
    method WriteCreditNote(q: CreditRequest, originals: seq<nat>)
      requires q.cycle < |cycles| && forall k :: 0 <= k < |originals| ==> Creditable(View(), q.cycle, originals[k])
      modifies this`rows, this`notes, this`lines
      ensures View() == Credited(old(View()), q, originals)
    {
      ghost var s := View();
      var note := NoteFor(View(), q, originals);
      assert forall k :: 0 <= k < |originals| ==> originals[k] < |rows| && rows[originals[k]].price.Some? by {
        assert forall k :: 0 <= k < |originals| ==> Creditable(s, q.cycle, originals[k]);
      }
      notes := notes + [note];
      WriteCreditLines(originals, |notes| - 1, ReturnsHours(q), q.today);
      CreditParts(s, q, originals, View());
    }

    method EmitCreditNote(q: CreditRequest) returns (error: Option<Error>)
      modifies this`rows, this`notes, this`lines
      ensures Settles(old(View()), View(), Ledger.EmitCreditNote(old(View()), q), error)
    {
      if |q.reason| < 3 {
        return Some(CreditNoteReasonRequired);
      }
      var resolved := ResolveLines(View(), q.cycle, q.ids);
      if resolved.Err? {
        return Some(resolved.error);
      }
      WriteCreditNote(q, resolved.value);
      error := None;
    }
  }

  /** The bulk update over a list of ids, of the rows that no cycle has stamped yet. */
  function StampIds(rows: seq<Row>, ids: seq<nat>, c: nat): (r: seq<Row>)
    ensures |r| == |rows|
    ensures forall i: nat :: i < |r| ==>
      r[i] == if i in ids && rows[i].billed.None? then rows[i].(billed := Some(c)) else rows[i]
  {
    seq(|rows|, i requires 0 <= i < |rows| =>
      if i in ids && rows[i].billed.None? then rows[i].(billed := Some(c)) else rows[i])
  }

  /** The three tables as an emission writes them. */
  lemma IssueParts(s: State, q: CloseRequest, w: Window, ids: seq<nat>, contributing: set<Calendar.Month>, draft: Cycle,
                   t: State)
    requires ids == Places(TakenFlags(s, q.scope, Calendar.LocalDay(w.cutoff))) && draft == DraftCycle(s, q, w)
    requires contributing == Contributing(s.statements, Periods(q.scope), RateOf(q))
    requires t == s.(rows := t.rows, cycles := t.cycles, statements := t.statements)
    requires t.rows == StampIds(s.rows, ids, |s.cycles|)
    requires t.cycles == (s.cycles + [draft])[|s.cycles| := Totalled(draft, t.rows, |s.cycles|, s.client)]
    requires t.statements == SealPeriods(s.statements, contributing, |s.cycles|)
    ensures t == Issue(s, q, w)
  {
    StampIdsIsStamp(s, q.scope, Calendar.LocalDay(w.cutoff), |s.cycles|);
    SealPeriodsIsSeal(s.statements, Periods(q.scope), RateOf(q), |s.cycles|);
  }

  lemma StampIdsIsStamp(s: State, scope: Scope, day: Calendar.Day, c: nat)
    ensures StampIds(s.rows, Places(TakenFlags(s, scope, day)), c) == Stamp(s, scope, day, c)
  {
    var a, b := StampIds(s.rows, Places(TakenFlags(s, scope, day)), c), Stamp(s, scope, day, c);
    forall i: nat | i < |s.rows|
      ensures a[i] == b[i]
    {
      assert i in Places(TakenFlags(s, scope, day)) <==> TakenFlags(s, scope, day)[i];
    }
  }

  /** The periods whose statement has a line to bill. */
  function Contributing(statements: map<Calendar.Month, Statement>, periods: seq<Calendar.Month>, rate: nat)
    : set<Calendar.Month>
  {
    set m | m in periods && PeriodLines(statements, m, rate) != []
  }

  lemma ContributingIsOpen(statements: map<Calendar.Month, Statement>, periods: seq<Calendar.Month>, rate: nat)
    ensures forall m :: m in Contributing(statements, periods, rate) <==> m in periods && OpenMonth(statements, m)
  {
    forall m | m in periods
      ensures PeriodLines(statements, m, rate) != [] <==> OpenMonth(statements, m)
    {
      PeriodLinesItemize(statements, m, rate);
    }
  }

  lemma ContributingGrows(statements: map<Calendar.Month, Statement>, periods: seq<Calendar.Month>, k: nat, rate: nat)
    requires k < |periods|
    ensures Contributing(statements, periods[..k + 1], rate) ==
      Contributing(statements, periods[..k], rate)
      + if PeriodLines(statements, periods[k], rate) != [] then {periods[k]} else {}
  {
    assert periods[..k + 1] == periods[..k] + [periods[k]];
  }

  function SealPeriods(statements: map<Calendar.Month, Statement>, contributing: set<Calendar.Month>, c: nat)
    : map<Calendar.Month, Statement>
  {
    map m | m in statements ::
      if m in contributing && statements[m].billed.None? then statements[m].(billed := Some(c)) else statements[m]
  }

  lemma SealPeriodsIsSeal(statements: map<Calendar.Month, Statement>, periods: seq<Calendar.Month>, rate: nat, c: nat)
    ensures SealPeriods(statements, Contributing(statements, periods, rate), c) == Seal(statements, periods, c)
  {
    forall m | m in statements
      ensures PeriodLines(statements, m, rate) == [] <==> PeriodLines(statements, m, 0) == []
    {
      Invariants.ContributionIgnoresRate(m, statements[m].items, rate, 0);
    }
  }

  lemma CreditParts(s: State, q: CreditRequest, originals: seq<nat>, t: State)
    requires q.cycle < |s.cycles| && forall k :: 0 <= k < |originals| ==> Creditable(s, q.cycle, originals[k])
    requires t == s.(notes := t.notes, lines := t.lines, rows := t.rows)
    requires t.notes == s.notes + [NoteFor(s, q, originals)]
    requires t.lines == s.lines + CreditLines(s.rows, originals, |s.notes|)
    requires t.rows == if ReturnsHours(q) then s.rows + Mirrors(s.rows, originals, q.today) else s.rows
    ensures t == Credited(s, q, originals)
  {
  }

  /** The rows and lines after the credit of a list of rows, from what they were before. */
  ghost predicate LinesWritten(before: seq<Row>, linesBefore: map<nat, CreditLine>, ids: seq<nat>, note: nat,
                               returnHours: bool, today: Calendar.Day, rows: seq<Row>, lines: map<nat, CreditLine>) {
    && (forall k :: 0 <= k < |ids| ==> ids[k] < |before| && before[ids[k]].price.Some?)
    && rows == (if returnHours then before + Mirrors(before, ids, today) else before)
    && lines == linesBefore + CreditLines(before, ids, note)
  }

  lemma CreditGrows(before: seq<Row>, linesBefore: map<nat, CreditLine>, ids: seq<nat>, k: nat, note: nat,
                    returnHours: bool, today: Calendar.Day, rows: seq<Row>, lines: map<nat, CreditLine>)
    requires k < |ids| && forall j :: 0 <= j < |ids| ==> ids[j] < |before| && before[ids[j]].price.Some?
    requires LinesWritten(before, linesBefore, ids[..k], note, returnHours, today, rows, lines)
    ensures var i := ids[k];
            && i < |rows| && rows[i] == before[i]
            && LinesWritten(before, linesBefore, ids[..k + 1], note, returnHours, today,
                            if returnHours then rows + [Mirror(rows[i], i, today)] else rows,
                            lines[i := LineOf(rows[i], note)])
  {
    CreditLinesGrow(linesBefore, before, ids, k, note);
    MirrorsGrow(before, ids, k, today);
  }

  lemma CreditLinesGrow(lines: map<nat, CreditLine>, rows: seq<Row>, ids: seq<nat>, k: nat, note: nat)
    requires k < |ids| && forall j :: 0 <= j < |ids| ==> ids[j] < |rows| && rows[ids[j]].price.Some?
    ensures lines + CreditLines(rows, ids[..k + 1], note)
         == (lines + CreditLines(rows, ids[..k], note))[ids[k] := LineOf(rows[ids[k]], note)]
  {
    assert ids[..k + 1] == ids[..k] + [ids[k]];
  }

  lemma MirrorsGrow(rows: seq<Row>, ids: seq<nat>, k: nat, today: Calendar.Day)
    requires k < |ids| && forall j :: 0 <= j < |ids| ==> ids[j] < |rows|
    ensures Mirrors(rows, ids[..k + 1], today) == Mirrors(rows, ids[..k], today) + [Mirror(rows[ids[k]], ids[k], today)]
  {
  }
}
