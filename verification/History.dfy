/** What no later operation can undo: the relation between a state and every state that follows it. */
module History {
  import opened Outcomes
  import opened Totals
  import opened Ledger
  import opened Invariants
  import Calendar

  /** A row keeps its links and its tombstone; once credited it keeps its stamp and its charge too. */
  predicate RowPersists(a: Row, b: Row, credited: bool) {
    && b.key == a.key && b.reverses == a.reverses && b.rebilledFrom == a.rebilledFrom
    && b.kind == a.kind && b.task == a.task
    && (a.deleted ==> b.deleted)
    && (credited ==> b.billed == a.billed && SameCharge(a, b))
  }

  /** A place in the life of an invoice; every change of status moves up. */
  function Rank(status: Status): nat {
    match status
    case Draft => 0
    case Sent => 1
    case WrittenOff => 2
    case Paid | Cancelled => 3
  }

  predicate StatusPersists(a: Status, b: Status) {
    b == a || Rank(a) < Rank(b)
  }

  /** An invoice keeps its document and its dates. */
  predicate CyclePersists(a: Cycle, b: Cycle) {
    && b.kind == a.kind && b.start == a.start && b.end == a.end && b.cutoff == a.cutoff
    && b.hours == a.hours && b.amounts == a.amounts && b.taxRate == a.taxRate && b.taxMode == a.taxMode
    && b.variables == a.variables && b.exchangeRate == a.exchangeRate
    && (a.sentAt.Some? ==> b.sentAt == a.sentAt)
    && StatusPersists(a.status, b.status)
  }

  predicate Persists(s: State, t: State) {
    && |s.rows| <= |t.rows| && |s.cycles| <= |t.cycles| && |s.notes| <= |t.notes|
    && (forall i {:trigger t.rows[i]} :: 0 <= i < |s.rows| ==> RowPersists(s.rows[i], t.rows[i], i in s.lines))
    && (forall c {:trigger t.cycles[c]} :: 0 <= c < |s.cycles| ==> CyclePersists(s.cycles[c], t.cycles[c]))
    && (forall k {:trigger t.notes[k]} :: 0 <= k < |s.notes| ==> t.notes[k] == s.notes[k])
    && (forall i {:trigger t.lines[i]} {:trigger i in t.lines} :: i in s.lines ==>
          i in t.lines && t.lines[i] == s.lines[i])
  }

  lemma PersistsTransitive(s: State, t: State, u: State)
    requires Persists(s, t) && Persists(t, u)
    ensures Persists(s, u)
  {
    forall i | 0 <= i < |s.rows|
      ensures RowPersists(s.rows[i], u.rows[i], i in s.lines)
    {
      assert RowPersists(s.rows[i], t.rows[i], i in s.lines);
      assert RowPersists(t.rows[i], u.rows[i], i in t.lines);
    }
    forall c | 0 <= c < |s.cycles|
      ensures CyclePersists(s.cycles[c], u.cycles[c])
    {
      assert CyclePersists(s.cycles[c], t.cycles[c]);
      assert CyclePersists(t.cycles[c], u.cycles[c]);
    }
    forall k | 0 <= k < |s.notes|
      ensures u.notes[k] == s.notes[k]
    {
      assert t.notes[k] == s.notes[k];
    }
    forall i | i in s.lines
      ensures i in u.lines && u.lines[i] == s.lines[i]
    {
      assert i in t.lines && t.lines[i] == s.lines[i];
    }
  }

  lemma CreditedRowsAreStamped(s: State)
    requires LinesOk(s)
    ensures forall i :: i in s.lines ==>
      i < |s.rows| && s.rows[i].billed.Some? && HasNotes(s.notes, s.rows[i].billed.value)
  {
    forall i | i in s.lines
      ensures i < |s.rows| && s.rows[i].billed.Some? && HasNotes(s.notes, s.rows[i].billed.value)
    {
      CreditedIsStamped(s, i);
    }
  }

  /** One invoice changes its status and dates, nothing else changes. */
  lemma CycleChangePersists(s: State, c: nat, cycle: Cycle)
    requires c < |s.cycles| && CyclePersists(s.cycles[c], cycle)
    ensures Persists(s, s.(cycles := s.cycles[c := cycle]))
  {
  }

  lemma UpdatePersists(s: State, c: nat, status: Option<Status>, notes: Option<string>, now: Calendar.Instant)
    requires CyclesOk(s) && UpdateCycle(s, c, status, notes, now).Ok?
    ensures Persists(s, UpdateCycle(s, c, status, notes, now).value)
  {
    assert CycleOk(s, c);
    CycleChangePersists(s, c, UpdateCycle(s, c, status, notes, now).value.cycles[c]);
  }

  lemma WriteOffPersists(s: State, c: nat, reason: string)
    requires WriteOffCycle(s, c, reason).Ok?
    ensures Persists(s, WriteOffCycle(s, c, reason).value)
  {
    CycleChangePersists(s, c, WriteOffCycle(s, c, reason).value.cycles[c]);
  }

  /** Rows that keep their links, tombstones and credited charges, and nothing but rows and counters changes. */
  lemma RowChangePersists(s: State, t: State)
    requires t == s.(rows := t.rows, client := t.client) && |s.rows| <= |t.rows|
    requires forall i :: 0 <= i < |s.rows| ==> RowPersists(s.rows[i], t.rows[i], i in s.lines)
    ensures Persists(s, t)
  {
  }

  lemma AddHoursPersists(s: State, hours: nat, today: Calendar.Day)
    ensures Persists(s, AddHours(s, hours, today))
  {
    RowChangePersists(s, AddHours(s, hours, today));
  }

  lemma ConfirmPersists(s: State, e: Confirm)
    ensures Persists(s, ConfirmEntry(s, e))
  {
    RowChangePersists(s, ConfirmEntry(s, e));
  }

  lemma RevertPersists(s: State, e: Revert)
    ensures Persists(s, RevertEntry(s, e))
  {
    RowChangePersists(s, RevertEntry(s, e));
  }

  lemma DeletePersists(s: State, i: nat)
    requires DeleteHours(s, i).Ok?
    ensures Persists(s, DeleteHours(s, i).value)
  {
    RowChangePersists(s, DeleteHours(s, i).value);
  }

  lemma EditPersists(s: State, i: nat, hours: Option<nat>, edit: RateEdit)
    requires LinesOk(s) && EditHours(s, i, hours, edit).Ok?
    ensures Persists(s, EditHours(s, i, hours, edit).value)
  {
    CreditedRowsAreStamped(s);
    RowChangePersists(s, EditHours(s, i, hours, edit).value);
  }

  lemma ReopenPersists(s: State, c: nat, reason: string)
    requires LinesOk(s) && ReopenCycle(s, c, reason).Ok?
    ensures Persists(s, ReopenCycle(s, c, reason).value)
  {
    CreditedRowsAreStamped(s);
  }

  /** Every table keeps its entries and may gain some; only rows that are not credited may get a stamp. */
  lemma GrowthPersists(s: State, t: State)
    requires |s.rows| <= |t.rows| && Grows(s.cycles, t.cycles) && Grows(s.notes, t.notes)
    requires forall i :: i in s.lines ==> i in t.lines && t.lines[i] == s.lines[i]
    requires forall i :: 0 <= i < |s.rows| ==>
      t.rows[i] == s.rows[i] || (i !in s.lines && t.rows[i] == s.rows[i].(billed := t.rows[i].billed))
    ensures Persists(s, t)
  {
  }

  lemma IssuePersists(s: State, q: CloseRequest, w: Window)
    requires LinesOk(s)
    ensures Persists(s, Issue(s, q, w))
  {
    CreditedRowsAreStamped(s);
    var t := Issue(s, q, w);
    assert StampedWith(s.rows, t.rows, |s.cycles|);
    GrowthPersists(s, t);
  }

  lemma ClosePersists(s: State, q: CloseRequest)
    requires LinesOk(s) && CloseCycle(s, q).Ok?
    ensures Persists(s, CloseCycle(s, q).value)
  {
    ClosedIsIssued(s, q);
    IssuePersists(s, q, CheckClose(s, q).value);
  }

  lemma CreditedPersists(s: State, q: CreditRequest, originals: seq<nat>)
    requires Resolved(s, q.cycle, originals)
    ensures Persists(s, Credited(s, q, originals))
  {
    CreditedMirrors(s, q, originals);
    GrowthPersists(s, Credited(s, q, originals));
  }

  lemma CreditPersists(s: State, q: CreditRequest)
    requires EmitCreditNote(s, q).Ok?
    ensures Persists(s, EmitCreditNote(s, q).value)
  {
    EmittedIsCredited(s, q);
    CreditedPersists(s, q, ResolveLines(s, q.cycle, q.ids).value);
  }

  lemma SameDocumentsPersist(s: State, t: State)
    requires t.rows == s.rows && t.cycles == s.cycles && t.notes == s.notes && t.lines == s.lines
    ensures Persists(s, t)
  {
  }

  /** Operations on hours and variables; the others set terms or write documents. */
  predicate MovesHours(op: Op) {
    op.OpAddHours? || op.OpConfirm? || op.OpRevert? || op.OpDelete? || op.OpEdit? || op.OpUpsert? || op.OpRemove?
  }

  lemma HoursPersist(s: State, op: Op)
    requires LinesOk(s) && Step(s, op).Ok?
    requires MovesHours(op)
    ensures Persists(s, Step(s, op).value)
  {
    match op {
      case OpAddHours(hours, today) => AddHoursPersists(s, hours, today);
      case OpConfirm(e) => ConfirmPersists(s, e);
      case OpRevert(e) => RevertPersists(s, e);
      case OpDelete(i) => DeletePersists(s, i);
      case OpEdit(i, hours, edit) => EditPersists(s, i, hours, edit);
      case OpUpsert(_, _) => SameDocumentsPersist(s, Step(s, op).value);
      case OpRemove(_) => SameDocumentsPersist(s, Step(s, op).value);
    }
  }

  /** Operations on invoices, and settings. */
  lemma InvoicesPersist(s: State, op: Op)
    requires LinesOk(s) && CyclesOk(s) && Step(s, op).Ok?
    requires !MovesHours(op)
    ensures Persists(s, Step(s, op).value)
  {
    match op {
      case OpClose(q) => ClosePersists(s, q);
      case OpReopen(c, reason) => ReopenPersists(s, c, reason);
      case OpUpdate(c, status, notes, now) => UpdatePersists(s, c, status, notes, now);
      case OpWriteOff(c, reason) => WriteOffPersists(s, c, reason);
      case OpCredit(q) => CreditPersists(s, q);
      case SetTask(_, _) => SameDocumentsPersist(s, Step(s, op).value);
      case SetTerms(_, _, _) => SameDocumentsPersist(s, Step(s, op).value);
    }
  }

  lemma ApplyPersists(s: State, op: Op)
    requires Inv(s)
    ensures Persists(s, Apply(s, op))
  {
    if Step(s, op).Err? {
      SameDocumentsPersist(s, s);
    } else if MovesHours(op) {
      HoursPersist(s, op);
    } else {
      InvoicesPersist(s, op);
    }
  }

  lemma {:induction false} ReplayPersists(s: State, ops: seq<Op>)
    requires Inv(s)
    ensures Persists(s, Replay(s, ops))
  {
    if ops != [] {
      var before := Replay(s, ops[..|ops| - 1]);
      ReplayPersists(s, ops[..|ops| - 1]);
      ReplayKeepsInv(s, ops[..|ops| - 1]);
      ApplyPersists(before, ops[|ops| - 1]);
      PersistsTransitive(s, before, Replay(s, ops));
    }
  }
}
