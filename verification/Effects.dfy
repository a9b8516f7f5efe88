/** What each operation means to its caller, said of the tables before and after it. */
module Effects {
  import opened Outcomes
  import opened Totals
  import opened Ledger
  import opened Invariants
  import opened History
  import opened Store
  import opened Variables
  import opened Selection
  import Accounts
  import Balance
  import Calendar
  import Lifecycle
  import Prices
  import Refunds
  import Tax

  // ---------------------------------------------------------------- hours

  /** A purchase is added. The contracted hours grow by it, and are still the sum of the live purchases. */
  ghost predicate Purchases(before: State, after: State, hours: nat, today: Calendar.Day) {
    && after == before.(rows := after.rows, client := before.client.(contracted := after.client.contracted))
    && after.client.contracted == before.client.contracted + hours == LiveHours(after.rows, Purchase)
    && Grows(before.rows, after.rows) && |after.rows| == |before.rows| + 1
    && var row := after.rows[|before.rows|];
       && row.kind == Purchase && row.hours == hours && row.createdOn == today && !row.deleted
       && row.task.None? && row.price.None? && row.rate.None? && row.workedOn.None? && Unlinked(row)
  }

  /** A row that no invoice, time entry, refund or credit is behind. */
  predicate Unlinked(r: Row) {
    r.billed.None? && r.key.None? && r.reverses.None? && r.rebilledFrom.None?
  }

  /** Seconds as hours: rounded to the minute, and the minutes to ten-thousandths of an hour. */
  ghost predicate AreHours(seconds: int, hours: int) {
    exists minutes: int :: Tax.RoundsTo(seconds, 60, minutes) && Tax.RoundsTo(10_000 * minutes, 60, hours)
  }

  /** A price of hours at a rate, to the cent. */
  predicate IsPrice(hours: int, rate: int, price: int) {
    Tax.RoundsTo(hours * rate, 10_000, price)
  }

  /** The row of a time entry: its own hours, task and day, and of billable work the rate in force and its price. */
  ghost predicate IsEntryRow(s: State, e: Confirm, row: Row)
    requires e.task in s.tasks
  {
    var task := s.tasks[e.task];
    && row.key == Some(e.key) && AreHours(e.seconds, row.hours) && row.task == Some(e.task)
    && row.workedOn == Some(if e.workedOn.Some? then e.workedOn.value else e.today) && row.createdOn == e.today
    && !row.deleted && row.billed.None? && row.reverses.None? && row.rebilledFrom.None?
    && (!task.billable ==> row.kind == Internal && row.rate.None? && row.price.None?)
    && (task.billable ==>
          && row.kind == (if s.client.contracted <= s.client.used then Loan else Usage)
          && row.rate == (if task.rate.Some? then task.rate else s.client.supportRate)
          && (row.price.Some? <==> row.rate.Some?)
          && (row.price.Some? ==> IsPrice(row.hours, row.rate.value, row.price.value)))
  }

  /** The hours of a charge, added to the counter of its kind or taken off it. */
  function Counted(client: Client, row: Row, sign: int): Client {
    var hours := sign * row.hours;
    client.(used := client.used + (if row.kind == Usage then hours else 0),
            loaned := client.loaned + (if row.kind == Loan then hours else 0))
  }

  /**
   * A row is added exactly for worked time on a support task whose key is not on the ledger yet. The counter of its
   * kind grows by its hours; the counters stay the sums of the live charges.
   */
  ghost predicate Confirms(before: State, after: State, e: Confirm) {
    var isNew := !e.legacy && e.seconds > 0 && e.task in before.tasks && before.tasks[e.task].kind == Support
      && forall i :: 0 <= i < |before.rows| ==> before.rows[i].key != Some(e.key);
    && (!isNew ==> after == before)
    && (isNew ==>
          && after == before.(rows := after.rows, client := after.client)
          && |after.rows| == |before.rows| + 1 && Grows(before.rows, after.rows)
          && IsEntryRow(before, e, after.rows[|before.rows|])
          && after.client == Counted(before.client, after.rows[|before.rows|], 1))
    && QuotaOk(after.client, after.rows)
  }

  /** A live charge of the task of a reversal, and of its time entry if it names a version; never a mirror. */
  predicate IsTarget(r: Row, e: Revert) {
    && r.task == Some(e.task) && (r.kind == Usage || r.kind == Loan) && !r.deleted && r.rebilledFrom.None?
    && (e.version.Some? ==> r.key.Some? && r.key.value.entry == e.entry && r.key.value.version == e.version.value)
  }

  predicate IsNewestTarget(rows: seq<Row>, e: Revert, i: nat) {
    i < |rows| && IsTarget(rows[i], e) && forall k :: i < k < |rows| ==> !IsTarget(rows[k], e)
  }

  /** The refund of a charge, dated the day of the work. */
  predicate IsRefundOf(row: Row, charge: Row, i: nat, today: Calendar.Day) {
    && row.kind == Refund && row.reverses == Some(i) && row.hours == charge.hours && row.task == charge.task
    && row.workedOn == charge.workedOn && row.createdOn == today && !row.deleted
    && row.price.None? && row.rate.None? && row.billed.None? && row.key.None? && row.rebilledFrom.None?
  }

  /** The charge goes, is refunded, and frees its hours. */
  predicate GivesBack(before: State, after: State, i: nat, today: Calendar.Day)
    requires i < |before.rows|
  {
    var charge := before.rows[i];
    && |after.rows| == |before.rows| + 1
    && after.rows[..|before.rows|] == before.rows[i := charge.(deleted := true)]
    && IsRefundOf(after.rows[|before.rows|], charge, i, today)
    && after.client == Counted(before.client, charge, -1)
    && after == before.(rows := after.rows, client := after.client)
  }

  /** With no charge to give back, nothing. Otherwise the newest one goes. */
  ghost predicate Reverses(before: State, after: State, e: Revert) {
    && ((forall i :: 0 <= i < |before.rows| ==> !IsTarget(before.rows[i], e)) ==> after == before)
    && (forall i :: 0 <= i < |before.rows| && IsNewestTarget(before.rows, e, i) ==>
          GivesBack(before, after, i, e.today))
    && QuotaOk(after.client, after.rows)
  }

  /** Why a row cannot be deleted, if it cannot. No refund is ever an orphan. */
  function DeleteError(rows: seq<Row>, i: nat): Option<Error> {
    if i >= |rows| || rows[i].deleted then Some(TransactionNotFound)
    else if rows[i].billed.Some? then Some(TransactionBilled)
    else if rows[i].kind == Refund then Some(RefundNotDeletable)
    else None
  }

  /** The row is tombstoned and no other row changes; the counters stay the sums of what is live. */
  ghost predicate Deletes(before: State, after: State, i: nat, error: Option<Error>) {
    && error == DeleteError(before.rows, i)
    && (error.Some? ==> after == before)
    && (error.None? ==>
          && after == before.(rows := before.rows[i := before.rows[i].(deleted := true)], client := after.client)
          && after.client == before.client.(contracted := after.client.contracted, used := after.client.used,
                                            loaned := after.client.loaned)
          && QuotaOk(after.client, after.rows)
          && (before.rows[i].rebilledFrom.Some? ==> after.client == before.client))
  }

  /** Why a row cannot be edited, if it cannot. */
  function EditError(rows: seq<Row>, i: nat, hours: Option<nat>, edit: RateEdit): Option<Error> {
    if i >= |rows| || rows[i].deleted then Some(TransactionNotFound)
    else if rows[i].billed.Some? then Some(TransactionBilled)
    else if rows[i].rebilledFrom.Some? then Some(MirrorRowReadonly)
    else if rows[i].kind != Usage && rows[i].kind != Loan then Some(TransactionNotEditable)
    else if hours.None? && edit == Keep then Some(NothingToEdit)
    else None
  }

  /**
   * A row after an edit. A rate that is kept prices the hours again; one that is typed is stored in whole cents and
   * prices the hours as typed; no rate, or zero, means no price.
   */
  predicate IsRepriced(was: Row, row: Row, hours: Option<nat>, edit: RateEdit) {
    && row == was.(hours := row.hours, rate := row.rate, price := row.price)
    && row.hours == (if hours.Some? then hours.value else was.hours)
    && match edit
       case Keep =>
         && row.rate == was.rate
         && (row.price.Some? <==> was.rate.Some? && was.rate.value > 0)
         && (row.price.Some? ==> IsPrice(row.hours, was.rate.value, row.price.value))
       case Set(typed) =>
         && (row.price.Some? <==> row.rate.Some?)
         && (row.rate.Some? <==> typed.Some? && typed.value.num > 0)
         && (row.rate.Some? ==>
               && Tax.RoundsTo(typed.value.num, typed.value.den, row.rate.value)
               && Tax.RoundsTo(row.hours * typed.value.num, 10_000 * typed.value.den, row.price.value))
  }

  /** The row is priced again and no other row changes; the counter of its kind follows, and no invoice moves. */
  ghost predicate Edits(before: State, after: State, i: nat, hours: Option<nat>, edit: RateEdit, error: Option<Error>) {
    && error == EditError(before.rows, i, hours, edit)
    && (error.Some? ==> after == before)
    && (error.None? ==>
          && |after.rows| == |before.rows| && after.rows == before.rows[i := after.rows[i]]
          && IsRepriced(before.rows[i], after.rows[i], hours, edit)
          && after == before.(rows := after.rows, client := after.client)
          && after.client == before.client.(used := after.client.used, loaned := after.client.loaned)
          && QuotaOk(after.client, after.rows))
    && (forall c: nat :: StampedAmount(after.rows, c) == StampedAmount(before.rows, c))
  }

  // ---------------------------------------------------------------- variables

  /**
   * A sealed statement is refused. Otherwise its period bills exactly the new items that count, at any rate; every
   * other period, what it did.
   */
  ghost predicate Restates(
      before: State, after: State, period: Calendar.Month, items: Option<seq<Item>>, error: Option<Error>)
  {
    && error == (if period in before.statements && before.statements[period].billed.Some?
                 then Some(VariablesAlreadyBilled) else None)
    && after == before.(statements := after.statements)
    && (error.Some? ==> after == before)
    && (error.None? ==>
          && (forall m :: m != period ==> (m in after.statements <==> m in before.statements))
          && (forall m :: m in after.statements && m != period ==> after.statements[m] == before.statements[m])
          && (period in after.statements <==> items.Some?)
          && (items.Some? ==> after.statements[period] == Statement(items.value, None))
          && (forall rate: nat {:trigger PeriodLines(after.statements, period, rate)} ::
                if items.Some? then Itemizes(period, items.value, rate, PeriodLines(after.statements, period, rate))
                else PeriodLines(after.statements, period, rate) == []))
  }

  // ---------------------------------------------------------------- emission

  /** Exactly the rows the request means carry the new invoice; nothing else changes on any row. */
  ghost predicate Stamps(before: State, after: State, q: CloseRequest) {
    && |after.rows| == |before.rows|
    && (forall i :: 0 <= i < |after.rows| ==>
          after.rows[i] == before.rows[i].(billed :=
            if ToBill(before, q.scope, q.until, before.rows[i]) then Some(|before.cycles|) else before.rows[i].billed))
  }

  /** Exactly the open statements of the months asked for carry the new invoice; no statement changes otherwise. */
  ghost predicate SealsMonths(before: State, after: State, q: CloseRequest) {
    && after.statements.Keys == before.statements.Keys
    && (forall m :: m in after.statements ==>
          after.statements[m] == before.statements[m].(billed :=
            if AskedAndOpen(before, q.scope, m) then Some(|before.cycles|) else before.statements[m].billed))
  }

  /** The hours and prices of the rows that carry a number, tombstones included. */
  function HoursCarrying(rows: seq<Row>, c: nat): int {
    Total(seq(|rows|, i requires 0 <= i < |rows| => if rows[i].billed == Some(c) then rows[i].hours else 0))
  }

  function PricesCarrying(rows: seq<Row>, c: nat): int {
    Total(seq(|rows|, i requires 0 <= i < |rows| =>
      if rows[i].billed == Some(c) && rows[i].price.Some? then rows[i].price.value else 0))
  }

  function ConvertedTotal(lines: seq<VariableLine>): int {
    Total(seq(|lines|, k requires 0 <= k < |lines| => lines[k].converted))
  }

  /** What an invoice adds up to, with the tax terms of the client, which it keeps exactly if there is a tax. */
  predicate AddsUp(cycle: Cycle, rows: seq<Row>, c: nat, client: Client) {
    && cycle.hours == HoursCarrying(rows, c)
    && cycle.amounts ==
       Tax.ComputeTax(PricesCarrying(rows, c) + ConvertedTotal(cycle.variables), client.taxRate, client.taxMode)
    && (if client.taxRate.Some? && client.taxRate.value > 0
           && (client.taxMode == Some("EXCLUDED") || client.taxMode == Some("INCLUDED"))
        then cycle.taxRate == client.taxRate && cycle.taxMode == client.taxMode
        else cycle.taxRate.None? && cycle.taxMode.None?)
  }

  /** The variables of the months asked for, at the rate of the request; no rate is kept without variables. */
  ghost predicate BillsVariables(s: State, cycle: Cycle, q: CloseRequest) {
    var rate := if q.exchangeRate.Some? then q.exchangeRate.value else 0;
    && Collected(s.statements, Periods(q.scope), rate, cycle.variables)
    && cycle.exchangeRate == (if cycle.variables != [] then rate else 0)
  }

  /** A draft over the window of the request. */
  ghost predicate Drafts(s: State, cycle: Cycle, q: CloseRequest) {
    && cycle.status == Draft && cycle.kind == (if q.scope.Chosen? then Accumulated else Monthly)
    && CutsOffAt(q.scope, q.until, cycle.cutoff) && EndsAt(q.scope, cycle.cutoff, cycle.end)
    && StartsAt(s, q.scope, q.until, cycle.start)
    && cycle.notes == q.notes && cycle.createdAt == q.now
    && cycle.sentAt.None? && cycle.paidAt.None? && cycle.cancelReason.None?
  }

  /** An emission: its rows, its statements, its document. */
  ghost predicate Closes(before: State, after: State, q: CloseRequest, error: Option<Error>) {
    && error == EmissionError(before, q)
    && (error.Some? ==> after == before)
    && (error.None? ==>
          && after == before.(rows := after.rows, cycles := after.cycles, statements := after.statements)
          && Stamps(before, after, q) && SealsMonths(before, after, q)
          && |after.cycles| == |before.cycles| + 1 && Grows(before.cycles, after.cycles)
          && var cycle := after.cycles[|before.cycles|];
             && Drafts(before, cycle, q) && BillsVariables(before, cycle, q)
             && AddsUp(cycle, after.rows, |before.cycles|, before.client))
  }

  // ---------------------------------------------------------------- the life of an invoice

  /** Why an invoice cannot be cancelled, if it cannot. */
  ghost function CancelError(s: State, c: nat): Option<Error> {
    if c >= |s.cycles| then Some(CycleNotFound)
    else if s.cycles[c].status == Paid then Some(CycleAlreadyPaid)
    else if s.cycles[c].status == WrittenOff || s.cycles[c].status == Cancelled then Some(InvalidCycleState)
    else if exists k :: 0 <= k < |s.notes| && s.notes[k].cycle == c then Some(CycleHasCreditNotes)
    else None
  }

  /** The invoice ends up holding nothing; its rows and statements lose their stamp and nothing else. */
  ghost predicate Cancels(before: State, after: State, c: nat, reason: string, error: Option<Error>) {
    && error == CancelError(before, c)
    && (error.Some? ==> after == before)
    && (error.None? ==>
          && after == before.(rows := after.rows, cycles := after.cycles, statements := after.statements)
          && after.cycles == before.cycles[c := before.cycles[c].(status := Cancelled, cancelReason := Some(reason))]
          && Accounts.HoldsNothing(after, c)
          && |after.rows| == |before.rows|
          && (forall i :: 0 <= i < |after.rows| ==>
                after.rows[i] == before.rows[i] || after.rows[i] == before.rows[i].(billed := None))
          && (forall i :: 0 <= i < |after.rows| && before.rows[i].billed != Some(c) ==> after.rows[i] == before.rows[i])
          && after.statements.Keys == before.statements.Keys
          && (forall m :: m in after.statements ==>
                after.statements[m] == if before.statements[m].billed == Some(c)
                  then before.statements[m].(billed := None) else before.statements[m]))
  }

  /**
   * A change of status keeps the document and the balance, moves up, and leaves the dates telling the truth: sent
   * exactly if the client sees the invoice, paid exactly if it was collected.
   */
  ghost predicate Moves(before: State, after: State, c: nat)
    requires c < |before.cycles|
  {
    && |after.cycles| == |before.cycles| && after == before.(cycles := before.cycles[c := after.cycles[c]])
    && var was, now := before.cycles[c], after.cycles[c];
       && CyclePersists(was, now)
       && (was.status != now.status ==> Rank(was.status) < Rank(now.status))
       && (now.paidAt.Some? <==> now.status.Paid?)
       && (Lifecycle.IsPortalVisible(now.status, now.sentAt.Some?) <==> now.sentAt.Some?)
       && Balance.BalanceOf(after, c) == Balance.BalanceOf(before, c)
  }

  /** Why an invoice cannot be updated, if it cannot: these are the only changes of status by hand. */
  function UpdateError(s: State, c: nat, status: Option<Status>, notes: Option<string>): Option<Error> {
    if c >= |s.cycles| then Some(CycleNotFound)
    else if status.Some?
      && (s.cycles[c].status, status.value) !in {(Draft, Sent), (Sent, Paid), (Sent, WrittenOff), (WrittenOff, Paid)}
    then Some(InvalidCycleTransition)
    else if status.None? && notes.None? then Some(NothingToUpdate)
    else None
  }

  /** The new status dates the sending or the payment, and the new notes replace the old ones. */
  ghost predicate Updates(before: State, after: State, c: nat, status: Option<Status>, notes: Option<string>,
                          now: Calendar.Instant, error: Option<Error>) {
    && error == UpdateError(before, c, status, notes)
    && (error.Some? ==> after == before)
    && (error.None? ==>
          && Moves(before, after, c)
          && after.cycles[c] == before.cycles[c].(
               status := if status.Some? then status.value else before.cycles[c].status,
               sentAt := if status == Some(Sent) then Some(now) else before.cycles[c].sentAt,
               paidAt := if status == Some(Paid) then Some(now) else before.cycles[c].paidAt,
               notes := if notes.Some? then notes else before.cycles[c].notes))
  }

  /** Only a sent invoice is written off; the reason is a new line below what its notes said. */
  ghost predicate WritesOff(before: State, after: State, c: nat, reason: string, error: Option<Error>) {
    && error == (if c >= |before.cycles| then Some(CycleNotFound)
                 else if before.cycles[c].status != Sent then Some(InvalidCycleTransition)
                 else None)
    && (error.Some? ==> after == before)
    && (error.None? ==>
          && Moves(before, after, c)
          && after.cycles[c] == before.cycles[c].(status := WrittenOff, notes := after.cycles[c].notes)
          && after.cycles[c].notes.Some?
          && var was, mark := before.cycles[c].notes, "[Cerrada sin cobro] " + reason;
             after.cycles[c].notes.value == if was.None? || was.value == "" then mark else was.value + "\n" + mark)
  }

  // ---------------------------------------------------------------- credit notes

  /** A row a note can credit on an invoice: live work of it, with a price. */
  predicate IsOn(s: State, c: nat, i: nat) {
    && i < |s.rows| && s.rows[i].billed == Some(c) && !s.rows[i].deleted
    && (s.rows[i].kind == Usage || s.rows[i].kind == Loan) && s.rows[i].price.Some?
  }

  /** Why a credit note is refused, if it is. */
  ghost function CreditError(s: State, q: CreditRequest): Option<Error> {
    if |q.reason| < 3 then Some(CreditNoteReasonRequired)
    else if q.cycle >= |s.cycles| then Some(CycleNotFound)
    else if s.cycles[q.cycle].status !in {Sent, Paid, WrittenOff} then Some(CreditNoteInvalidInvoiceState)
    else if exists i :: i in q.ids && !IsOn(s, q.cycle, i) then Some(CreditNoteInvalidLine)
    else if exists i :: i in q.ids && i in s.lines then Some(LineAlreadyCredited)
    else None
  }

  /** An unbilled copy of a credited row, which carries nothing but its charge and where it came from. */
  predicate IsMirrorOf(row: Row, original: Row, i: nat, today: Calendar.Day) {
    && row.kind == original.kind && row.hours == original.hours && row.task == original.task
    && row.price == original.price && row.rate == original.rate && row.workedOn == original.workedOn
    && row.rebilledFrom == Some(i) && row.createdOn == today && !row.deleted
    && row.billed.None? && row.key.None? && row.reverses.None?
  }

  /** One mirror for each row, in their order, unless the hours are not to come back. */
  predicate MirrorsThem(before: seq<Row>, after: seq<Row>, q: CreditRequest, originals: seq<nat>) {
    && |after| == |before| + (if q.returnHours == Some(false) then 0 else |originals|)
    && after[..|before|] == before
    && (forall k :: 0 <= k < |after| - |before| ==>
          originals[k] < |before|
          && IsMirrorOf(after[|before| + k], before[originals[k]], originals[k], q.today))
  }

  /** The frozen lines: hours, price, rate and day of each row, under the new note. */
  ghost predicate FreezesThem(before: State, after: State, q: CreditRequest) {
    && (forall i :: i in after.lines <==> i in before.lines || i in q.ids)
    && (forall i :: i in after.lines ==>
          if i in before.lines then after.lines[i] == before.lines[i]
          else
            && i < |before.rows| && before.rows[i].price.Some?
            && after.lines[i].note == |before.notes| && after.lines[i].hours == before.rows[i].hours
            && after.lines[i].price == before.rows[i].price.value && after.lines[i].rate == before.rows[i].rate
            && after.lines[i].workedOn == before.rows[i].workedOn)
  }

  function PricesOf(rows: seq<Row>, ids: seq<nat>): int
    requires forall k :: 0 <= k < |ids| ==> ids[k] < |rows| && rows[ids[k]].price.Some?
  {
    Total(seq(|ids|, k requires 0 <= k < |ids| => rows[ids[k]].price.value))
  }

  function HoursOfRows(rows: seq<Row>, ids: seq<nat>): int
    requires forall k :: 0 <= k < |ids| ==> ids[k] < |rows|
  {
    Total(seq(|ids|, k requires 0 <= k < |ids| => rows[ids[k]].hours))
  }

  /** The note: what was asked, and what the rows add up to, taken back with the terms of the invoice. */
  predicate NotesThem(s: State, note: CreditNote, q: CreditRequest, originals: seq<nat>)
    requires q.cycle < |s.cycles|
    requires forall k :: 0 <= k < |originals| ==> IsOn(s, q.cycle, originals[k])
  {
    assert forall k :: 0 <= k < |originals| ==> IsOn(s, q.cycle, originals[k]);
    var invoice := s.cycles[q.cycle];
    var given := Tax.ComputeTax(PricesOf(s.rows, originals), invoice.taxRate, invoice.taxMode);
    && note.cycle == q.cycle && note.reason == q.reason && note.returnHours == (q.returnHours != Some(false))
    && note.hours + HoursOfRows(s.rows, originals) == 0
    && note.amounts.total + given.total == 0
    && (note.amounts.net.Some? <==> given.net.Some?) && (note.amounts.tax.Some? <==> given.tax.Some?)
    && (given.net.Some? ==> note.amounts.net.value + given.net.value == 0)
    && (given.tax.Some? ==> note.amounts.tax.value + given.tax.value == 0)
    && note.taxRate == (if given.net.Some? then invoice.taxRate else None)
    && note.taxMode == (if given.net.Some? then invoice.taxMode else None)
  }

  /** The rows asked for, once each. */
  ghost predicate AreThem(s: State, q: CreditRequest, originals: seq<nat>) {
    && (forall i :: i in originals <==> i in q.ids)
    && (forall j, k :: 0 <= j < k < |originals| ==> originals[j] != originals[k])
    && (forall k :: 0 <= k < |originals| ==> IsOn(s, q.cycle, originals[k]))
  }

  ghost predicate CreditsThem(before: State, after: State, q: CreditRequest, originals: seq<nat>) {
    && q.cycle < |before.cycles| && AreThem(before, q, originals)
    && after == before.(rows := after.rows, notes := after.notes, lines := after.lines)
    && MirrorsThem(before.rows, after.rows, q, originals) && FreezesThem(before, after, q)
    && |after.notes| == |before.notes| + 1 && Grows(before.notes, after.notes)
    && NotesThem(before, after.notes[|before.notes|], q, originals)
  }

  /** A credit note credits exactly the rows asked for, and takes its total off the balance of the invoice. */
  ghost predicate Credits(before: State, after: State, q: CreditRequest, error: Option<Error>) {
    && error == CreditError(before, q)
    && (error.Some? ==> after == before)
    && (error.None? ==>
          && (exists originals :: CreditsThem(before, after, q, originals))
          && |after.notes| == |before.notes| + 1 && q.cycle < |before.cycles| && after.cycles == before.cycles
          && Balance.BalanceOf(after, q.cycle) ==
             Balance.BalanceOf(before, q.cycle) + after.notes[|before.notes|].amounts.total)
  }

  // ---------------------------------------------------------------- why the hours do

  lemma PurchaseAdds(s: State, hours: nat, today: Calendar.Day)
    requires Inv(s)
    ensures Purchases(s, AddHours(s, hours, today), hours, today)
  {
    AddHoursKeepsInv(s, hours, today);
  }

  lemma HoursAreHours(seconds: nat)
    ensures AreHours(seconds, HoursOf(seconds))
  {
    var minutes := Tax.RoundHalfUp(seconds, 60);
    Tax.RoundingBounds(seconds, 60);
    Tax.RoundingBounds(minutes * 10_000, 60);
    assert Tax.RoundsTo(seconds, 60, minutes) && Tax.RoundsTo(10_000 * minutes, 60, HoursOf(seconds));
  }

  lemma PriceIsPrice(hours: nat, rate: nat)
    ensures IsPrice(hours, rate, PriceOf(hours, rate))
  {
    Prices.PriceIsRoundedOnce(hours, Fraction(rate, 1));
  }

  lemma EntryRowIsRight(s: State, e: Confirm)
    requires ChargeRow(s, e).Some?
    ensures IsEntryRow(s, e, ChargeRow(s, e).value)
  {
    HoursAreHours(e.seconds);
    var row := ChargeRow(s, e).value;
    if row.rate.Some? {
      PriceIsPrice(row.hours, row.rate.value);
    }
  }

  lemma ConfirmationIsOne(s: State, e: Confirm)
    requires Inv(s)
    ensures Confirms(s, ConfirmEntry(s, e), e)
  {
    ConfirmKeepsInv(s, e);
    if ChargeRow(s, e).Some? {
      EntryRowIsRight(s, e);
    }
  }

  lemma RefundIsRefund(s: State, i: nat, today: Calendar.Day)
    requires RowsOk(s) && i < |s.rows| && Billable(s.rows[i].kind)
    ensures IsRefundOf(RefundRow(s.rows[i], i, today), s.rows[i], i, today)
  {
    assert RowOk(s, i);
  }

  lemma RefundGivesBack(s: State, i: nat, today: Calendar.Day)
    requires RowsOk(s) && i < |s.rows| && Billable(s.rows[i].kind)
    ensures GivesBack(s, s.(rows := s.rows[i := s.rows[i].(deleted := true)] + [RefundRow(s.rows[i], i, today)],
                            client := Move(s.client, s.rows[i].kind, 0 - s.rows[i].hours)), i, today)
  {
    RefundIsRefund(s, i, today);
  }

  lemma NewestIsFound(rows: seq<Row>, e: Revert)
    ensures FindCharge(rows, e).None? ==> forall i :: 0 <= i < |rows| ==> !IsTarget(rows[i], e)
    ensures FindCharge(rows, e).Some? ==> IsTarget(rows[FindCharge(rows, e).value], e)
    ensures FindCharge(rows, e).Some? ==> forall i :: IsNewestTarget(rows, e, i) ==> i == FindCharge(rows, e).value
  {
    assert forall i :: 0 <= i < |rows| ==> (IsTarget(rows[i], e) <==> Reverts(rows[i], e));
  }

  lemma FoundIsReverted(s: State, e: Revert, i: nat)
    requires RowsOk(s) && FindCharge(s.rows, e) == Some(i)
    ensures RevertEntry(s, e) ==
      s.(rows := s.rows[i := s.rows[i].(deleted := true)] + [RefundRow(s.rows[i], i, e.today)],
         client := Move(s.client, s.rows[i].kind, 0 - s.rows[i].hours))
  {
    Refunds.LiveChargeHasNoRefund(s, i);
  }

  lemma ReversalGivesBack(s: State, e: Revert)
    requires Inv(s)
    ensures Reverses(s, RevertEntry(s, e), e)
  {
    RevertKeepsInv(s, e);
    NewestIsFound(s.rows, e);
    var found := FindCharge(s.rows, e);
    if found.Some? {
      FoundIsReverted(s, e, found.value);
      RefundGivesBack(s, found.value, e.today);
    }
  }

  lemma DeletionTombstones(s: State, i: nat, t: State, error: Option<Error>)
    requires Inv(s) && Settles(s, t, DeleteHours(s, i), error)
    ensures Deletes(s, t, i, error)
  {
    if i < |s.rows| {
      assert RowOk(s, i);
      if s.rows[i].rebilledFrom.Some? {
        MirrorIsBillable(s, i);
      }
    }
    if error.None? {
      DeleteKeepsInv(s, i);
    }
  }

  /** An unbilled row that stays unbilled weighs nothing on any invoice. */
  lemma UnbilledWeighsNothing(before: seq<Row>, i: nat, row: Row)
    requires i < |before| && before[i].billed.None? && row.billed.None?
    ensures forall c: nat :: StampedAmount(before[i := row], c) == StampedAmount(before, c)
  {
    forall c: nat
      ensures StampedAmount(before[i := row], c) == StampedAmount(before, c)
    {
      StampedKept(before, before[i := row], c);
    }
  }

  lemma EditIsRepriced(row: Row, hours: Option<nat>, edit: RateEdit)
    ensures IsRepriced(row, EditedRow(row, hours, edit), hours, edit)
  {
    var edited := EditedRow(row, hours, edit);
    if edited.price.Some? {
      match edit
      case Keep => PriceIsPrice(edited.hours, row.rate.value);
      case Set(typed) =>
        Prices.PriceIsRoundedOnce(edited.hours, typed.value);
        Tax.RoundingBounds(typed.value.num, typed.value.den);
    }
  }

  lemma EditReprices(s: State, i: nat, hours: Option<nat>, edit: RateEdit, t: State, error: Option<Error>)
    requires Inv(s) && Settles(s, t, EditHours(s, i, hours, edit), error)
    ensures Edits(s, t, i, hours, edit, error)
  {
    if error.None? {
      EditKeepsInv(s, i, hours, edit);
      EditIsRepriced(s.rows[i], hours, edit);
      UnbilledWeighsNothing(s.rows, i, t.rows[i]);
    }
  }

  // ---------------------------------------------------------------- why the variables do

  lemma UpsertRestates(s: State, period: Calendar.Month, items: seq<Item>, t: State, error: Option<Error>)
    requires Settles(s, t, UpsertVariables(s, period, items), error)
    ensures Restates(s, t, period, Some(items), error)
  {
    if error.None? {
      forall rate: nat
        ensures Itemizes(period, items, rate, PeriodLines(t.statements, period, rate))
      {
        ItemLinesItemize(period, items, rate);
      }
    }
  }

  lemma RemovalRestates(s: State, period: Calendar.Month, t: State, error: Option<Error>)
    requires Settles(s, t, RemoveVariables(s, period), error)
    ensures Restates(s, t, period, None, error)
  {
  }

  // ---------------------------------------------------------------- why the emission does

  lemma IssueStamps(s: State, q: CloseRequest, w: Window)
    requires ResolveWindow(q.scope, q.until) == Ok(w)
    ensures Stamps(s, Issue(s, q, w), q)
  {
    var t := Issue(s, q, w);
    forall i | 0 <= i < |t.rows|
      ensures t.rows[i] == s.rows[i].(billed :=
        if ToBill(s, q.scope, q.until, s.rows[i]) then Some(|s.cycles|) else s.rows[i].billed)
    {
      TakesExactly(s, q.scope, q.until, w, s.rows[i]);
    }
  }

  lemma IssueSeals(s: State, q: CloseRequest, w: Window)
    ensures SealsMonths(s, Issue(s, q, w), q)
  {
    var t := Issue(s, q, w);
    PeriodsAreAsked(q.scope);
    forall m | m in t.statements
      ensures t.statements[m] == s.statements[m].(billed :=
        if AskedAndOpen(s, q.scope, m) then Some(|s.cycles|) else s.statements[m].billed)
    {
      PeriodLinesItemize(s.statements, m, 0);
    }
  }

  lemma IssueDrafts(s: State, q: CloseRequest, w: Window)
    requires ResolveWindow(q.scope, q.until) == Ok(w)
    ensures Drafts(s, Issue(s, q, w).cycles[|s.cycles|], q)
  {
    WindowIsResolved(q.scope, q.until);
    StartIsResolved(s, q.scope, q.until, w);
  }

  lemma IssueBillsVariables(s: State, q: CloseRequest, w: Window)
    ensures BillsVariables(s, Issue(s, q, w).cycles[|s.cycles|], q)
  {
    PeriodsAreAsked(q.scope);
    CollectLinesCollect(s.statements, Periods(q.scope), RateOf(q));
  }

  lemma IssueAddsUp(s: State, q: CloseRequest, w: Window)
    ensures var t := Issue(s, q, w);
            AddsUp(t.cycles[|s.cycles|], t.rows, |s.cycles|, s.client)
  {
    var t := Issue(s, q, w);
    var c := |s.cycles|;
    ColumnsAreThese(t.rows, c, t.cycles[c].variables);
    Tax.BreakdownCloses(StampedAmount(t.rows, c) + VariablesAmount(t.cycles[c].variables), s.client.taxRate,
                        s.client.taxMode);
  }

  lemma ColumnsAreThese(rows: seq<Row>, c: nat, lines: seq<VariableLine>)
    ensures HoursCarrying(rows, c) == StampedHours(rows, c)
    ensures PricesCarrying(rows, c) == StampedAmount(rows, c)
    ensures ConvertedTotal(lines) == VariablesAmount(lines)
  {
    assert HoursColumn(rows, c) ==
      seq(|rows|, i requires 0 <= i < |rows| => if rows[i].billed == Some(c) then rows[i].hours else 0);
    assert PriceColumn(rows, c) == seq(|rows|, i requires 0 <= i < |rows| =>
      if rows[i].billed == Some(c) && rows[i].price.Some? then rows[i].price.value else 0);
    assert ConvertedColumn(lines) == seq(|lines|, k requires 0 <= k < |lines| => lines[k].converted);
  }

  lemma IssueCloses(s: State, q: CloseRequest, w: Window)
    requires ResolveWindow(q.scope, q.until) == Ok(w) && EmissionError(s, q).None?
    ensures Closes(s, Issue(s, q, w), q, None)
  {
    IssueStamps(s, q, w);
    IssueSeals(s, q, w);
    IssueDrafts(s, q, w);
    IssueBillsVariables(s, q, w);
    IssueAddsUp(s, q, w);
  }

  lemma EmissionCloses(s: State, q: CloseRequest, t: State, error: Option<Error>)
    requires RowsOk(s) && Settles(s, t, CloseCycle(s, q), error)
    ensures Closes(s, t, q, error)
  {
    EmissionAnswers(s, q);
    if error.None? {
      ClosedIsIssued(s, q);
      IssueCloses(s, q, CheckClose(s, q).value);
    }
  }

  // ---------------------------------------------------------------- why the invoice does

  lemma CancellationEmpties(s: State, c: nat, reason: string, t: State, error: Option<Error>)
    requires Inv(s) && Settles(s, t, ReopenCycle(s, c, reason), error)
    ensures Cancels(s, t, c, reason, error)
  {
    if error.None? {
      ReopenKeepsInv(s, c, reason);
      Accounts.CancelledIsEmpty(t, c);
    }
  }

  lemma UpdateMoves(s: State, c: nat, status: Option<Status>, notes: Option<string>, now: Calendar.Instant, t: State,
                    error: Option<Error>)
    requires CyclesOk(s) && Settles(s, t, UpdateCycle(s, c, status, notes, now), error)
    ensures Updates(s, t, c, status, notes, now, error)
  {
    if error.None? {
      assert CycleOk(s, c);
    }
  }

  /** The reason is a new line below what the notes said. */
  lemma ReasonIsALine(notes: Option<string>, reason: string)
    ensures WriteOffNotes(notes, reason) ==
      var mark := "[Cerrada sin cobro] " + reason;
      if notes.None? || notes.value == "" then mark else notes.value + "\n" + mark
  {
    if notes.Some? {
      var mark := "[Cerrada sin cobro] ";
      assert "\n[Cerrada sin cobro] " == "\n" + mark;
      assert notes.value + ("\n" + mark) + reason == notes.value + "\n" + (mark + reason);
    }
  }

  lemma WriteOffMoves(s: State, c: nat, reason: string, t: State, error: Option<Error>)
    requires CyclesOk(s) && Settles(s, t, WriteOffCycle(s, c, reason), error)
    ensures WritesOff(s, t, c, reason, error)
  {
    if error.None? {
      assert CycleOk(s, c);
      ReasonIsALine(s.cycles[c].notes, reason);
    }
  }

  // ---------------------------------------------------------------- why the credit note does

  lemma CreditAnswers(s: State, q: CreditRequest)
    ensures ErrorOf(EmitCreditNote(s, q)) == CreditError(s, q)
  {
    assert forall i :: IsOn(s, q.cycle, i) <==> Creditable(s, q.cycle, i);
    assert forall k :: 0 <= k < |q.ids| ==> q.ids[k] in q.ids;
  }

  lemma NoteIsRight(s: State, q: CreditRequest, originals: seq<nat>)
    requires Resolved(s, q.cycle, originals)
    ensures forall k :: 0 <= k < |originals| ==> IsOn(s, q.cycle, originals[k])
    ensures NotesThem(s, NoteFor(s, q, originals), q, originals)
  {
    assert RequestedPrices(s.rows, originals) ==
      seq(|originals|, k requires 0 <= k < |originals| => s.rows[originals[k]].price.value);
    assert RequestedHours(s.rows, originals) ==
      seq(|originals|, k requires 0 <= k < |originals| => s.rows[originals[k]].hours);
  }

  lemma MirrorsMirror(rows: seq<Row>, q: CreditRequest, originals: seq<nat>)
    requires forall k :: 0 <= k < |originals| ==> originals[k] < |rows|
    ensures MirrorsThem(rows, if ReturnsHours(q) then rows + Mirrors(rows, originals, q.today) else rows, q, originals)
  {
  }

  lemma CreditFreezes(s: State, q: CreditRequest, originals: seq<nat>)
    requires Resolved(s, q.cycle, originals) && forall i :: i in originals <==> i in q.ids
    ensures FreezesThem(s, Credited(s, q, originals), q)
  {
    forall i | i in q.ids
      ensures i !in s.lines && IsOn(s, q.cycle, i)
    {
      var k :| 0 <= k < |originals| && originals[k] == i;
    }
  }

  lemma CreditCredits(s: State, q: CreditRequest, originals: seq<nat>, t: State)
    requires Resolved(s, q.cycle, originals) && forall i :: i in originals <==> i in q.ids
    requires t == Credited(s, q, originals)
    ensures CreditsThem(s, t, q, originals)
  {
    NoteIsRight(s, q, originals);
    MirrorsMirror(s.rows, q, originals);
    CreditFreezes(s, q, originals);
  }

  lemma NoteTakesItsTotal(s: State, q: CreditRequest, originals: seq<nat>)
    requires Resolved(s, q.cycle, originals)
    ensures var t := Credited(s, q, originals);
            && t.cycles == s.cycles && |t.notes| == |s.notes| + 1
            && Balance.BalanceOf(t, q.cycle) == Balance.BalanceOf(s, q.cycle) + t.notes[|s.notes|].amounts.total
  {
    var t := Credited(s, q, originals);
    Balance.AppendedNote(t.notes, q.cycle, |s.notes|);
    assert t.notes[..|s.notes|] == s.notes && t.notes[..|s.notes| + 1] == t.notes;
  }

  lemma NoteCredits(s: State, q: CreditRequest, t: State, error: Option<Error>)
    requires Settles(s, t, EmitCreditNote(s, q), error)
    ensures Credits(s, t, q, error)
  {
    CreditAnswers(s, q);
    if error.None? {
      var originals := ResolveLines(s, q.cycle, q.ids).value;
      EmittedIsCredited(s, q);
      CreditCredits(s, q, originals, t);
      NoteTakesItsTotal(s, q, originals);
    }
  }
}
