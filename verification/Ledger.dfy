/**
 * The hours ledger and the invoicing engine of one client. A state holds the tables; each function below is the
 * effect of one database transaction, or the error code that refuses it. Rows are never deleted, only tombstoned,
 * so a row is named by its position, and positions follow creation time.
 */
module Ledger {
  import opened Outcomes
  import opened Totals
  import Calendar
  import Tax

  // ---------------------------------------------------------------- tables

  datatype Kind = Usage | Loan | Purchase | Refund | Internal

  datatype EntryKey = EntryKey(entry: nat, version: nat)

  /** A movement. Hours count ten-thousandths, money counts cents. */
  datatype Row = Row(
    kind: Kind,
    hours: nat,
    task: Option<nat>,
    price: Option<nat>,
    rate: Option<nat>,
    workedOn: Option<Calendar.Day>,
    createdOn: Calendar.Day,
    deleted: bool,
    billed: Option<nat>,
    key: Option<EntryKey>,
    reverses: Option<nat>,
    rebilledFrom: Option<nat>)

  datatype Client = Client(
    contracted: int,
    used: int,
    loaned: int,
    supportRate: Option<nat>,
    taxRate: Option<int>,
    taxMode: Option<string>)

  datatype TaskKind = Project | Support

  datatype Task = Task(kind: TaskKind, billable: bool, rate: Option<nat>)

  datatype Status = Draft | Sent | Paid | WrittenOff | Cancelled

  datatype CycleKind = Monthly | Accumulated

  /** A billed variable: its USD cents and what they became at the stamped rate. The period is where it came from. */
  datatype VariableLine = VariableLine(period: Calendar.Month, name: string, usd: nat, converted: nat)

  datatype Cycle = Cycle(
    status: Status,
    kind: CycleKind,
    start: Calendar.Instant,
    end: Calendar.Instant,
    cutoff: Calendar.Instant,
    hours: int,
    amounts: Tax.Breakdown,
    taxRate: Option<int>,
    taxMode: Option<string>,
    variables: seq<VariableLine>,
    exchangeRate: nat,
    notes: Option<string>,
    createdAt: Calendar.Instant,
    sentAt: Option<Calendar.Instant>,
    paidAt: Option<Calendar.Instant>,
    cancelReason: Option<string>)

  /** A credit note; amounts and hours are negative. */
  datatype CreditNote = CreditNote(
    cycle: nat,
    reason: string,
    returnHours: bool,
    amounts: Tax.Breakdown,
    hours: int,
    taxRate: Option<int>,
    taxMode: Option<string>)

  /** A credited row, frozen with positive magnitudes. The table is keyed by the credited row: that column is unique. */
  datatype CreditLine = CreditLine(note: nat, hours: nat, price: nat, rate: Option<nat>, workedOn: Option<Calendar.Day>)

  datatype Item = Item(name: string, commercial: int, enabled: bool)

  datatype Statement = Statement(items: seq<Item>, billed: Option<nat>)

  datatype State = State(
    client: Client,
    tasks: map<nat, Task>,
    rows: seq<Row>,
    cycles: seq<Cycle>,
    notes: seq<CreditNote>,
    lines: map<nat, CreditLine>,
    statements: map<Calendar.Month, Statement>)

  datatype Error =
    | TransactionNotFound | TransactionBilled | MirrorRowReadonly | TransactionNotEditable | NothingToEdit
    | RefundNotDeletable | RefundOrphanNotDeletable
    | PeriodRequired | InvalidUntil | MonthsRequired
    | SupportRateNotConfigured | BillableWithoutWorkedOn | BillableIntegrityViolation
    | NothingToBill | ExchangeRateRequired
    | CycleNotFound | CycleAlreadyPaid | InvalidCycleState | CycleHasCreditNotes
    | InvalidCycleTransition | NothingToUpdate
    | CreditNoteReasonRequired | CreditNoteInvalidInvoiceState | CreditNoteInvalidLine | LineAlreadyCredited
    | VariablesAlreadyBilled

  /** An organization's client before its first movement. */
  function Empty(): State {
    State(Client(0, 0, 0, None, None, None), map[], [], [], [], map[], map[])
  }

  // ---------------------------------------------------------------- hours

  predicate Billable(kind: Kind) {
    kind.Usage? || kind.Loan?
  }

  function AddHours(s: State, hours: nat, today: Calendar.Day): State {
    var row := Row(Purchase, hours, None, None, None, None, today, false, None, None, None, None);
    s.(rows := s.rows + [row], client := s.client.(contracted := s.client.contracted + hours))
  }

  /** A confirmed time entry, as its event arrives. */
  datatype Confirm = Confirm(
    key: EntryKey,
    task: nat,
    seconds: int,
    legacy: bool,
    workedOn: Option<Calendar.Day>,
    today: Calendar.Day)

  predicate HasKey(rows: seq<Row>, key: EntryKey) {
    exists i :: 0 <= i < |rows| && rows[i].key == Some(key)
  }

  function HoursOf(seconds: nat): nat {
    Tax.RoundHalfUp(Tax.RoundHalfUp(seconds, 60) * 10000, 60)
  }

  /** A rate as it is typed, in cents: it may have any number of decimals. */
  datatype Fraction = Fraction(num: nat, den: Tax.Positive)

  /** Hours at a typed rate, rounded to the cent. */
  function PriceAt(hours: nat, rate: Fraction): nat {
    Tax.RoundHalfUp(Tax.Product(hours, rate.num), 10_000 * rate.den)
  }

  /** Hours at a rate of whole cents. */
  function PriceOf(hours: nat, rate: nat): nat {
    PriceAt(hours, Fraction(rate, 1))
  }

  /** What the rate column keeps of a typed rate: whole cents. */
  function Stored(rate: Fraction): nat {
    Tax.RoundHalfUp(rate.num, rate.den)
  }

  function ResolvedRate(s: State, task: Task): Option<nat> {
    if task.rate.Some? then task.rate
    else if task.kind.Support? then s.client.supportRate
    else None
  }

  /** The row a confirmation inserts, if it inserts one at all. */
  function ChargeRow(s: State, e: Confirm): Option<Row> {
    if e.legacy || e.seconds <= 0 || e.task !in s.tasks || s.tasks[e.task].kind.Project? then None
    else
      var task := s.tasks[e.task];
      var hours := HoursOf(e.seconds);
      var workedOn := if e.workedOn.Some? then e.workedOn else Some(e.today);
      if !task.billable then
        Some(Row(Internal, hours, Some(e.task), None, None, workedOn, e.today, false, None, Some(e.key), None, None))
      else
        var rate := ResolvedRate(s, task);
        var price := if rate.Some? then Some(PriceOf(hours, rate.value)) else None;
        var kind := if s.client.contracted - s.client.used <= 0 then Loan else Usage;
        Some(Row(kind, hours, Some(e.task), price, rate, workedOn, e.today, false, None, Some(e.key), None, None))
  }

  /** The counter that a movement of a kind moves, by the hours given. */
  function Move(client: Client, kind: Kind, hours: int): Client {
    match kind
    case Purchase => client.(contracted := client.contracted + hours)
    case Usage => client.(used := client.used + hours)
    case Loan => client.(loaned := client.loaned + hours)
    case Refund | Internal => client
  }

  function ConfirmEntry(s: State, e: Confirm): State {
    var row := ChargeRow(s, e);
    if row.None? || HasKey(s.rows, e.key) then s
    else s.(rows := s.rows + [row.value], client := Move(s.client, row.value.kind, row.value.hours))
  }

  /** A reverted time entry. Without a version, the event predates the keyed reversals. */
  datatype Revert = Revert(task: nat, entry: nat, version: Option<nat>, today: Calendar.Day)

  predicate Reverts(r: Row, e: Revert) {
    && r.task == Some(e.task)
    && Billable(r.kind)
    && !r.deleted
    && r.rebilledFrom.None?
    && (e.version.Some? ==> r.key == Some(EntryKey(e.entry, e.version.value)))
  }

  /** The newest charge the event points at. */
  function FindCharge(rows: seq<Row>, e: Revert): (found: Option<nat>)
    ensures found.Some? ==> found.value < |rows| && Reverts(rows[found.value], e)
    ensures found.Some? ==> forall i :: found.value < i < |rows| ==> !Reverts(rows[i], e)
    ensures found.None? ==> forall i :: 0 <= i < |rows| ==> !Reverts(rows[i], e)
  {
    if rows == [] then None
    else if Reverts(rows[|rows| - 1], e) then Some(|rows| - 1)
    else FindCharge(rows[..|rows| - 1], e)
  }

  predicate HasReversal(rows: seq<Row>, i: nat) {
    exists j :: 0 <= j < |rows| && rows[j].reverses == Some(i)
  }

  function RefundRow(charge: Row, i: nat, today: Calendar.Day): Row {
    var workedOn := if charge.workedOn.Some? then charge.workedOn else Some(charge.createdOn);
    Row(Refund, charge.hours, charge.task, None, None, workedOn, today, false, None, None, Some(i), None)
  }

  /** The refund, the tombstone and the counter move together, or not at all. */
  function RevertEntry(s: State, e: Revert): State {
    var found := FindCharge(s.rows, e);
    if found.None? || HasReversal(s.rows, found.value) then s
    else
      var i := found.value;
      var charge := s.rows[i];
      s.(rows := s.rows[i := charge.(deleted := true)] + [RefundRow(charge, i, e.today)],
         client := Move(s.client, charge.kind, 0 - charge.hours))
  }

  function DeleteHours(s: State, i: nat): Result<State, Error> {
    if i >= |s.rows| || s.rows[i].deleted then Err(TransactionNotFound)
    else
      var row := s.rows[i];
      var rows := s.rows[i := row.(deleted := true)];
      if row.billed.Some? then Err(TransactionBilled)
      else if row.rebilledFrom.Some? then Ok(s.(rows := rows))
      else if row.kind.Refund? then Err(if row.reverses.Some? then RefundNotDeletable else RefundOrphanNotDeletable)
      else Ok(s.(rows := rows, client := Move(s.client, row.kind, 0 - row.hours)))
  }

  /** An edit of the rate: leave it, or set it, where nothing and zero both clear it. */
  datatype RateEdit = Keep | Set(rate: Option<Fraction>)

  /** The rate an edit prices with: the one typed, or the one stored. */
  function EditedRate(row: Row, edit: RateEdit): Option<Fraction> {
    match edit
    case Keep => if row.rate.Some? then Some(Fraction(row.rate.value, 1)) else None
    case Set(rate) => if rate.Some? && rate.value.num > 0 then rate else None
  }

  /** A row after an edit: priced with the typed rate, of which the column keeps whole cents. */
  function EditedRow(row: Row, hours: Option<nat>, edit: RateEdit): Row {
    var newHours := if hours.Some? then hours.value else row.hours;
    var newRate := EditedRate(row, edit);
    row.(hours := newHours,
         rate := if edit.Keep? then row.rate else if newRate.Some? then Some(Stored(newRate.value)) else None,
         price := if newRate.Some? && newRate.value.num > 0 then Some(PriceAt(newHours, newRate.value)) else None)
  }

  function EditHours(s: State, i: nat, hours: Option<nat>, edit: RateEdit): Result<State, Error> {
    if i >= |s.rows| || s.rows[i].deleted then Err(TransactionNotFound)
    else
      var row := s.rows[i];
      if row.billed.Some? then Err(TransactionBilled)
      else if row.rebilledFrom.Some? then Err(MirrorRowReadonly)
      else if !Billable(row.kind) then Err(TransactionNotEditable)
      else if hours.None? && edit.Keep? then Err(NothingToEdit)
      else
        var edited := EditedRow(row, hours, edit);
        Ok(s.(rows := s.rows[i := edited], client := Move(s.client, row.kind, edited.hours - row.hours)))
  }

  // ---------------------------------------------------------------- variables

  function UpsertVariables(s: State, period: Calendar.Month, items: seq<Item>): Result<State, Error> {
    if period in s.statements && s.statements[period].billed.Some? then Err(VariablesAlreadyBilled)
    else Ok(s.(statements := s.statements[period := Statement(items, None)]))
  }

  function RemoveVariables(s: State, period: Calendar.Month): Result<State, Error> {
    if period in s.statements && s.statements[period].billed.Some? then Err(VariablesAlreadyBilled)
    else Ok(s.(statements := s.statements - {period}))
  }

  /** USD cents at a rate given in ten-thousandths, rounded to whole guaranies, in cents. */
  function Converted(usd: nat, rate: nat): nat {
    Tax.RoundHalfUp(Tax.Product(usd, rate), 1_000_000) * 100
  }

  /** The enabled items with a positive value, as invoice lines. */
  function ItemLines(period: Calendar.Month, items: seq<Item>, rate: nat): seq<VariableLine> {
    if items == [] then []
    else
      var item := items[|items| - 1];
      ItemLines(period, items[..|items| - 1], rate)
      + if item.enabled && item.commercial > 0
        then [VariableLine(period, item.name, item.commercial, Converted(item.commercial, rate))]
        else []
  }

  /** What a period has to bill: nothing once its statement is sealed. */
  function PeriodLines(statements: map<Calendar.Month, Statement>, period: Calendar.Month, rate: nat)
    : seq<VariableLine>
  {
    if period in statements && statements[period].billed.None?
    then ItemLines(period, statements[period].items, rate)
    else []
  }

  function CollectLines(statements: map<Calendar.Month, Statement>, periods: seq<Calendar.Month>, rate: nat)
    : seq<VariableLine>
  {
    if periods == [] then []
    else CollectLines(statements, periods[..|periods| - 1], rate)
         + PeriodLines(statements, periods[|periods| - 1], rate)
  }

  function ConvertedColumn(lines: seq<VariableLine>): (xs: seq<int>)
    ensures |xs| == |lines|
    ensures forall i :: 0 <= i < |xs| ==> xs[i] == lines[i].converted
  {
    seq(|lines|, i requires 0 <= i < |lines| => lines[i].converted)
  }

  function VariablesAmount(lines: seq<VariableLine>): int {
    Total(ConvertedColumn(lines))
  }

  // ---------------------------------------------------------------- invoices

  /** What an invoice covers: one nominal month, or months chosen by hand. */
  datatype Scope = OneMonth(period: Option<Calendar.Month>) | Chosen(months: seq<Calendar.Month>)

  datatype Window = Window(start: Calendar.Instant, end: Calendar.Instant, cutoff: Calendar.Instant)

  function Oldest(months: seq<Calendar.Month>): (m: Calendar.Month)
    requires months != []
    ensures m in months
    ensures forall i :: 0 <= i < |months| ==> m <= months[i]
  {
    var last := |months| - 1;
    if last == 0 then months[0]
    else
      var rest := Oldest(months[..last]);
      if months[last] < rest then months[last] else rest
  }

  function Latest(months: seq<Calendar.Month>): (m: Calendar.Month)
    requires months != []
    ensures m in months
    ensures forall i :: 0 <= i < |months| ==> months[i] <= m
  {
    var last := |months| - 1;
    if last == 0 then months[0]
    else
      var rest := Latest(months[..last]);
      if rest < months[last] then months[last] else rest
  }

  function ResolveWindow(scope: Scope, until: Option<Calendar.Instant>): Result<Window, Error> {
    match scope
    case OneMonth(period) =>
      if period.None? then Err(PeriodRequired)
      else
        var b := Calendar.PeriodBounds(period.value);
        if until.Some? && (until.value < b.start || until.value > b.end) then Err(InvalidUntil)
        else Ok(Window(b.start, b.end, if until.Some? then until.value else b.end))
    case Chosen(months) =>
      if months == [] then Err(MonthsRequired)
      else
        var latestEnd := Calendar.PeriodBounds(Latest(months)).end;
        var cutoff := if until.Some? && until.value <= latestEnd then until.value else latestEnd;
        Ok(Window(Calendar.PeriodBounds(Oldest(months)).start, cutoff, cutoff))
  }

  predicate CycleCloses(c: Cycle, month: Calendar.Month) {
    !c.status.Cancelled? && Calendar.Covers(Calendar.LocalMonth(c.start), Calendar.LocalMonth(c.end), month)
  }

  /** A month that some invoice in force covers. */
  predicate Closed(cycles: seq<Cycle>, month: Calendar.Month) {
    exists c :: 0 <= c < |cycles| && CycleCloses(cycles[c], month)
  }

  predicate InScope(cycles: seq<Cycle>, scope: Scope, month: Calendar.Month) {
    match scope
    case OneMonth(period) => period == Some(month) || Closed(cycles, month)
    case Chosen(months) => month in months
  }

  predicate IsSupport(s: State, r: Row) {
    r.task.Some? && r.task.value in s.tasks && s.tasks[r.task.value].kind.Support?
  }

  /** Live unbilled support work, priced or not. */
  predicate Unbilled(s: State, r: Row) {
    !r.deleted && r.billed.None? && Billable(r.kind) && IsSupport(s, r)
  }

  predicate Reached(s: State, scope: Scope, day: Calendar.Day, r: Row) {
    r.workedOn.Some? && r.workedOn.value <= day && InScope(s.cycles, scope, Calendar.MonthOf(r.workedOn.value))
  }

  /** The rows an invoice takes. */
  predicate Takes(s: State, scope: Scope, day: Calendar.Day, r: Row) {
    Unbilled(s, r) && r.price.Some? && Reached(s, scope, day, r)
  }

  predicate TakesAny(s: State, scope: Scope, day: Calendar.Day) {
    exists i :: 0 <= i < |s.rows| && Takes(s, scope, day, s.rows[i])
  }

  predicate Untariffed(s: State, scope: Scope, day: Calendar.Day) {
    exists i :: 0 <= i < |s.rows| &&
      Unbilled(s, s.rows[i]) && s.rows[i].price.None? && Reached(s, scope, day, s.rows[i])
  }

  predicate Undated(s: State) {
    exists i :: 0 <= i < |s.rows| && Unbilled(s, s.rows[i]) && s.rows[i].price.Some? && s.rows[i].workedOn.None?
  }

  /** A live refund that points at a row about to be billed. */
  predicate LiveReversal(s: State, scope: Scope, day: Calendar.Day) {
    exists j :: 0 <= j < |s.rows| && s.rows[j].kind.Refund? && !s.rows[j].deleted && s.rows[j].reverses.Some?
                && s.rows[j].reverses.value < |s.rows| && Takes(s, scope, day, s.rows[s.rows[j].reverses.value])
  }

  function Dedup(months: seq<Calendar.Month>): (r: seq<Calendar.Month>)
    ensures forall m :: m in r <==> m in months
    ensures forall i, j :: 0 <= i < j < |r| ==> r[i] != r[j]
  {
    if months == [] then []
    else
      assert months == months[..|months| - 1] + [months[|months| - 1]];
      var rest := Dedup(months[..|months| - 1]);
      if months[|months| - 1] in rest then rest else rest + [months[|months| - 1]]
  }

  function Periods(scope: Scope): seq<Calendar.Month> {
    match scope
    case OneMonth(period) => if period.Some? then [period.value] else []
    case Chosen(months) => Dedup(months)
  }

  /** The oldest working day among the rows taken. */
  function OldestTaken(s: State, scope: Scope, day: Calendar.Day, n: nat): (d: Option<Calendar.Day>)
    requires n <= |s.rows|
    ensures d.None? <==> forall i :: 0 <= i < n ==> !Takes(s, scope, day, s.rows[i])
    ensures d.Some? ==>
      forall i :: 0 <= i < n && Takes(s, scope, day, s.rows[i]) ==> d.value <= s.rows[i].workedOn.value
    ensures d.Some? ==> exists i :: 0 <= i < n && Takes(s, scope, day, s.rows[i]) && d.value == s.rows[i].workedOn.value
  {
    if n == 0 then None
    else
      var rest := OldestTaken(s, scope, day, n - 1);
      var r := s.rows[n - 1];
      if !Takes(s, scope, day, r) then rest
      else if rest.Some? && rest.value <= r.workedOn.value then rest
      else Some(r.workedOn.value)
  }

  /** Stamping: the rows taken carry the new cycle. */
  function Stamp(s: State, scope: Scope, day: Calendar.Day, c: nat): (rows: seq<Row>)
    ensures |rows| == |s.rows|
    ensures forall i :: 0 <= i < |rows| ==>
      rows[i] == if Takes(s, scope, day, s.rows[i]) then s.rows[i].(billed := Some(c)) else s.rows[i]
  {
    seq(|s.rows|, i requires 0 <= i < |s.rows| =>
      if Takes(s, scope, day, s.rows[i]) then s.rows[i].(billed := Some(c)) else s.rows[i])
  }

  /** Sealing: the statements that contribute a line carry the new cycle. */
  function Seal(statements: map<Calendar.Month, Statement>, periods: seq<Calendar.Month>, c: nat)
    : map<Calendar.Month, Statement>
  {
    map m | m in statements ::
      if m in periods && PeriodLines(statements, m, 0) != [] then statements[m].(billed := Some(c)) else statements[m]
  }

  function PriceIn(r: Row, c: nat): int {
    if r.billed == Some(c) && r.price.Some? then r.price.value else 0
  }

  function HoursIn(r: Row, c: nat): int {
    if r.billed == Some(c) then r.hours else 0
  }

  function PriceColumn(rows: seq<Row>, c: nat): (xs: seq<int>)
    ensures |xs| == |rows|
    ensures forall i :: 0 <= i < |xs| ==> xs[i] == PriceIn(rows[i], c)
  {
    seq(|rows|, i requires 0 <= i < |rows| => PriceIn(rows[i], c))
  }

  function HoursColumn(rows: seq<Row>, c: nat): (xs: seq<int>)
    ensures |xs| == |rows|
    ensures forall i :: 0 <= i < |xs| ==> xs[i] == HoursIn(rows[i], c)
  {
    seq(|rows|, i requires 0 <= i < |rows| => HoursIn(rows[i], c))
  }

  /** The aggregate over the rows stamped with a cycle, tombstones included. */
  function StampedAmount(rows: seq<Row>, c: nat): int {
    Total(PriceColumn(rows, c))
  }

  function StampedHours(rows: seq<Row>, c: nat): int {
    Total(HoursColumn(rows, c))
  }

  datatype CloseRequest = CloseRequest(
    scope: Scope,
    until: Option<Calendar.Instant>,
    exchangeRate: Option<nat>,
    notes: Option<string>,
    now: Calendar.Instant)

  /** The checks that run before the transaction; they agree on the window to bill. */
  function CheckClose(s: State, q: CloseRequest): Result<Window, Error> {
    var w :- ResolveWindow(q.scope, q.until);
    var day := Calendar.LocalDay(w.cutoff);
    if Untariffed(s, q.scope, day) then Err(SupportRateNotConfigured)
    else if Undated(s) then Err(BillableWithoutWorkedOn)
    else if LiveReversal(s, q.scope, day) then Err(BillableIntegrityViolation)
    else if !TakesAny(s, q.scope, day) && !HasVariables(s, q.scope) then Err(NothingToBill)
    else if HasVariables(s, q.scope) && (q.exchangeRate.None? || q.exchangeRate.value == 0)
    then Err(ExchangeRateRequired)
    else Ok(w)
  }

  predicate HasVariables(s: State, scope: Scope) {
    CollectLines(s.statements, Periods(scope), 0) != []
  }

  function RateOf(q: CloseRequest): nat {
    if q.exchangeRate.Some? then q.exchangeRate.value else 0
  }

  function BilledVariables(s: State, q: CloseRequest): seq<VariableLine> {
    CollectLines(s.statements, Periods(q.scope), RateOf(q))
  }

  /** The rate is stamped with the variables it converted, if there are any. */
  function StampedRate(s: State, q: CloseRequest): nat {
    if BilledVariables(s, q) != [] then RateOf(q) else 0
  }

  function CloseCycle(s: State, q: CloseRequest): Result<State, Error> {
    var w :- CheckClose(s, q);
    if !TakesAny(s, q.scope, Calendar.LocalDay(w.cutoff)) && VariablesAmount(BilledVariables(s, q)) <= 0
    then Err(NothingToBill)
    else Ok(Issue(s, q, w))
  }

  /** An invoice of chosen months starts at the oldest month it really bills. */
  function PeriodStart(s: State, scope: Scope, w: Window): Calendar.Instant {
    var oldest := OldestTaken(s, scope, Calendar.LocalDay(w.cutoff), |s.rows|);
    if scope.Chosen? && oldest.Some? then Calendar.PeriodBounds(Calendar.MonthOf(oldest.value)).start else w.start
  }

  /** The cycle as it is created, its totals still to be written. */
  function DraftCycle(s: State, q: CloseRequest, w: Window): Cycle {
    Cycle(Draft, if q.scope.Chosen? then Accumulated else Monthly, PeriodStart(s, q.scope, w), w.end, w.cutoff,
          0, Tax.Breakdown(None, None, 0), None, None, BilledVariables(s, q), StampedRate(s, q), q.notes, q.now,
          None, None, None)
  }

  /** The totals over what got stamped. The four tax columns are written together, or left empty together. */
  function Totalled(draft: Cycle, rows: seq<Row>, c: nat, client: Client): Cycle {
    var base := StampedAmount(rows, c) + VariablesAmount(draft.variables);
    var amounts := Tax.ComputeTax(base, client.taxRate, client.taxMode);
    draft.(hours := StampedHours(rows, c), amounts := amounts,
           taxRate := if amounts.net.Some? then client.taxRate else None,
           taxMode := if amounts.net.Some? then client.taxMode else None)
  }

  function Issue(s: State, q: CloseRequest, w: Window): State {
    var c := |s.cycles|;
    var rows := Stamp(s, q.scope, Calendar.LocalDay(w.cutoff), c);
    s.(rows := rows,
       cycles := s.cycles + [Totalled(DraftCycle(s, q, w), rows, c, s.client)],
       statements := Seal(s.statements, Periods(q.scope), c))
  }

  /** Releasing: the rows of a cycle carry no cycle any more. */
  function Release(rows: seq<Row>, c: nat): (r: seq<Row>)
    ensures |r| == |rows|
    ensures forall i :: 0 <= i < |r| ==> r[i] == if rows[i].billed == Some(c) then rows[i].(billed := None) else rows[i]
  {
    seq(|rows|, i requires 0 <= i < |rows| => if rows[i].billed == Some(c) then rows[i].(billed := None) else rows[i])
  }

  function Unseal(statements: map<Calendar.Month, Statement>, c: nat): map<Calendar.Month, Statement> {
    map m | m in statements ::
      if statements[m].billed == Some(c) then statements[m].(billed := None) else statements[m]
  }

  predicate HasNotes(notes: seq<CreditNote>, c: nat) {
    exists k :: 0 <= k < |notes| && notes[k].cycle == c
  }

  function ReopenCycle(s: State, c: nat, reason: string): Result<State, Error> {
    if c >= |s.cycles| then Err(CycleNotFound)
    else if s.cycles[c].status.Paid? then Err(CycleAlreadyPaid)
    else if !s.cycles[c].status.Draft? && !s.cycles[c].status.Sent? then Err(InvalidCycleState)
    else if HasNotes(s.notes, c) then Err(CycleHasCreditNotes)
    else Ok(s.(rows := Release(s.rows, c),
               statements := Unseal(s.statements, c),
               cycles := s.cycles[c := s.cycles[c].(status := Cancelled, cancelReason := Some(reason))]))
  }

  predicate ValidTransition(from: Status, to: Status) {
    match from
    case Draft => to.Sent?
    case Sent => to.Paid? || to.WrittenOff?
    case WrittenOff => to.Paid?
    case Paid | Cancelled => false
  }

  function UpdateCycle(s: State, c: nat, status: Option<Status>, notes: Option<string>, now: Calendar.Instant)
    : Result<State, Error>
  {
    if c >= |s.cycles| then Err(CycleNotFound)
    else
      var cycle := s.cycles[c];
      if status.Some? && !ValidTransition(cycle.status, status.value) then Err(InvalidCycleTransition)
      else if status.None? && notes.None? then Err(NothingToUpdate)
      else
        var moved :=
          if status.None? then cycle
          else cycle.(status := status.value,
                      sentAt := if status.value.Sent? then Some(now) else cycle.sentAt,
                      paidAt := if status.value.Paid? then Some(now) else cycle.paidAt);
        Ok(s.(cycles := s.cycles[c := moved.(notes := if notes.Some? then notes else moved.notes)]))
  }

  function WriteOffNotes(notes: Option<string>, reason: string): string {
    if notes.Some? && notes.value != "" then notes.value + "\n[Cerrada sin cobro] " + reason
    else "[Cerrada sin cobro] " + reason
  }

  function WriteOffCycle(s: State, c: nat, reason: string): Result<State, Error> {
    if c >= |s.cycles| then Err(CycleNotFound)
    else if !ValidTransition(s.cycles[c].status, WrittenOff) then Err(InvalidCycleTransition)
    else Ok(s.(cycles := s.cycles[c :=
      s.cycles[c].(status := WrittenOff, notes := Some(WriteOffNotes(s.cycles[c].notes, reason)))]))
  }

  // ---------------------------------------------------------------- credit notes

  predicate Creditable(s: State, c: nat, i: nat) {
    && i < |s.rows| && s.rows[i].billed == Some(c)
    && !s.rows[i].deleted && Billable(s.rows[i].kind) && s.rows[i].price.Some?
  }

  /** The distinct requested rows, when all of them can be credited on this invoice. */
  function ResolveLines(s: State, c: nat, ids: seq<nat>): (r: Result<seq<nat>, Error>)
    ensures r.Ok? <==>
      && c < |s.cycles| && AcceptsCredit(s.cycles[c].status)
      && forall k :: 0 <= k < |ids| ==> Creditable(s, c, ids[k]) && ids[k] !in s.lines
    ensures r.Ok? ==> forall k :: 0 <= k < |r.value| ==> Creditable(s, c, r.value[k]) && r.value[k] !in s.lines
    ensures r.Ok? ==> forall j, k :: 0 <= j < k < |r.value| ==> r.value[j] != r.value[k]
    ensures r.Ok? ==> forall i :: i in r.value <==> i in ids
  {
    if c >= |s.cycles| then Err(CycleNotFound)
    else if !AcceptsCredit(s.cycles[c].status) then Err(CreditNoteInvalidInvoiceState)
    else if exists k :: 0 <= k < |ids| && !Creditable(s, c, ids[k]) then Err(CreditNoteInvalidLine)
    else if exists k :: 0 <= k < |ids| && ids[k] in s.lines then Err(LineAlreadyCredited)
    else
      var unique := Distinct(ids);
      assert forall k :: 0 <= k < |unique| ==> unique[k] in ids;
      Ok(unique)
  }

  function Distinct(ids: seq<nat>): (r: seq<nat>)
    ensures forall i :: i in r <==> i in ids
    ensures forall j, k :: 0 <= j < k < |r| ==> r[j] != r[k]
  {
    if ids == [] then []
    else
      assert ids == ids[..|ids| - 1] + [ids[|ids| - 1]];
      var rest := Distinct(ids[..|ids| - 1]);
      if ids[|ids| - 1] in rest then rest else rest + [ids[|ids| - 1]]
  }

  predicate AcceptsCredit(status: Status) {
    status.Sent? || status.Paid? || status.WrittenOff?
  }

  function RequestedPrices(rows: seq<Row>, ids: seq<nat>): (xs: seq<int>)
    requires forall k :: 0 <= k < |ids| ==> ids[k] < |rows| && rows[ids[k]].price.Some?
    ensures |xs| == |ids|
    ensures forall k :: 0 <= k < |xs| ==> xs[k] == rows[ids[k]].price.value
  {
    seq(|ids|, k requires 0 <= k < |ids| => rows[ids[k]].price.value)
  }

  function RequestedHours(rows: seq<Row>, ids: seq<nat>): (xs: seq<int>)
    requires forall k :: 0 <= k < |ids| ==> ids[k] < |rows|
    ensures |xs| == |ids|
    ensures forall k :: 0 <= k < |xs| ==> xs[k] == rows[ids[k]].hours
  {
    seq(|ids|, k requires 0 <= k < |ids| => rows[ids[k]].hours)
  }

  function LineOf(r: Row, note: nat): CreditLine
    requires r.price.Some?
  {
    CreditLine(note, r.hours, r.price.value, r.rate, r.workedOn)
  }

  /** A billable copy of a credited row, free to be billed again. It moves no counter. */
  function Mirror(r: Row, i: nat, today: Calendar.Day): Row {
    Row(r.kind, r.hours, r.task, r.price, r.rate, r.workedOn, today, false, None, None, None, Some(i))
  }

  function Mirrors(rows: seq<Row>, ids: seq<nat>, today: Calendar.Day): (r: seq<Row>)
    requires forall k :: 0 <= k < |ids| ==> ids[k] < |rows|
    ensures |r| == |ids|
    ensures forall k :: 0 <= k < |r| ==> r[k] == Mirror(rows[ids[k]], ids[k], today)
  {
    seq(|ids|, k requires 0 <= k < |ids| => Mirror(rows[ids[k]], ids[k], today))
  }

  datatype CreditRequest = CreditRequest(
    cycle: nat,
    ids: seq<nat>,
    reason: string,
    returnHours: Option<bool>,
    today: Calendar.Day)

  predicate ReturnsHours(q: CreditRequest) {
    q.returnHours.None? || q.returnHours.value
  }

  /** The document a credit request produces: the tax is the invoice's, over the credited subtotal. */
  function NoteFor(s: State, q: CreditRequest, originals: seq<nat>): CreditNote
    requires q.cycle < |s.cycles|
    requires forall k :: 0 <= k < |originals| ==> Creditable(s, q.cycle, originals[k])
  {
    var cycle := s.cycles[q.cycle];
    assert forall k :: 0 <= k < |originals| ==> Creditable(s, q.cycle, originals[k]);
    var amounts := Tax.ComputeTax(Total(RequestedPrices(s.rows, originals)), cycle.taxRate, cycle.taxMode);
    CreditNote(
      q.cycle, q.reason, ReturnsHours(q), Tax.Negate(amounts), -Total(RequestedHours(s.rows, originals)),
      if amounts.net.Some? then cycle.taxRate else None,
      if amounts.net.Some? then cycle.taxMode else None)
  }

  function CreditLines(rows: seq<Row>, ids: seq<nat>, note: nat): map<nat, CreditLine>
    requires forall k :: 0 <= k < |ids| ==> ids[k] < |rows| && rows[ids[k]].price.Some?
  {
    map i | i in ids :: LineOf(rows[i], note)
  }

  /** The note, its frozen lines and, if the hours go back, a mirror for each. */
  function Credited(s: State, q: CreditRequest, originals: seq<nat>): State
    requires q.cycle < |s.cycles|
    requires forall k :: 0 <= k < |originals| ==> Creditable(s, q.cycle, originals[k])
  {
    assert forall k :: 0 <= k < |originals| ==> Creditable(s, q.cycle, originals[k]);
    s.(notes := s.notes + [NoteFor(s, q, originals)],
       lines := s.lines + CreditLines(s.rows, originals, |s.notes|),
       rows := if ReturnsHours(q) then s.rows + Mirrors(s.rows, originals, q.today) else s.rows)
  }

  function EmitCreditNote(s: State, q: CreditRequest): Result<State, Error> {
    if |q.reason| < 3 then Err(CreditNoteReasonRequired)
    else
      var originals :- ResolveLines(s, q.cycle, q.ids);
      Ok(Credited(s, q, originals))
  }

  // ---------------------------------------------------------------- runs

  datatype Op =
    | SetTask(id: nat, task: Task)
    | SetTerms(supportRate: Option<nat>, taxRate: Option<int>, taxMode: Option<string>)
    | OpAddHours(hours: nat, today: Calendar.Day)
    | OpConfirm(confirm: Confirm)
    | OpRevert(revert: Revert)
    | OpDelete(row: nat)
    | OpEdit(row: nat, newHours: Option<nat>, edit: RateEdit)
    | OpUpsert(period: Calendar.Month, items: seq<Item>)
    | OpRemove(period: Calendar.Month)
    | OpClose(close: CloseRequest)
    | OpReopen(cycle: nat, reason: string)
    | OpUpdate(cycle: nat, status: Option<Status>, notes: Option<string>, now: Calendar.Instant)
    | OpWriteOff(cycle: nat, reason: string)
    | OpCredit(credit: CreditRequest)

  function Step(s: State, op: Op): Result<State, Error> {
    match op
    case SetTask(id, task) => Ok(s.(tasks := s.tasks[id := task]))
    case SetTerms(supportRate, taxRate, taxMode) =>
      Ok(s.(client := s.client.(supportRate := supportRate, taxRate := taxRate, taxMode := taxMode)))
    case OpAddHours(hours, today) => Ok(AddHours(s, hours, today))
    case OpConfirm(e) => Ok(ConfirmEntry(s, e))
    case OpRevert(e) => Ok(RevertEntry(s, e))
    case OpDelete(i) => DeleteHours(s, i)
    case OpEdit(i, hours, edit) => EditHours(s, i, hours, edit)
    case OpUpsert(period, items) => UpsertVariables(s, period, items)
    case OpRemove(period) => RemoveVariables(s, period)
    case OpClose(q) => CloseCycle(s, q)
    case OpReopen(c, reason) => ReopenCycle(s, c, reason)
    case OpUpdate(c, status, notes, now) => UpdateCycle(s, c, status, notes, now)
    case OpWriteOff(c, reason) => WriteOffCycle(s, c, reason)
    case OpCredit(q) => EmitCreditNote(s, q)
  }

  /** A refused operation leaves the tables as they were. */
  function Apply(s: State, op: Op): State {
    var r := Step(s, op);
    if r.Ok? then r.value else s
  }

  /** A run of operations from a state. */
  function Replay(s: State, ops: seq<Op>): State {
    if ops == [] then s else Apply(Replay(s, ops[..|ops| - 1]), ops[|ops| - 1])
  }

  /** The state a run leads to from the empty ledger: the reachable states are these. */
  function After(ops: seq<Op>): State {
    Replay(Empty(), ops)
  }
}
