/** Which work and which variables an emission bills, said of the request and of the tables alone. */
module Selection {
  import opened Outcomes
  import opened Totals
  import opened Ledger
  import opened Invariants
  import opened Variables
  import Calendar
  import Refunds

  // ---------------------------------------------------------------- what a request asks for

  /** The months of a request. */
  predicate Asked(scope: Scope, m: Calendar.Month) {
    match scope
    case OneMonth(period) => period == Some(m)
    case Chosen(months) => m in months
  }

  ghost predicate LatestAsked(scope: Scope, m: Calendar.Month) {
    Asked(scope, m) && forall k :: Asked(scope, k) ==> k <= m
  }

  ghost predicate OldestAsked(scope: Scope, m: Calendar.Month) {
    Asked(scope, m) && forall k :: Asked(scope, k) ==> m <= k
  }

  /** Why the dates of a request are refused, if they are: no month at all, or a cutoff outside the month. */
  function DatesError(scope: Scope, until: Option<Calendar.Instant>): Option<Error> {
    if scope == OneMonth(None) then Some(PeriodRequired)
    else if scope == Chosen([]) then Some(MonthsRequired)
    else if scope.OneMonth? && until.Some? && !Asked(scope, Calendar.LocalMonth(until.value)) then Some(InvalidUntil)
    else None
  }

  /** The instant an emission cuts off at: the one asked for, but never beyond the end of the latest month. */
  ghost predicate CutsOffAt(scope: Scope, until: Option<Calendar.Instant>, cutoff: Calendar.Instant) {
    exists m :: LatestAsked(scope, m) &&
      cutoff == if until.Some? && until.value <= Calendar.PeriodBounds(m).end then until.value
                else Calendar.PeriodBounds(m).end
  }

  /** What a request resolves to: its error, or a window from its oldest month to its latest, or to the cutoff. */
  ghost predicate Spans(scope: Scope, until: Option<Calendar.Instant>, w: Window) {
    && CutsOffAt(scope, until, w.cutoff)
    && (exists m :: OldestAsked(scope, m) && w.start == Calendar.PeriodBounds(m).start)
    && EndsAt(scope, w.cutoff, w.end)
  }

  lemma WindowIsResolved(scope: Scope, until: Option<Calendar.Instant>)
    ensures match ResolveWindow(scope, until)
            case Ok(w) => DatesError(scope, until).None? && Spans(scope, until, w)
            case Err(e) => DatesError(scope, until) == Some(e)
  {
    match scope
    case OneMonth(period) =>
      if period.Some? {
        if until.Some? {
          Calendar.PeriodHoldsItsMonth(period.value, until.value);
        }
        assert LatestAsked(scope, period.value) && OldestAsked(scope, period.value);
      }
    case Chosen(months) =>
      if months != [] {
        assert LatestAsked(scope, Latest(months)) && OldestAsked(scope, Oldest(months));
      }
  }

  // ---------------------------------------------------------------- which work it bills

  /** An invoice in force spans the month; of a longer span only the first 240 months count. */
  predicate SpansMonth(c: Cycle, m: Calendar.Month) {
    var first, last := Calendar.LocalMonth(c.start), Calendar.LocalMonth(c.end);
    c.status != Cancelled && (m == first || (first < m <= last && m - first < 240))
  }

  predicate Spanned(cycles: seq<Cycle>, m: Calendar.Month) {
    exists c :: 0 <= c < |cycles| && SpansMonth(cycles[c], m)
  }

  /** The day is before the end of the latest month asked for, and not after the cutoff. */
  ghost predicate InTime(scope: Scope, until: Option<Calendar.Instant>, d: Calendar.Day) {
    && (exists m :: Asked(scope, m) && d < Calendar.MonthStart(m + 1))
    && (until.Some? ==> d <= Calendar.LocalDay(until.value))
  }

  /** The month is one asked for; an invoice of one month also reaches back to months already invoiced. */
  predicate InMonths(cycles: seq<Cycle>, scope: Scope, m: Calendar.Month) {
    Asked(scope, m) || (scope.OneMonth? && Spanned(cycles, m))
  }

  /** Support work that nobody has invoiced or taken back. */
  predicate OpenWork(s: State, r: Row) {
    && !r.deleted && r.billed.None? && (r.kind.Usage? || r.kind.Loan?)
    && r.task.Some? && r.task.value in s.tasks && s.tasks[r.task.value].kind == Support
  }

  ghost predicate InReach(s: State, scope: Scope, until: Option<Calendar.Instant>, r: Row) {
    && r.workedOn.Some? && InTime(scope, until, r.workedOn.value)
    && InMonths(s.cycles, scope, Calendar.MonthOf(r.workedOn.value))
  }

  /** A row that an emission of this request bills. */
  ghost predicate ToBill(s: State, scope: Scope, until: Option<Calendar.Instant>, r: Row) {
    OpenWork(s, r) && r.price.Some? && InReach(s, scope, until, r)
  }

  /** Work within reach that has no price. */
  ghost predicate WithoutPrice(s: State, scope: Scope, until: Option<Calendar.Instant>, r: Row) {
    OpenWork(s, r) && r.price.None? && InReach(s, scope, until, r)
  }

  lemma SpannedIsClosed(cycles: seq<Cycle>, m: Calendar.Month)
    ensures Spanned(cycles, m) <==> Closed(cycles, m)
  {
    forall c | 0 <= c < |cycles|
      ensures CycleCloses(cycles[c], m) <==> SpansMonth(cycles[c], m)
    {
    }
  }

  /** Some month asked for ends after a day exactly if the latest one does. */
  lemma LatestEndsLast(scope: Scope, m: Calendar.Month, d: Calendar.Day)
    requires LatestAsked(scope, m)
    ensures (exists k :: Asked(scope, k) && d < Calendar.MonthStart(k + 1)) <==> d < Calendar.MonthStart(m + 1)
  {
    if k :| Asked(scope, k) && d < Calendar.MonthStart(k + 1) {
      Calendar.MonthStartIsMonotone(k + 1, m + 1);
    }
  }

  lemma InTimeIsUpToTheCutoff(scope: Scope, until: Option<Calendar.Instant>, cutoff: Calendar.Instant, d: Calendar.Day)
    requires CutsOffAt(scope, until, cutoff)
    ensures InTime(scope, until, d) <==> d <= Calendar.LocalDay(cutoff)
  {
    var m :| LatestAsked(scope, m) &&
      cutoff == if until.Some? && until.value <= Calendar.PeriodBounds(m).end then until.value
                else Calendar.PeriodBounds(m).end;
    LatestEndsLast(scope, m, d);
    Calendar.PeriodEndsOnItsLastDay(m);
    if until.Some? {
      Calendar.LocalDayIsMonotone(until.value, Calendar.PeriodBounds(m).end);
    }
  }

  lemma ReachedExactly(s: State, scope: Scope, until: Option<Calendar.Instant>, w: Window, r: Row)
    requires ResolveWindow(scope, until) == Ok(w)
    ensures Reached(s, scope, Calendar.LocalDay(w.cutoff), r) <==> InReach(s, scope, until, r)
  {
    if r.workedOn.Some? {
      WindowIsResolved(scope, until);
      InTimeIsUpToTheCutoff(scope, until, w.cutoff, r.workedOn.value);
      SpannedIsClosed(s.cycles, Calendar.MonthOf(r.workedOn.value));
    }
  }

  /** The rows an emission takes are exactly those its request means. */
  lemma TakesExactly(s: State, scope: Scope, until: Option<Calendar.Instant>, w: Window, r: Row)
    requires ResolveWindow(scope, until) == Ok(w)
    ensures Takes(s, scope, Calendar.LocalDay(w.cutoff), r) <==> ToBill(s, scope, until, r)
  {
    ReachedExactly(s, scope, until, w, r);
  }

  // ---------------------------------------------------------------- the months of an invoice

  /** An invoice of chosen months ends at its cutoff, one of a single month at the end of that month. */
  ghost predicate EndsAt(scope: Scope, cutoff: Calendar.Instant, end: Calendar.Instant) {
    && (scope.Chosen? ==> end == cutoff)
    && (scope.OneMonth? ==> exists m :: LatestAsked(scope, m) && end == Calendar.PeriodBounds(m).end)
  }

  ghost predicate OldestWork(s: State, scope: Scope, until: Option<Calendar.Instant>, i: nat) {
    && i < |s.rows| && ToBill(s, scope, until, s.rows[i])
    && forall k :: 0 <= k < |s.rows| && ToBill(s, scope, until, s.rows[k]) ==>
         s.rows[i].workedOn.value <= s.rows[k].workedOn.value
  }

  /** An invoice starts with the first month asked for; one of chosen months, with the first month it has work of. */
  ghost predicate StartsAt(s: State, scope: Scope, until: Option<Calendar.Instant>, start: Calendar.Instant) {
    if scope.Chosen? && FindsWork(s, scope, until)
    then exists i: nat :: OldestWork(s, scope, until, i)
           && start == Calendar.PeriodBounds(Calendar.MonthOf(s.rows[i].workedOn.value)).start
    else exists m :: OldestAsked(scope, m) && start == Calendar.PeriodBounds(m).start
  }

  lemma StartIsResolved(s: State, scope: Scope, until: Option<Calendar.Instant>, w: Window)
    requires ResolveWindow(scope, until) == Ok(w)
    ensures StartsAt(s, scope, until, PeriodStart(s, scope, w))
  {
    var day := Calendar.LocalDay(w.cutoff);
    WindowIsResolved(scope, until);
    FoundExactly(s, scope, until, w);
    if scope.Chosen? && FindsWork(s, scope, until) {
      forall k | 0 <= k < |s.rows|
        ensures Takes(s, scope, day, s.rows[k]) <==> ToBill(s, scope, until, s.rows[k])
      {
        TakesExactly(s, scope, until, w, s.rows[k]);
      }
      var oldest := OldestTaken(s, scope, day, |s.rows|).value;
      var i :| 0 <= i < |s.rows| && Takes(s, scope, day, s.rows[i]) && oldest == s.rows[i].workedOn.value;
      assert OldestWork(s, scope, until, i);
    }
  }

  // ---------------------------------------------------------------- which variables it bills

  ghost predicate AskedAndOpen(s: State, scope: Scope, m: Calendar.Month) {
    Asked(scope, m) && OpenMonth(s.statements, m)
  }

  lemma PeriodsAreAsked(scope: Scope)
    ensures forall m :: m in Periods(scope) <==> Asked(scope, m)
    ensures forall i, j :: 0 <= i < j < |Periods(scope)| ==> Periods(scope)[i] != Periods(scope)[j]
  {
  }

  lemma VariablesExactly(s: State, scope: Scope)
    ensures HasVariables(s, scope) <==> exists m :: AskedAndOpen(s, scope, m)
  {
    PeriodsAreAsked(scope);
    SomethingIsCollected(s.statements, Periods(scope), 0);
    if HasVariables(s, scope) {
      var m :| m in Periods(scope) && OpenMonth(s.statements, m);
      assert AskedAndOpen(s, scope, m);
    }
    if m :| AskedAndOpen(s, scope, m) {
      assert m in Periods(scope) && OpenMonth(s.statements, m);
    }
  }

  /** At a rate, the variables asked for come to something. */
  ghost predicate VariablesWeigh(s: State, scope: Scope, rate: nat) {
    exists m :: Asked(scope, m) && WeighingItem(s.statements, m, rate)
  }

  lemma VariablesWeighExactly(s: State, scope: Scope, rate: nat)
    ensures VariablesAmount(CollectLines(s.statements, Periods(scope), rate)) > 0 <==> VariablesWeigh(s, scope, rate)
  {
    PeriodsAreAsked(scope);
    CollectedAmount(s.statements, Periods(scope), rate);
    if m :| m in Periods(scope) && WeighingItem(s.statements, m, rate) {
      assert Asked(scope, m);
    }
    if m :| Asked(scope, m) && WeighingItem(s.statements, m, rate) {
      assert m in Periods(scope);
    }
  }

  // ---------------------------------------------------------------- what an emission answers

  /** What the request finds: work to bill, work without a price, variables to bill. */
  ghost predicate FindsWork(s: State, scope: Scope, until: Option<Calendar.Instant>) {
    exists i :: 0 <= i < |s.rows| && ToBill(s, scope, until, s.rows[i])
  }

  ghost predicate FindsUnpriced(s: State, scope: Scope, until: Option<Calendar.Instant>) {
    exists i :: 0 <= i < |s.rows| && WithoutPrice(s, scope, until, s.rows[i])
  }

  ghost predicate FindsVariables(s: State, scope: Scope) {
    exists m :: AskedAndOpen(s, scope, m)
  }

  /** Priced open work without a day: it has no month, so it blocks every emission. */
  predicate FindsUndated(s: State) {
    exists i :: 0 <= i < |s.rows| && OpenWork(s, s.rows[i]) && s.rows[i].price.Some? && s.rows[i].workedOn.None?
  }

  /** A live refund of a row that would be billed. */
  ghost predicate FindsLiveRefund(s: State, scope: Scope, until: Option<Calendar.Instant>) {
    exists j, i: nat :: 0 <= j < |s.rows| && s.rows[j].kind == Refund && !s.rows[j].deleted
      && s.rows[j].reverses == Some(i) && i < |s.rows| && ToBill(s, scope, until, s.rows[i])
  }

  lemma FlagsExactly(s: State, scope: Scope, until: Option<Calendar.Instant>, w: Window)
    requires ResolveWindow(scope, until) == Ok(w)
    ensures Undated(s) <==> FindsUndated(s)
    ensures LiveReversal(s, scope, Calendar.LocalDay(w.cutoff)) <==> FindsLiveRefund(s, scope, until)
  {
    assert forall i :: 0 <= i < |s.rows| ==> (Unbilled(s, s.rows[i]) <==> OpenWork(s, s.rows[i]));
    forall i | 0 <= i < |s.rows|
      ensures Takes(s, scope, Calendar.LocalDay(w.cutoff), s.rows[i]) <==> ToBill(s, scope, until, s.rows[i])
    {
      TakesExactly(s, scope, until, w, s.rows[i]);
    }
    if LiveReversal(s, scope, Calendar.LocalDay(w.cutoff)) {
      var j :| 0 <= j < |s.rows| && s.rows[j].kind.Refund? && !s.rows[j].deleted && s.rows[j].reverses.Some?
        && s.rows[j].reverses.value < |s.rows|
        && Takes(s, scope, Calendar.LocalDay(w.cutoff), s.rows[s.rows[j].reverses.value]);
      assert s.rows[j].reverses == Some(s.rows[j].reverses.value);
    }
  }

  /** The answer to an emission, in the order of the checks; nothing else refuses one on a sound ledger. */
  ghost function EmissionError(s: State, q: CloseRequest): Option<Error> {
    var work, variables := FindsWork(s, q.scope, q.until), FindsVariables(s, q.scope);
    var rate := if q.exchangeRate.Some? then q.exchangeRate.value else 0;
    if DatesError(q.scope, q.until).Some? then DatesError(q.scope, q.until)
    else if FindsUnpriced(s, q.scope, q.until) then Some(SupportRateNotConfigured)
    else if !work && !variables then Some(NothingToBill)
    else if variables && rate == 0 then Some(ExchangeRateRequired)
    else if !work && !VariablesWeigh(s, q.scope, rate) then Some(NothingToBill)
    else None
  }

  lemma FoundExactly(s: State, scope: Scope, until: Option<Calendar.Instant>, w: Window)
    requires ResolveWindow(scope, until) == Ok(w)
    ensures TakesAny(s, scope, Calendar.LocalDay(w.cutoff)) <==> FindsWork(s, scope, until)
    ensures Untariffed(s, scope, Calendar.LocalDay(w.cutoff)) <==> FindsUnpriced(s, scope, until)
  {
    var day := Calendar.LocalDay(w.cutoff);
    forall i | 0 <= i < |s.rows|
      ensures Takes(s, scope, day, s.rows[i]) <==> ToBill(s, scope, until, s.rows[i])
      ensures Unbilled(s, s.rows[i]) && s.rows[i].price.None? && Reached(s, scope, day, s.rows[i]) <==>
              WithoutPrice(s, scope, until, s.rows[i])
    {
      ReachedExactly(s, scope, until, w, s.rows[i]);
    }
  }

  /** The error of a result, if it is one. */
  function ErrorOf(r: Result<State, Error>): Option<Error> {
    if r.Ok? then None else Some(r.error)
  }

  lemma CheckedInOrder(s: State, q: CloseRequest, w: Window)
    requires ResolveWindow(q.scope, q.until) == Ok(w)
    requires !Undated(s) && !LiveReversal(s, q.scope, Calendar.LocalDay(w.cutoff))
    ensures var day := Calendar.LocalDay(w.cutoff);
            ErrorOf(CloseCycle(s, q)) ==
              if Untariffed(s, q.scope, day) then Some(SupportRateNotConfigured)
              else if !TakesAny(s, q.scope, day) && !HasVariables(s, q.scope) then Some(NothingToBill)
              else if HasVariables(s, q.scope) && RateOf(q) == 0 then Some(ExchangeRateRequired)
              else if !TakesAny(s, q.scope, day) && VariablesAmount(BilledVariables(s, q)) <= 0
              then Some(NothingToBill)
              else None
  {
  }

  /** On a sound ledger, an emission answers exactly that. */
  lemma EmissionAnswers(s: State, q: CloseRequest)
    requires RowsOk(s)
    ensures ErrorOf(CloseCycle(s, q)) == EmissionError(s, q)
  {
    WindowIsResolved(q.scope, q.until);
    if ResolveWindow(q.scope, q.until).Ok? {
      var w := ResolveWindow(q.scope, q.until).value;
      Refunds.NothingUndated(s);
      Refunds.NoLiveReversal(s, q.scope, Calendar.LocalDay(w.cutoff));
      CheckedInOrder(s, q, w);
      FoundExactly(s, q.scope, q.until, w);
      VariablesExactly(s, q.scope);
      VariablesWeighExactly(s, q.scope, RateOf(q));
    }
  }
}
