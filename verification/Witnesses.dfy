/** Runs that reach the states in which the weaker promises fail. */
module Witnesses {
  import opened Outcomes
  import opened Totals
  import opened Ledger
  import opened Invariants
  import opened Reentry
  import opened Journal
  import opened Store
  import Calendar
  import Refunds

  /** Entries of so many seconds on one support task with a rate. */
  datatype Work = Work(seconds: nat, rate: nat)

  function TheTask(w: Work): Op {
    SetTask(0, Task(Support, true, Some(w.rate)))
  }

  function Worked(w: Work, entry: nat, day: Calendar.Day): Op {
    OpConfirm(Confirm(EntryKey(entry, 1), 0, w.seconds, false, Some(day), 0))
  }

  /** The row of such an entry, beyond the contracted hours. */
  function WorkRow(w: Work, entry: nat, day: Calendar.Day, billed: Option<nat>): Row {
    var hours := HoursOf(w.seconds);
    Row(Loan, hours, Some(0), Some(PriceOf(hours, w.rate)), Some(w.rate), Some(day), 0, false, billed,
        Some(EntryKey(entry, 1)), None, None)
  }

  /** A ledger that has that task, no contracted hours and no variables. */
  predicate Plain(s: State, w: Work) {
    && s.tasks == map[0 := Task(Support, true, Some(w.rate))] && s.statements == map[]
    && s.client.contracted == s.client.used == 0
  }

  lemma TaskStep(w: Work)
    ensures var s := After([TheTask(w)]);
            Plain(s, w) && s.rows == [] && s.cycles == [] && s.notes == [] && s.lines == map[]
  {
    RunGrows([], TheTask(w));
    assert [] + [TheTask(w)] == [TheTask(w)];
  }

  lemma WorkStep(ops: seq<Op>, w: Work, entry: nat, day: Calendar.Day)
    requires Plain(After(ops), w) && w.seconds > 0 && !HasKey(After(ops).rows, EntryKey(entry, 1))
    ensures var s, t := After(ops), After(ops + [Worked(w, entry, day)]);
            && Plain(t, w) && t.rows == s.rows + [WorkRow(w, entry, day, None)]
            && t.cycles == s.cycles && t.notes == s.notes && t.lines == s.lines
  {
    RunGrows(ops, Worked(w, entry, day));
  }

  // ---------------------------------------------------------------- an unkeyed reversal, twice

  /** Two charges of one task, and a reversal without a version: its second delivery takes the other charge. */
  lemma SecondDeliveryActs(w: Work)
    requires w.seconds > 0
    ensures var s := After([TheTask(w), Worked(w, 1, 0), Worked(w, 2, 0)]);
            var e := Revert(0, 2, None, 0);
            RevertEntry(RevertEntry(s, e), e) != RevertEntry(s, e)
  {
    TaskStep(w);
    WorkStep([TheTask(w)], w, 1, 0);
    assert [TheTask(w)] + [Worked(w, 1, 0)] == [TheTask(w), Worked(w, 1, 0)];
    WorkStep([TheTask(w), Worked(w, 1, 0)], w, 2, 0);
    var ops := [TheTask(w), Worked(w, 1, 0), Worked(w, 2, 0)];
    assert [TheTask(w), Worked(w, 1, 0)] + [Worked(w, 2, 0)] == ops;
    var rows := After(ops).rows;
    assert rows == [WorkRow(w, 1, 0, None), WorkRow(w, 2, 0, None)];
    assert Reverts(rows[1], Revert(0, 2, None, 0)) && Reverts(rows[0], Revert(0, 2, None, 0));
    Refunds.UnkeyedRevertRepeats(ops, Revert(0, 2, None, 0), 1);
  }

  // ---------------------------------------------------------------- emissions of such work

  lemma {:induction false} NothingStated(periods: seq<Calendar.Month>, rate: nat)
    ensures CollectLines(map[], periods, rate) == []
  {
    if periods != [] {
      NothingStated(periods[..|periods| - 1], rate);
    }
  }

  /** All rows are priced, dated and no refunds. */
  predicate Orderly(rows: seq<Row>) {
    forall k {:trigger rows[k]} :: 0 <= k < |rows| ==>
      rows[k].price.Some? && rows[k].workedOn.Some? && !rows[k].kind.Refund?
  }

  lemma NothingBlocks(s: State, scope: Scope, day: Calendar.Day)
    requires Orderly(s.rows)
    ensures !Untariffed(s, scope, day) && !Undated(s) && !LiveReversal(s, scope, day)
  {
  }

  /** Orderly rows, some of them in scope, and no variables: the emission goes through. */
  lemma EmissionGoesThrough(s: State, q: CloseRequest, w: Window, i: nat)
    requires ResolveWindow(q.scope, q.until) == Ok(w) && s.statements == map[] && Orderly(s.rows)
    requires i < |s.rows| && Takes(s, q.scope, Calendar.LocalDay(w.cutoff), s.rows[i])
    ensures CloseCycle(s, q) == Ok(Issue(s, q, w))
  {
    NothingStated(Periods(q.scope), 0);
    NothingBlocks(s, q.scope, Calendar.LocalDay(w.cutoff));
    assert TakesAny(s, q.scope, Calendar.LocalDay(w.cutoff));
    assert CheckClose(s, q) == Ok(w);
  }

  lemma MonthStartsInIt(m: Calendar.Month)
    ensures Calendar.MonthOf(Calendar.MonthStart(m)) == m
    ensures var b := Calendar.PeriodBounds(m);
            Calendar.LocalMonth(b.start) == m == Calendar.LocalMonth(b.end) && b.start <= b.end
  {
    Calendar.MonthsAreConsecutive(m);
    Calendar.MonthOfIsUnique(Calendar.MonthStart(m), m);
    Calendar.PeriodHoldsItsMonth(m, Calendar.PeriodBounds(m).start);
    Calendar.PeriodHoldsItsMonth(m, Calendar.PeriodBounds(m).end);
  }

  // ---------------------------------------------------------------- an invoice of more than 240 months

  function ChosenRequest(first: Calendar.Month, last: Calendar.Month): CloseRequest {
    CloseRequest(Chosen([first, last]), None, None, None, 0)
  }

  function LongRun(w: Work, first: Calendar.Month, last: Calendar.Month): seq<Op> {
    LongWork(w, first, last) + [OpClose(ChosenRequest(first, last))]
  }

  /** One row on the first day of each of the two months. */
  predicate TwoEnds(s: State, w: Work, first: Calendar.Month, last: Calendar.Month) {
    && Plain(s, w) && s.cycles == []
    && s.rows == [WorkRow(w, 1, Calendar.MonthStart(first), None), WorkRow(w, 2, Calendar.MonthStart(last), None)]
  }

  function LongWindow(first: Calendar.Month, last: Calendar.Month): Window {
    var end := Calendar.PeriodBounds(last).end;
    Window(Calendar.PeriodBounds(first).start, end, end)
  }

  lemma LongWindowResolves(first: Calendar.Month, last: Calendar.Month)
    requires first < last
    ensures ResolveWindow(Chosen([first, last]), None) == Ok(LongWindow(first, last))
  {
    MonthStartsInIt(first);
    MonthStartsInIt(last);
    Calendar.MonthStartIsMonotone(first, last);
  }

  lemma OldestOfTwo(s: State, w: Work, first: Calendar.Month, last: Calendar.Month, scope: Scope, day: Calendar.Day)
    requires TwoEnds(s, w, first, last) && first < last
    requires Takes(s, scope, day, s.rows[0]) && Takes(s, scope, day, s.rows[1])
    ensures OldestTaken(s, scope, day, 2) == Some(Calendar.MonthStart(first))
  {
    Calendar.MonthStartIsMonotone(first, last);
    assert OldestTaken(s, scope, day, 1) == Some(Calendar.MonthStart(first));
  }

  lemma LongTakes(s: State, w: Work, first: Calendar.Month, last: Calendar.Month)
    requires TwoEnds(s, w, first, last) && first < last
    ensures var day := Calendar.LocalDay(LongWindow(first, last).cutoff);
            && Takes(s, Chosen([first, last]), day, s.rows[0]) && Takes(s, Chosen([first, last]), day, s.rows[1])
  {
    MonthStartsInIt(first);
    MonthStartsInIt(last);
    EndOfMonthReachesEveryDay(Calendar.MonthStart(first), last);
    EndOfMonthReachesEveryDay(Calendar.MonthStart(last), last);
    assert first in [first, last] && last in [first, last];
  }

  lemma LongIssue(s: State, w: Work, first: Calendar.Month, last: Calendar.Month)
    requires TwoEnds(s, w, first, last) && first < last
    requires Takes(s, Chosen([first, last]), Calendar.LocalDay(LongWindow(first, last).cutoff), s.rows[0])
    requires Takes(s, Chosen([first, last]), Calendar.LocalDay(LongWindow(first, last).cutoff), s.rows[1])
    ensures var t := Issue(s, ChosenRequest(first, last), LongWindow(first, last));
            && |t.rows| == 2 && |t.cycles| == 1
            && t.rows[1] == WorkRow(w, 2, Calendar.MonthStart(last), Some(0))
            && t.cycles[0].kind.Accumulated? && Calendar.LocalMonth(t.cycles[0].start) == first
  {
    OldestOfTwo(s, w, first, last, Chosen([first, last]), Calendar.LocalDay(LongWindow(first, last).cutoff));
    MonthStartsInIt(first);
  }

  lemma LongEmission(s: State, w: Work, first: Calendar.Month, last: Calendar.Month)
    requires TwoEnds(s, w, first, last) && first < last
    ensures var r := CloseCycle(s, ChosenRequest(first, last));
            && r.Ok? && |r.value.rows| == 2 && |r.value.cycles| == 1
            && r.value.rows[1] == WorkRow(w, 2, Calendar.MonthStart(last), Some(0))
            && r.value.cycles[0].kind.Accumulated? && Calendar.LocalMonth(r.value.cycles[0].start) == first
  {
    LongWindowResolves(first, last);
    LongTakes(s, w, first, last);
    EmissionGoesThrough(s, ChosenRequest(first, last), LongWindow(first, last), 0);
    LongIssue(s, w, first, last);
  }

  function LongWork(w: Work, first: Calendar.Month, last: Calendar.Month): seq<Op> {
    [TheTask(w)] + [Worked(w, 1, Calendar.MonthStart(first))] + [Worked(w, 2, Calendar.MonthStart(last))]
  }

  lemma LongWorkIsUnbilled(w: Work, first: Calendar.Month, last: Calendar.Month)
    requires w.seconds > 0
    ensures TwoEnds(After(LongWork(w, first, last)), w, first, last)
  {
    TaskStep(w);
    WorkStep([TheTask(w)], w, 1, Calendar.MonthStart(first));
    WorkStep([TheTask(w)] + [Worked(w, 1, Calendar.MonthStart(first))], w, 2, Calendar.MonthStart(last));
  }

  lemma LongInvoice(w: Work, first: Calendar.Month, last: Calendar.Month)
    requires w.seconds > 0 && first < last
    ensures var s := After(LongRun(w, first, last));
            && |s.rows| == 2 && |s.cycles| == 1 && s.rows[1] == WorkRow(w, 2, Calendar.MonthStart(last), Some(0))
            && s.cycles[0].kind.Accumulated? && Calendar.LocalMonth(s.cycles[0].start) == first
  {
    LongWorkIsUnbilled(w, first, last);
    LongEmission(After(LongWork(w, first, last)), w, first, last);
    EmissionStep(LongWork(w, first, last), ChosenRequest(first, last));
  }

  lemma EmissionStep(ops: seq<Op>, q: CloseRequest)
    requires CloseCycle(After(ops), q).Ok?
    ensures After(ops + [OpClose(q)]) == CloseCycle(After(ops), q).value
  {
    RunGrows(ops, OpClose(q));
    EmissionSettles(After(ops), q, CloseCycle(After(ops), q).value, None);
  }

  /** The one invoice of such a run stamped a row of its last month, and does not close that month. */
  predicate StaysOpen(s: State, last: Calendar.Month) {
    && |s.rows| == 2 && |s.cycles| == 1 && s.rows[1].billed == Some(0) && s.rows[1].workedOn.Some?
    && Calendar.MonthOf(s.rows[1].workedOn.value) == last && !Closed(s.cycles, last)
  }

  lemma LongStaysOpen(ops: seq<Op>, w: Work, first: Calendar.Month, last: Calendar.Month)
    requires var s := After(ops);
             && |s.rows| == 2 && |s.cycles| == 1 && s.rows[1] == WorkRow(w, 2, Calendar.MonthStart(last), Some(0))
             && s.cycles[0].kind.Accumulated? && Calendar.LocalMonth(s.cycles[0].start) == first
    requires last >= first + Calendar.MAX_MONTHS
    ensures StaysOpen(After(ops), last)
  {
    MonthStartsInIt(last);
    ChosenMonthsAreClosed(ops, 1);
    OnlyCycleDecides(After(ops), last);
  }

  lemma OnlyCycleDecides(s: State, m: Calendar.Month)
    requires |s.cycles| == 1
    ensures Closed(s.cycles, m) <==> CycleCloses(s.cycles[0], m)
  {
  }

  /** An invoice that spans more than 240 months stamps a row of its last month, and does not close that month. */
  lemma LastMonthStaysOpen(w: Work, first: Calendar.Month, last: Calendar.Month)
    requires w.seconds > 0 && last >= first + Calendar.MAX_MONTHS
    ensures StaysOpen(After(LongRun(w, first, last)), last)
  {
    LongInvoice(w, first, last);
    LongStaysOpen(LongRun(w, first, last), w, first, last);
  }

  // ---------------------------------------------------------------- a mirror out of reach

  function MonthlyRequest(k: Calendar.Month): CloseRequest {
    CloseRequest(OneMonth(Some(k)), None, None, None, 0)
  }

  /** Work of the first day of a month: the row of each entry is at its place. */
  predicate WorkOf(s: State, w: Work, m: Calendar.Month) {
    && Plain(s, w) && s.notes == [] && s.lines == map[]
    && forall i {:trigger s.rows[i]} :: 0 <= i < |s.rows| ==>
         s.rows[i] == WorkRow(w, i, Calendar.MonthStart(m), s.rows[i].billed)
  }

  lemma MonthlyTakes(s: State, w: Work, m: Calendar.Month, k: Calendar.Month, i: nat)
    requires WorkOf(s, w, m) && m <= k && (k == m || Closed(s.cycles, m)) && i < |s.rows|
    ensures Takes(s, OneMonth(Some(k)), Calendar.LocalDay(Calendar.PeriodBounds(k).end), s.rows[i]) <==>
            s.rows[i].billed.None?
  {
    MonthStartsInIt(m);
    EndOfMonthReachesEveryDay(Calendar.MonthStart(m), k);
    assert s.rows[i] == WorkRow(w, i, Calendar.MonthStart(m), s.rows[i].billed);
  }

  /** The last row is unbilled, the others are not. */
  predicate LastIsUnbilled(rows: seq<Row>) {
    |rows| > 0 && rows[|rows| - 1].billed.None? && forall i :: 0 <= i < |rows| - 1 ==> rows[i].billed.Some?
  }

  function WholeMonth(k: Calendar.Month): Window {
    Window(Calendar.PeriodBounds(k).start, Calendar.PeriodBounds(k).end, Calendar.PeriodBounds(k).end)
  }

  /** The emission of a month that reaches the work takes what is unbilled, here the last row. */
  lemma MonthlyStamps(s: State, w: Work, m: Calendar.Month, k: Calendar.Month)
    requires WorkOf(s, w, m) && m <= k && (k == m || Closed(s.cycles, m)) && LastIsUnbilled(s.rows)
    ensures Issue(s, MonthlyRequest(k), WholeMonth(k)).rows
         == s.rows[|s.rows| - 1 := WorkRow(w, |s.rows| - 1, Calendar.MonthStart(m), Some(|s.cycles|))]
  {
    var after := Issue(s, MonthlyRequest(k), WholeMonth(k)).rows;
    forall i | 0 <= i < |s.rows|
      ensures after[i] == if s.rows[i].billed.None? then s.rows[i].(billed := Some(|s.cycles|)) else s.rows[i]
    {
      MonthlyTakes(s, w, m, k, i);
    }
  }

  lemma MonthlyCycle(s: State, k: Calendar.Month)
    ensures var t := Issue(s, MonthlyRequest(k), WholeMonth(k));
            && |t.cycles| == |s.cycles| + 1 && Grows(s.cycles, t.cycles) && t.cycles[|s.cycles|].status.Draft?
            && Calendar.LocalMonth(t.cycles[|s.cycles|].start) == k == Calendar.LocalMonth(t.cycles[|s.cycles|].end)
  {
    MonthStartsInIt(k);
  }

  lemma MonthlyEmission(s: State, w: Work, m: Calendar.Month, k: Calendar.Month)
    requires WorkOf(s, w, m) && m <= k && (k == m || Closed(s.cycles, m)) && LastIsUnbilled(s.rows)
    ensures CloseCycle(s, MonthlyRequest(k)) == Ok(Issue(s, MonthlyRequest(k), WholeMonth(k)))
  {
    MonthStartsInIt(k);
    MonthlyTakes(s, w, m, k, |s.rows| - 1);
    assert ResolveWindow(OneMonth(Some(k)), None) == Ok(WholeMonth(k));
    EmissionGoesThrough(s, MonthlyRequest(k), WholeMonth(k), |s.rows| - 1);
  }

  /** What such an emission leaves. */
  predicate Invoiced(s: State, t: State, w: Work, m: Calendar.Month, k: Calendar.Month) {
    && WorkOf(t, w, m) && |s.rows| > 0
    && t.rows == s.rows[|s.rows| - 1 := WorkRow(w, |s.rows| - 1, Calendar.MonthStart(m), Some(|s.cycles|))]
    && |t.cycles| == |s.cycles| + 1 && t.cycles[..|s.cycles|] == s.cycles && t.cycles[|s.cycles|].status.Draft?
    && Calendar.LocalMonth(t.cycles[|s.cycles|].start) == k == Calendar.LocalMonth(t.cycles[|s.cycles|].end)
  }

  lemma MonthlyInvoice(s: State, w: Work, m: Calendar.Month, k: Calendar.Month)
    requires WorkOf(s, w, m) && m <= k && (k == m || Closed(s.cycles, m)) && LastIsUnbilled(s.rows)
    ensures Invoiced(s, Issue(s, MonthlyRequest(k), WholeMonth(k)), w, m, k)
  {
    MonthlyStamps(s, w, m, k);
    MonthlyCycle(s, k);
  }

  lemma CloseStep(ops: seq<Op>, w: Work, m: Calendar.Month, k: Calendar.Month)
    requires WorkOf(After(ops), w, m) && LastIsUnbilled(After(ops).rows)
    requires m <= k && (k == m || Closed(After(ops).cycles, m))
    ensures Invoiced(After(ops), After(ops + [OpClose(MonthlyRequest(k))]), w, m, k)
  {
    MonthlyEmission(After(ops), w, m, k);
    EmissionStep(ops, MonthlyRequest(k));
    MonthlyInvoice(After(ops), w, m, k);
  }

  /** One more entry of the month. */
  lemma EntryStep(ops: seq<Op>, w: Work, m: Calendar.Month)
    requires WorkOf(After(ops), w, m) && w.seconds > 0
    requires forall i :: 0 <= i < |After(ops).rows| ==> After(ops).rows[i].billed.Some?
    ensures var n, s := |After(ops).rows|, After(ops);
            var t := After(ops + [Worked(w, n, Calendar.MonthStart(m))]);
            && WorkOf(t, w, m) && LastIsUnbilled(t.rows) && t.cycles == s.cycles
            && t.rows == s.rows + [WorkRow(w, n, Calendar.MonthStart(m), None)]
  {
    WorkStep(ops, w, |After(ops).rows|, Calendar.MonthStart(m));
  }

  /** The first entry is on the invoice of its month. */
  predicate OnTime(s: State, w: Work, m: Calendar.Month) {
    && WorkOf(s, w, m) && s.rows == [WorkRow(w, 0, Calendar.MonthStart(m), Some(0))]
    && |s.cycles| == 1 && s.cycles[0].status.Draft? && CycleCloses(s.cycles[0], m)
  }

  /** A second entry came late, and is on the invoice of the next month. */
  predicate Late(s: State, w: Work, m: Calendar.Month, status: Status) {
    && WorkOf(s, w, m) && |s.rows| == 2 && s.rows[1] == WorkRow(w, 1, Calendar.MonthStart(m), Some(1))
    && |s.cycles| == 2 && s.cycles[0].status.Draft? && s.cycles[1].status == status
    && CycleCloses(s.cycles[0], m) && !CycleCloses(s.cycles[1], m)
  }

  /** The late entry is credited, and its mirror waits. */
  predicate Credited(s: State, w: Work, m: Calendar.Month) {
    && s.tasks == map[0 := Task(Support, true, Some(w.rate))]
    && |s.rows| == 3 && s.rows[2] == Mirror(WorkRow(w, 1, Calendar.MonthStart(m), Some(1)), 1, 0)
    && |s.cycles| == 2 && s.cycles[0].status.Draft? && !HasNotes(s.notes, 0)
    && CycleCloses(s.cycles[0], m) && !CycleCloses(s.cycles[1], m)
  }

  lemma OnTimeSteps(ops: seq<Op>, w: Work, m: Calendar.Month)
    requires WorkOf(After(ops), w, m) && After(ops).rows == [] && After(ops).cycles == [] && w.seconds > 0
    ensures OnTime(After(ops + [Worked(w, 0, Calendar.MonthStart(m))] + [OpClose(MonthlyRequest(m))]), w, m)
  {
    EntryStep(ops, w, m);
    CloseStep(ops + [Worked(w, 0, Calendar.MonthStart(m))], w, m, m);
  }

  /** The late entry is there, and not invoiced yet. */
  predicate Entered(s: State, w: Work, m: Calendar.Month) {
    && WorkOf(s, w, m) && |s.rows| == 2 && LastIsUnbilled(s.rows)
    && |s.cycles| == 1 && s.cycles[0].status.Draft? && CycleCloses(s.cycles[0], m) && Closed(s.cycles, m)
  }

  lemma LateEntry(ops: seq<Op>, w: Work, m: Calendar.Month)
    requires OnTime(After(ops), w, m) && w.seconds > 0
    ensures Entered(After(ops + [Worked(w, 1, Calendar.MonthStart(m))]), w, m)
  {
    EntryStep(ops, w, m);
  }

  lemma LateInvoice(ops: seq<Op>, w: Work, m: Calendar.Month)
    requires Entered(After(ops), w, m)
    ensures Late(After(ops + [OpClose(MonthlyRequest(m + 1))]), w, m, Draft)
  {
    CloseStep(ops, w, m, m + 1);
    InvoicedIsLate(After(ops), After(ops + [OpClose(MonthlyRequest(m + 1))]), w, m);
  }

  lemma InvoicedIsLate(s: State, t: State, w: Work, m: Calendar.Month)
    requires Invoiced(s, t, w, m, m + 1) && |s.rows| == 2 && |s.cycles| == 1
    requires s.cycles[0].status.Draft? && CycleCloses(s.cycles[0], m)
    ensures Late(t, w, m, Draft)
  {
    assert t.cycles[0] == t.cycles[..1][0];
  }

  lemma SendMoves(s: State, w: Work, m: Calendar.Month)
    requires Late(s, w, m, Draft)
    ensures var r := UpdateCycle(s, 1, Some(Sent), None, 0);
            r.Ok? && Late(r.value, w, m, Sent)
  {
  }

  lemma SendStep(ops: seq<Op>, w: Work, m: Calendar.Month)
    requires Late(After(ops), w, m, Draft)
    ensures Late(After(ops + [OpUpdate(1, Some(Sent), None, 0)]), w, m, Sent)
  {
    SendMoves(After(ops), w, m);
    RunGrows(ops, OpUpdate(1, Some(Sent), None, 0));
  }

  lemma SecondRowResolves(s: State, w: Work, m: Calendar.Month)
    requires WorkOf(s, w, m) && |s.rows| == 2 && s.rows[1].billed == Some(1)
    requires |s.cycles| == 2 && s.cycles[1].status.Sent?
    ensures ResolveLines(s, 1, [1]) == Ok([1])
  {
    assert Creditable(s, 1, 1);
    assert Distinct([1]) == [1];
  }

  lemma LateIsCredited(s: State, w: Work, m: Calendar.Month, q: CreditRequest)
    requires Late(s, w, m, Sent) && q == CreditRequest(1, [1], "late", None, 0)
    ensures EmitCreditNote(s, q).Ok? && Credited(EmitCreditNote(s, q).value, w, m)
  {
    SecondRowResolves(s, w, m);
    assert Creditable(s, 1, 1);
    assert Mirrors(s.rows, [1], 0) == [Mirror(s.rows[1], 1, 0)];
  }

  lemma NoteStep(ops: seq<Op>, q: CreditRequest)
    requires EmitCreditNote(After(ops), q).Ok?
    ensures After(ops + [OpCredit(q)]) == EmitCreditNote(After(ops), q).value
  {
    RunGrows(ops, OpCredit(q));
    CreditSettles(After(ops), q, EmitCreditNote(After(ops), q).value, None);
  }

  lemma CreditStep(ops: seq<Op>, w: Work, m: Calendar.Month)
    requires Late(After(ops), w, m, Sent)
    ensures Credited(After(ops + [OpCredit(CreditRequest(1, [1], "late", None, 0))]), w, m)
  {
    var q := CreditRequest(1, [1], "late", None, 0);
    LateIsCredited(After(ops), w, m, q);
    NoteStep(ops, q);
  }

  /** Work on time and work too late, both invoiced; the late invoice is sent, and its work credited. */
  function LateRun(w: Work, m: Calendar.Month): seq<Op> {
    [TheTask(w)]
    + [Worked(w, 0, Calendar.MonthStart(m))] + [OpClose(MonthlyRequest(m))]
    + [Worked(w, 1, Calendar.MonthStart(m))] + [OpClose(MonthlyRequest(m + 1))]
    + [OpUpdate(1, Some(Sent), None, 0)] + [OpCredit(CreditRequest(1, [1], "late", None, 0))]
  }

  lemma LateRunIsCredited(w: Work, m: Calendar.Month)
    requires w.seconds > 0
    ensures Credited(After(LateRun(w, m)), w, m)
  {
    TaskStep(w);
    OnTimeSteps([TheTask(w)], w, m);
    var onTime := [TheTask(w)] + [Worked(w, 0, Calendar.MonthStart(m))] + [OpClose(MonthlyRequest(m))];
    LateEntry(onTime, w, m);
    LateInvoice(onTime + [Worked(w, 1, Calendar.MonthStart(m))], w, m);
    var late := onTime + [Worked(w, 1, Calendar.MonthStart(m))] + [OpClose(MonthlyRequest(m + 1))];
    SendStep(late, w, m);
    CreditStep(late + [OpUpdate(1, Some(Sent), None, 0)], w, m);
  }

  lemma MirrorIsInReach(s: State, w: Work, m: Calendar.Month)
    requires Credited(s, w, m)
    ensures Waiting(s, 2) && WithinReach(s, 2)
    ensures Calendar.MonthOf(s.rows[2].workedOn.value) == m
  {
    MonthStartsInIt(m);
    assert Takes(s, OneMonth(Some(m + 1)), Calendar.MonthStart(m), s.rows[2]);
  }

  lemma CreditedGetsStranded(s: State, w: Work, m: Calendar.Month, reason: string)
    requires Inv(s) && Credited(s, w, m)
    ensures Waiting(s, 2) && WithinReach(s, 2)
    ensures ReopenCycle(s, 0, reason).Ok?
    ensures var t := ReopenCycle(s, 0, reason).value;
            Waiting(t, 2) && !WithinReach(t, 2)
  {
    MirrorIsInReach(s, w, m);
    ReopenedReach(s, 0, reason, 2);
  }

  /**
   * The mirror of the late work waits within the reach of the next emissions, until the one invoice that covers its
   * month is cancelled: from then on no emission of another month takes it.
   */
  lemma MirrorGetsStranded(w: Work, m: Calendar.Month, reason: string)
    requires w.seconds > 0
    ensures var s := After(LateRun(w, m));
            && Waiting(s, 2) && WithinReach(s, 2)
            && ReopenCycle(s, 0, reason).Ok?
            && var t := ReopenCycle(s, 0, reason).value;
               Waiting(t, 2) && !WithinReach(t, 2)
  {
    LateRunIsCredited(w, m);
    ReachableInv(LateRun(w, m));
    CreditedGetsStranded(After(LateRun(w, m)), w, m, reason);
  }
}
