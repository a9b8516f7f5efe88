/** What is read off the ledger: the preview of an emission, the documents, and the three cards of the staff. */
module Reports {
  import opened Outcomes
  import opened Totals
  import opened Grouping
  import opened Ledger
  import opened Invariants
  import opened Balance
  import opened Selection
  import Calendar
  import Tax

  /** The places of the flags that are set, in order. */
  function Places(flags: seq<bool>): (r: seq<nat>)
    ensures forall i: nat :: i in r <==> i < |flags| && flags[i]
    ensures forall k :: 0 <= k < |r| ==> r[k] < |flags|
    ensures forall j, k :: 0 <= j < k < |r| ==> r[j] < r[k]
  {
    if flags == [] then []
    else Places(flags[..|flags| - 1]) + if flags[|flags| - 1] then [|flags| - 1] else []
  }

  lemma PlacesGrow(flags: seq<bool>, i: nat)
    requires i < |flags|
    ensures Places(flags[..i + 1]) == Places(flags[..i]) + if flags[i] then [i] else []
  {
    assert flags[..i + 1][..i] == flags[..i];
  }

  function LineOfRow(r: Row): Line {
    Line(if r.workedOn.Some? then Some(Calendar.MonthOf(r.workedOn.value)) else None,
         if r.price.Some? then r.price.value else 0, r.hours)
  }

  function RowLines(rows: seq<Row>, ids: seq<nat>): (r: seq<Line>)
    requires forall k :: 0 <= k < |ids| ==> ids[k] < |rows|
    ensures |r| == |ids| && forall k :: 0 <= k < |r| ==> r[k] == LineOfRow(rows[ids[k]])
  {
    seq(|ids|, k requires 0 <= k < |ids| => LineOfRow(rows[ids[k]]))
  }

  // ---------------------------------------------------------------- preview of an invoice

  function TakenFlags(s: State, scope: Scope, day: Calendar.Day): (r: seq<bool>)
    ensures |r| == |s.rows| && forall i :: 0 <= i < |r| ==> r[i] == Takes(s, scope, day, s.rows[i])
  {
    seq(|s.rows|, i requires 0 <= i < |s.rows| => Takes(s, scope, day, s.rows[i]))
  }

  function TakenLines(s: State, scope: Scope, day: Calendar.Day): seq<Line> {
    RowLines(s.rows, Places(TakenFlags(s, scope, day)))
  }

  predicate CanEmit(s: State, scope: Scope, day: Calendar.Day) {
    && (TakesAny(s, scope, day) || HasVariables(s, scope))
    && !Untariffed(s, scope, day) && !Undated(s) && !LiveReversal(s, scope, day)
  }

  datatype Preview = Preview(window: Window, groups: seq<Group>, amounts: Tax.Breakdown, canEmit: bool)

  /** The window an invoice will have: of chosen months, from the first one it has work of. */
  function InvoiceWindow(s: State, scope: Scope, w: Window): Window {
    w.(start := PeriodStart(s, scope, w))
  }

  /** What a preview answers: the window's error, or the groups, the amounts over their sum, and whether to emit. */
  ghost predicate Previews(s: State, scope: Scope, until: Option<Calendar.Instant>, r: Result<Preview, Error>) {
    var window := ResolveWindow(scope, until);
    match r
    case Err(e) => window == Err(e)
    case Ok(p) =>
      && window.Ok? && p.window == InvoiceWindow(s, scope, window.value)
      && Grouped(TakenLines(s, scope, Calendar.LocalDay(p.window.cutoff)), p.groups)
      && p.amounts == Tax.ComputeTax(Total(GroupAmounts(p.groups)), s.client.taxRate, s.client.taxMode)
      && (p.canEmit <==> CanEmit(s, scope, Calendar.LocalDay(p.window.cutoff)))
  }

  /** One line for each row to bill, in their order: ids[k] is where line k comes from. */
  ghost predicate ShowsFrom(s: State, scope: Scope, until: Option<Calendar.Instant>, groups: seq<Group>,
                            ids: seq<nat>, lines: seq<Line>) {
    && (forall j, k :: 0 <= j < k < |ids| ==> ids[j] < ids[k])
    && (forall i: nat :: i in ids <==> i < |s.rows| && ToBill(s, scope, until, s.rows[i]))
    && |lines| == |ids|
    && (forall k :: 0 <= k < |lines| ==>
          && ids[k] < |s.rows| && s.rows[ids[k]].workedOn.Some? && s.rows[ids[k]].price.Some?
          && lines[k] == Line(Some(Calendar.MonthOf(s.rows[ids[k]].workedOn.value)), s.rows[ids[k]].price.value,
                              s.rows[ids[k]].hours))
    && Grouped(lines, groups)
  }

  /** The preview in the terms of its request: the dates, exactly the rows to bill, and what stands in the way. */
  ghost predicate ShowsRequest(s: State, scope: Scope, until: Option<Calendar.Instant>, r: Result<Preview, Error>) {
    match r
    case Err(e) => DatesError(scope, until) == Some(e)
    case Ok(p) =>
      && DatesError(scope, until).None?
      && CutsOffAt(scope, until, p.window.cutoff) && EndsAt(scope, p.window.cutoff, p.window.end)
      && StartsAt(s, scope, until, p.window.start)
      && (exists ids, lines :: ShowsFrom(s, scope, until, p.groups, ids, lines))
      && p.amounts == Tax.ComputeTax(Total(GroupAmounts(p.groups)), s.client.taxRate, s.client.taxMode)
      && (p.canEmit <==>
            && (FindsWork(s, scope, until) || FindsVariables(s, scope))
            && !FindsUnpriced(s, scope, until) && !FindsUndated(s) && !FindsLiveRefund(s, scope, until))
  }

  lemma TakenAreShown(s: State, scope: Scope, until: Option<Calendar.Instant>, w: Window, groups: seq<Group>)
    requires ResolveWindow(scope, until) == Ok(w) && Grouped(TakenLines(s, scope, Calendar.LocalDay(w.cutoff)), groups)
    ensures exists ids, lines :: ShowsFrom(s, scope, until, groups, ids, lines)
  {
    var day := Calendar.LocalDay(w.cutoff);
    var ids := Places(TakenFlags(s, scope, day));
    forall i | 0 <= i < |s.rows|
      ensures Takes(s, scope, day, s.rows[i]) <==> ToBill(s, scope, until, s.rows[i])
    {
      TakesExactly(s, scope, until, w, s.rows[i]);
    }
    assert forall k :: 0 <= k < |ids| ==> ids[k] in ids;
    assert ShowsFrom(s, scope, until, groups, ids, TakenLines(s, scope, day));
  }

  /** What a preview answers is what its request means. */
  lemma PreviewShowsRequest(s: State, scope: Scope, until: Option<Calendar.Instant>, r: Result<Preview, Error>)
    requires Previews(s, scope, until, r)
    ensures ShowsRequest(s, scope, until, r)
  {
    WindowIsResolved(scope, until);
    if r.Ok? {
      var w := ResolveWindow(scope, until).value;
      StartIsResolved(s, scope, until, w);
      TakenAreShown(s, scope, until, w, r.value.groups);
      FoundExactly(s, scope, until, w);
      VariablesExactly(s, scope);
      FlagsExactly(s, scope, until, w);
    }
  }

  method PickTaken(s: State, scope: Scope, day: Calendar.Day) returns (ids: seq<nat>)
    ensures ids == Places(TakenFlags(s, scope, day))
  {
    var flags := TakenFlags(s, scope, day);
    ids := [];
    for i := 0 to |s.rows|
      invariant ids == Places(flags[..i])
    {
      PlacesGrow(flags, i);
      if Takes(s, scope, day, s.rows[i]) {
        ids := ids + [i];
      }
    }
    assert flags[..|s.rows|] == flags;
  }

  lemma PickedAny(s: State, scope: Scope, day: Calendar.Day)
    ensures |Places(TakenFlags(s, scope, day))| > 0 <==> TakesAny(s, scope, day)
  {
    var flags := TakenFlags(s, scope, day);
    if |Places(flags)| > 0 {
      var i := Places(flags)[0];
      assert i in Places(flags);
      assert Takes(s, scope, day, s.rows[i]);
    }
    if TakesAny(s, scope, day) {
      var i: nat :| i < |s.rows| && Takes(s, scope, day, s.rows[i]);
      assert flags[i];
      assert i in Places(flags);
    }
  }

  /** The dry run: rows picked, grouped by month of work, and taxed on the sum of the groups. */
  method PreviewCycle(s: State, scope: Scope, until: Option<Calendar.Instant>) returns (r: Result<Preview, Error>)
    ensures Previews(s, scope, until, r) && ShowsRequest(s, scope, until, r)
  {
    var window := ResolveWindow(scope, until);
    if window.Err? {
      r := Err(window.error);
      PreviewShowsRequest(s, scope, until, r);
      return;
    }
    var day := Calendar.LocalDay(window.value.cutoff);
    var ids := PickTaken(s, scope, day);
    PickedAny(s, scope, day);
    var groups := GroupByMonth(RowLines(s.rows, ids));
    var base := SumOfGroups(groups);
    var canEmit := (|ids| > 0 || HasVariables(s, scope))
      && !Untariffed(s, scope, day) && !Undated(s) && !LiveReversal(s, scope, day);
    r := Ok(Preview(InvoiceWindow(s, scope, window.value), groups,
                    Tax.ComputeTax(base, s.client.taxRate, s.client.taxMode), canEmit));
    PreviewShowsRequest(s, scope, until, r);
  }

  method SumOfGroups(groups: seq<Group>) returns (sum: int)
    ensures sum == Total(GroupAmounts(groups))
  {
    sum := 0;
    var xs := GroupAmounts(groups);
    for g := 0 to |groups|
      invariant sum == Total(xs[..g])
    {
      assert xs[..g + 1] == xs[..g] + [xs[g]];
      TotalAppend(xs[..g], xs[g]);
      sum := sum + groups[g].amount;
    }
    assert xs[..|groups|] == xs;
  }

  /** Summing the rows picked is what the aggregate over the stamped rows will give. */
  lemma TakenIsStamped(s: State, scope: Scope, day: Calendar.Day)
    requires RowsOk(s)
    ensures StampedAmount(Stamp(s, scope, day, |s.cycles|), |s.cycles|) == Total(Amounts(TakenLines(s, scope, day)))
    ensures StampedHours(Stamp(s, scope, day, |s.cycles|), |s.cycles|) == Total(Hours(TakenLines(s, scope, day)))
  {
    var c := |s.cycles|;
    var ids := Places(TakenFlags(s, scope, day));
    var xs, ys := PriceColumn(Stamp(s, scope, day, c), c), HoursColumn(Stamp(s, scope, day, c), c);
    forall i | 0 <= i < |s.rows|
      ensures s.rows[i].billed != Some(c)
    {
      assert RowOk(s, i);
    }
    forall k | 0 <= k < |ids|
      ensures xs[ids[k]] == Amounts(TakenLines(s, scope, day))[k] && ys[ids[k]] == Hours(TakenLines(s, scope, day))[k]
    {
      assert ids[k] in ids;
    }
    TotalScattered(xs, ids, Amounts(TakenLines(s, scope, day)));
    TotalScattered(ys, ids, Hours(TakenLines(s, scope, day)));
  }

  /** When exactly an emission goes through, pending variables included. */
  lemma EmissionSucceedsExactly(s: State, q: CloseRequest)
    ensures CloseCycle(s, q).Ok? <==>
      && ResolveWindow(q.scope, q.until).Ok?
      && var day := Calendar.LocalDay(ResolveWindow(q.scope, q.until).value.cutoff);
      && CanEmit(s, q.scope, day)
      && (HasVariables(s, q.scope) ==> RateOf(q) > 0)
      && (TakesAny(s, q.scope, day) || VariablesAmount(BilledVariables(s, q)) > 0)
  {
  }

  /** No pending variables means no variable lines, at any rate. */
  lemma {:induction false} NothingPending(statements: map<Calendar.Month, Statement>, periods: seq<Calendar.Month>,
                                          rate: nat)
    requires CollectLines(statements, periods, 0) == []
    ensures CollectLines(statements, periods, rate) == []
  {
    if periods != [] {
      var last := |periods| - 1;
      NothingPending(statements, periods[..last], rate);
      if periods[last] in statements {
        ContributionIgnoresRate(periods[last], statements[periods[last]].items, 0, rate);
      }
    }
  }

  /** With no variable lines, the totals an emission stamps are the tax on what its rows add up to. */
  lemma IssuedAmounts(s: State, q: CloseRequest, w: Window)
    requires RowsOk(s) && BilledVariables(s, q) == []
    ensures var cycle := Issue(s, q, w).cycles[|s.cycles|];
            var net := Total(Amounts(TakenLines(s, q.scope, Calendar.LocalDay(w.cutoff))));
            && cycle.amounts == Tax.ComputeTax(net, s.client.taxRate, s.client.taxMode)
            && cycle.hours == Total(Hours(TakenLines(s, q.scope, Calendar.LocalDay(w.cutoff))))
            && Window(cycle.start, cycle.end, cycle.cutoff) == InvoiceWindow(s, q.scope, w)
  {
    TakenIsStamped(s, q.scope, Calendar.LocalDay(w.cutoff));
  }

  /**
   * The preview is the emission: with no pending variables and no step in between, it says an invoice can be issued
   * exactly when issuing succeeds, and its net, tax, total, hours and dates are the ones stamped.
   */
  lemma PreviewIsEmission(ops: seq<Op>, q: CloseRequest, r: Result<Preview, Error>)
    requires Previews(After(ops), q.scope, q.until, r) && !HasVariables(After(ops), q.scope)
    ensures var s := After(ops);
            && (r.Ok? && r.value.canEmit <==> CloseCycle(s, q).Ok?)
            && (CloseCycle(s, q).Ok? ==>
                  && CloseCycle(s, q).value.cycles[|s.cycles|].amounts == r.value.amounts
                  && CloseCycle(s, q).value.cycles[|s.cycles|].hours == Total(GroupHours(r.value.groups))
                  && CloseCycle(s, q).value.cycles[|s.cycles|].start == r.value.window.start
                  && CloseCycle(s, q).value.cycles[|s.cycles|].end == r.value.window.end
                  && CloseCycle(s, q).value.cycles[|s.cycles|].cutoff == r.value.window.cutoff)
  {
    var s := After(ops);
    ReachableInv(ops);
    EmissionSucceedsExactly(s, q);
    NothingPending(s.statements, Periods(q.scope), RateOf(q));
    if r.Ok? {
      IssuedAmounts(s, q, ResolveWindow(q.scope, q.until).value);
      GroupsPartition(TakenLines(s, q.scope, Calendar.LocalDay(r.value.window.cutoff)), r.value.groups);
    }
  }

  // ---------------------------------------------------------------- preview of a credit note

  datatype CreditPreview = CreditPreview(amounts: Tax.Breakdown, hours: int, taxRate: Option<int>,
        taxMode: Option<string>, lines: seq<nat>)

  function PreviewCreditNote(s: State, c: nat, ids: seq<nat>): Result<CreditPreview, Error> {
    var originals :- ResolveLines(s, c, ids);
    assert forall k :: 0 <= k < |originals| ==> Creditable(s, c, originals[k]);
    var cycle := s.cycles[c];
    var amounts := Tax.ComputeTax(Total(RequestedPrices(s.rows, originals)), cycle.taxRate, cycle.taxMode);
    Ok(CreditPreview(
      Tax.Negate(amounts), 0 - Total(RequestedHours(s.rows, originals)),
      if amounts.net.Some? then cycle.taxRate else None,
      if amounts.net.Some? then cycle.taxMode else None,
      originals))
  }

  /** The credit preview refuses exactly what the emission refuses, and shows the note that will be written. */
  lemma CreditPreviewIsEmission(s: State, q: CreditRequest)
    requires |q.reason| >= 3
    ensures var p, r := PreviewCreditNote(s, q.cycle, q.ids), EmitCreditNote(s, q);
            && (p.Ok? <==> r.Ok?)
            && (p.Err? ==> p.error == r.error)
            && (p.Ok? ==>
                  && |r.value.notes| == |s.notes| + 1
                  && r.value.notes[|s.notes|].amounts == p.value.amounts
                  && r.value.notes[|s.notes|].hours == p.value.hours
                  && r.value.notes[|s.notes|].taxRate == p.value.taxRate
                  && r.value.notes[|s.notes|].taxMode == p.value.taxMode
                  && (forall i :: i in p.value.lines <==> i in r.value.lines && i !in s.lines))
  {
  }

  // ---------------------------------------------------------------- documents

  function StampedFlags(rows: seq<Row>, c: nat): (r: seq<bool>)
    ensures |r| == |rows| && forall i :: 0 <= i < |r| ==> r[i] == (rows[i].billed == Some(c))
  {
    seq(|rows|, i requires 0 <= i < |rows| => rows[i].billed == Some(c))
  }

  /** The rows stamped with a cycle, tombstones included. */
  function StampedIds(rows: seq<Row>, c: nat): seq<nat> {
    Places(StampedFlags(rows, c))
  }

  /** The invoice document: its rows by month of work. */
  method InvoiceGroups(s: State, c: nat) returns (ids: seq<nat>, groups: seq<Group>)
    ensures ids == StampedIds(s.rows, c)
    ensures Grouped(RowLines(s.rows, ids), groups)
  {
    ids := [];
    var flags := StampedFlags(s.rows, c);
    for i := 0 to |s.rows|
      invariant ids == Places(flags[..i])
    {
      PlacesGrow(flags, i);
      if s.rows[i].billed == Some(c) {
        ids := ids + [i];
      }
    }
    assert flags[..|s.rows|] == flags;
    groups := GroupByMonth(RowLines(s.rows, ids));
  }

  lemma StampedLinesAddUp(rows: seq<Row>, c: nat)
    ensures Total(Amounts(RowLines(rows, StampedIds(rows, c)))) == StampedAmount(rows, c)
    ensures Total(Hours(RowLines(rows, StampedIds(rows, c)))) == StampedHours(rows, c)
  {
    var ids := StampedIds(rows, c);
    forall k | 0 <= k < |ids|
      ensures PriceColumn(rows, c)[ids[k]] == Amounts(RowLines(rows, ids))[k]
      ensures HoursColumn(rows, c)[ids[k]] == Hours(RowLines(rows, ids))[k]
    {
      assert ids[k] in ids;
    }
    TotalScattered(PriceColumn(rows, c), ids, Amounts(RowLines(rows, ids)));
    TotalScattered(HoursColumn(rows, c), ids, Hours(RowLines(rows, ids)));
  }

  lemma PlaceOfAStampedRow(rows: seq<Row>, c: nat, i: nat) returns (k: nat)
    requires i < |rows| && rows[i].billed == Some(c)
    ensures k < |StampedIds(rows, c)| && StampedIds(rows, c)[k] == i
    ensures forall j: nat :: j < |StampedIds(rows, c)| && StampedIds(rows, c)[j] == i ==> j == k
  {
    var ids := StampedIds(rows, c);
    assert i in ids;
    k :| 0 <= k < |ids| && ids[k] == i;
  }

  lemma GroupOfALine(lines: seq<Line>, groups: seq<Group>, k: nat) returns (g: nat)
    requires Grouped(lines, groups) && k < |lines|
    ensures g < |groups| && k in groups[g].members
    ensures forall h: nat :: h < |groups| && k in groups[h].members ==> h == g
    ensures groups[g].month == lines[k].month
  {
    assert Shown(groups, k);
    g :| 0 <= g < |groups| && k in groups[g].members;
    GroupsPartition(lines, groups);
  }

  /** Every stamped row is in exactly one group of the document, that of the month it was worked in. */
  lemma StampedRowsAreShownOnce(rows: seq<Row>, c: nat, groups: seq<Group>, i: nat) returns (k: nat, g: nat)
    requires i < |rows| && rows[i].billed == Some(c)
    requires Grouped(RowLines(rows, StampedIds(rows, c)), groups)
    ensures k < |StampedIds(rows, c)| && StampedIds(rows, c)[k] == i && g < |groups| && k in groups[g].members
    ensures forall j: nat, h: nat ::
      j < |StampedIds(rows, c)| && StampedIds(rows, c)[j] == i && h < |groups| && j in groups[h].members ==>
        j == k && h == g
    ensures groups[g].month == if rows[i].workedOn.Some? then Some(Calendar.MonthOf(rows[i].workedOn.value)) else None
  {
    k := PlaceOfAStampedRow(rows, c, i);
    g := GroupOfALine(RowLines(rows, StampedIds(rows, c)), groups, k);
  }

  /**
   * The invoice closes: the hours of the groups are its hours, and the subtotals plus the variables are the net where
   * tax is added, the total otherwise.
   */
  lemma InvoiceCloses(ops: seq<Op>, c: nat, groups: seq<Group>)
    requires c < |After(ops).cycles| && !After(ops).cycles[c].status.Cancelled?
    requires Grouped(RowLines(After(ops).rows, StampedIds(After(ops).rows, c)), groups)
    ensures var cycle := After(ops).cycles[c];
            Total(GroupAmounts(groups)) + VariablesAmount(cycle.variables) ==
              if AddsTax(cycle) && cycle.amounts.net.Some? then cycle.amounts.net.value else cycle.amounts.total
    ensures Total(GroupHours(groups)) == After(ops).cycles[c].hours
  {
    var s := After(ops);
    ReachableInv(ops);
    assert CycleOk(s, c);
    GroupsPartition(RowLines(s.rows, StampedIds(s.rows, c)), groups);
    StampedLinesAddUp(s.rows, c);
    InvoiceSubtotal(s, c);
  }

  lemma InvoiceSubtotal(s: State, c: nat)
    requires CyclesOk(s) && c < |s.cycles| && !s.cycles[c].status.Cancelled?
    ensures var cycle := s.cycles[c];
            StampedAmount(s.rows, c) + VariablesAmount(cycle.variables) ==
              if AddsTax(cycle) && cycle.amounts.net.Some? then cycle.amounts.net.value else cycle.amounts.total
  {
    assert CycleOk(s, c);
    Tax.BreakdownCloses(StampedAmount(s.rows, c) + VariablesAmount(s.cycles[c].variables), s.cycles[c].taxRate,
          s.cycles[c].taxMode);
  }

  function CreditFlags(lines: map<nat, CreditLine>, n: nat, note: nat): (r: seq<bool>)
    ensures |r| == n && forall i :: 0 <= i < n ==> r[i] == (i in lines && lines[i].note == note)
  {
    seq(n, i requires 0 <= i < n => i in lines && lines[i].note == note)
  }

  function CreditedIds(lines: map<nat, CreditLine>, n: nat, note: nat): (r: seq<nat>)
    ensures forall k :: 0 <= k < |r| ==> r[k] in lines && lines[r[k]].note == note
  {
    var r := Places(CreditFlags(lines, n, note));
    assert forall k :: 0 <= k < |r| ==> r[k] in r;
    r
  }

  /** The lines of a credit note as the document shows them: frozen magnitudes, negated. */
  function NoteLines(lines: map<nat, CreditLine>, ids: seq<nat>): (r: seq<Line>)
    requires forall k :: 0 <= k < |ids| ==> ids[k] in lines
    ensures |r| == |ids|
    ensures forall k :: 0 <= k < |r| ==>
      r[k] == Line(if lines[ids[k]].workedOn.Some? then Some(Calendar.MonthOf(lines[ids[k]].workedOn.value)) else None,
                   0 - lines[ids[k]].price, 0 - lines[ids[k]].hours)
  {
    seq(|ids|, k requires 0 <= k < |ids| =>
      Line(if lines[ids[k]].workedOn.Some? then Some(Calendar.MonthOf(lines[ids[k]].workedOn.value)) else None,
           0 - lines[ids[k]].price, 0 - lines[ids[k]].hours))
  }

  method CreditNoteGroups(s: State, note: nat) returns (groups: seq<Group>)
    ensures Grouped(NoteLines(s.lines, CreditedIds(s.lines, |s.rows|, note)), groups)
  {
    var ids: seq<nat> := [];
    var flags := CreditFlags(s.lines, |s.rows|, note);
    for i := 0 to |s.rows|
      invariant ids == Places(flags[..i])
    {
      PlacesGrow(flags, i);
      if i in s.lines && s.lines[i].note == note {
        ids := ids + [i];
      }
    }
    assert flags[..|s.rows|] == flags;
    groups := GroupByMonth(NoteLines(s.lines, ids));
  }

  /** The groups of a credit note hold its hours, and its negated subtotal: the net where tax is added, or the total. */
  lemma CreditNoteCloses(ops: seq<Op>, k: nat, groups: seq<Group>)
    requires k < |After(ops).notes|
    requires Grouped(NoteLines(After(ops).lines, CreditedIds(After(ops).lines, |After(ops).rows|, k)), groups)
    ensures NoteCloses(After(ops), k, Total(GroupAmounts(groups)))
    ensures Total(GroupHours(groups)) == After(ops).notes[k].hours
  {
    ReachableInv(ops);
    NoteDocumentCloses(After(ops), k, groups);
  }

  lemma NoteDocumentCloses(s: State, k: nat, groups: seq<Group>)
    requires NotesOk(s) && k < |s.notes|
    requires Grouped(NoteLines(s.lines, CreditedIds(s.lines, |s.rows|, k)), groups)
    ensures NoteCloses(s, k, Total(GroupAmounts(groups)))
    ensures Total(GroupHours(groups)) == s.notes[k].hours
  {
    assert NoteOk(s, k);
    NoteGroupsAddUp(s.lines, |s.rows|, k, groups);
    NoteSubtotal(s, k);
  }

  /** An amount is what a credit note gives back before tax, in both of its readings. */
  predicate NoteCloses(s: State, k: nat, amount: int)
    requires k < |s.notes|
  {
    var note := s.notes[k];
    && amount == 0 - NoteAmount(s.lines, |s.rows|, k)
    && note.cycle < |s.cycles|
    && amount ==
       if AddsTax(s.cycles[note.cycle]) && note.amounts.net.Some? then note.amounts.net.value else note.amounts.total
  }

  lemma NoteGroupsAddUp(lines: map<nat, CreditLine>, n: nat, k: nat, groups: seq<Group>)
    requires Grouped(NoteLines(lines, CreditedIds(lines, n, k)), groups)
    ensures Total(GroupAmounts(groups)) == 0 - NoteAmount(lines, n, k)
    ensures Total(GroupHours(groups)) == 0 - NoteHours(lines, n, k)
  {
    GroupsPartition(NoteLines(lines, CreditedIds(lines, n, k)), groups);
    NoteLinesAddUp(lines, n, k);
    NoteHoursAddUp(lines, n, k);
  }

  /** The negated entries of a column that is zero elsewhere total to its negated total. */
  lemma NegatedTotal(xs: seq<int>, ids: seq<nat>, negated: seq<int>)
    requires |negated| == |ids| && forall k :: 0 <= k < |ids| ==> ids[k] < |xs| && negated[k] == 0 - xs[ids[k]]
    requires forall j, k :: 0 <= j < k < |ids| ==> ids[j] != ids[k]
    requires forall i :: 0 <= i < |xs| && i !in ids ==> xs[i] == 0
    ensures Total(negated) == 0 - Total(xs)
  {
    var own := seq(|ids|, k requires 0 <= k < |ids| => xs[ids[k]]);
    var zeros := seq(|ids|, k => 0);
    TotalScattered(xs, ids, own);
    TotalPlus(negated, own, zeros);
    TotalZero(zeros);
  }

  lemma NoteLinesAddUp(lines: map<nat, CreditLine>, n: nat, k: nat)
    ensures Total(Amounts(NoteLines(lines, CreditedIds(lines, n, k)))) == 0 - NoteAmount(lines, n, k)
  {
    var ids := CreditedIds(lines, n, k);
    CreditedIdsAreDistinct(lines, n, k);
    NegatedTotal(LinePriceColumn(lines, n, k), ids, Amounts(NoteLines(lines, ids)));
  }

  lemma NoteHoursAddUp(lines: map<nat, CreditLine>, n: nat, k: nat)
    ensures Total(Hours(NoteLines(lines, CreditedIds(lines, n, k)))) == 0 - NoteHours(lines, n, k)
  {
    var ids := CreditedIds(lines, n, k);
    CreditedIdsAreDistinct(lines, n, k);
    NegatedTotal(LineHoursColumn(lines, n, k), ids, Hours(NoteLines(lines, ids)));
  }

  lemma CreditedIdsAreDistinct(lines: map<nat, CreditLine>, n: nat, k: nat)
    ensures var ids := CreditedIds(lines, n, k);
            && (forall i, j :: 0 <= i < j < |ids| ==> ids[i] != ids[j])
            && (forall i :: 0 <= i < |ids| ==> ids[i] < n)
            && (forall i: nat :: i in ids <==> i < n && i in lines && lines[i].note == k)
  {
  }

  lemma NoteSubtotal(s: State, k: nat)
    requires NotesOk(s) && k < |s.notes| && s.notes[k].cycle < |s.cycles|
    ensures var note := s.notes[k];
            0 - NoteAmount(s.lines, |s.rows|, k) ==
              if AddsTax(s.cycles[note.cycle]) && note.amounts.net.Some? then note.amounts.net.value
              else note.amounts.total
  {
    assert NoteOk(s, k);
    Tax.BreakdownCloses(NoteAmount(s.lines, |s.rows|, k), s.cycles[s.notes[k].cycle].taxRate,
          s.cycles[s.notes[k].cycle].taxMode);
  }
}
