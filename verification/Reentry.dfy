/** A mirror of a credited row is billed again by the next monthly emission that reaches its day. */
module Reentry {
  import opened Outcomes
  import opened Ledger
  import opened Invariants
  import opened History
  import Calendar

  /** An invoice of chosen months closes the month of each row it stamped, if the walk over its months gets that far. */
  lemma ChosenMonthsAreClosed(ops: seq<Op>, i: nat)
    requires var s := After(ops);
             i < |s.rows| && s.rows[i].billed.Some? && s.rows[i].billed.value < |s.cycles|
             && s.cycles[s.rows[i].billed.value].kind.Accumulated? && s.rows[i].workedOn.Some?
    ensures var s := After(ops);
            var cycle := s.cycles[s.rows[i].billed.value];
            var month := Calendar.MonthOf(s.rows[i].workedOn.value);
            CycleCloses(cycle, month) <==> month < Calendar.LocalMonth(cycle.start) + Calendar.MAX_MONTHS
  {
    ReachableInv(ops);
    assert RowOk(After(ops), i);
  }

  /** A live mirror that waits to be billed again, over support work. */
  predicate Waiting(s: State, j: nat) {
    && j < |s.rows| && s.rows[j].rebilledFrom.Some? && s.rows[j].rebilledFrom.value < |s.rows|
    && !s.rows[j].deleted && s.rows[j].billed.None? && IsSupport(s, s.rows[j]) && s.rows[j].workedOn.Some?
  }

  /** The original of the mirror sits on an invoice that covers the month of the work. */
  predicate OriginalCovers(s: State, j: nat)
    requires Waiting(s, j)
  {
    var original := s.rows[s.rows[j].rebilledFrom.value];
    && original.billed.Some? && original.billed.value < |s.cycles|
    && CycleCloses(s.cycles[original.billed.value], Calendar.MonthOf(s.rows[j].workedOn.value))
  }

  /** Every mirror of an invoice of chosen months that spans at most 240 months is covered by it. */
  lemma ChosenMonthsCoverTheirMirrors(ops: seq<Op>, j: nat)
    requires Waiting(After(ops), j)
    requires var s := After(ops);
             var original := s.rows[s.rows[j].rebilledFrom.value];
             && original.billed.Some? && original.billed.value < |s.cycles|
             && s.cycles[original.billed.value].kind.Accumulated?
             && Calendar.LocalMonth(s.cycles[original.billed.value].end)
                < Calendar.LocalMonth(s.cycles[original.billed.value].start) + Calendar.MAX_MONTHS
    ensures OriginalCovers(After(ops), j)
  {
    var s := After(ops);
    ReachableInv(ops);
    assert RowOk(s, j) && RowOk(s, s.rows[j].rebilledFrom.value);
  }

  /** A covered mirror is taken by every monthly emission, of any period, whose cutoff is not before its working day. */
  lemma CoveredMirrorIsTaken(ops: seq<Op>, j: nat, period: Calendar.Month, day: Calendar.Day)
    requires Waiting(After(ops), j) && OriginalCovers(After(ops), j)
    requires After(ops).rows[j].workedOn.value <= day
    ensures Takes(After(ops), OneMonth(Some(period)), day, After(ops).rows[j])
  {
    ReachableInv(ops);
    MirrorIsBillable(After(ops), j);
  }

  /** The end of a month reaches every day of it and of the months before. */
  lemma EndOfMonthReachesEveryDay(d: Calendar.Day, k: Calendar.Month)
    requires Calendar.MonthOf(d) <= k
    ensures d <= Calendar.LocalDay(Calendar.PeriodBounds(k).end)
  {
    Calendar.MonthStartIsMonotone(Calendar.MonthOf(d) + 1, k + 1);
    assert Calendar.LocalDay(Calendar.PeriodBounds(k).end) == Calendar.MonthStart(k + 1) - 1;
  }

  /** So an emission that succeeds puts the mirror on the new invoice. */
  lemma CoveredMirrorIsRebilled(ops: seq<Op>, j: nat, q: CloseRequest)
    requires Waiting(After(ops), j) && OriginalCovers(After(ops), j)
    requires q.scope.OneMonth? && CloseCycle(After(ops), q).Ok?
    requires After(ops).rows[j].workedOn.value <= Calendar.LocalDay(CheckClose(After(ops), q).value.cutoff)
    ensures CloseCycle(After(ops), q).value.rows[j].billed == Some(|After(ops).cycles|)
  {
    CoveredMirrorIsTaken(ops, j, q.scope.period.value, Calendar.LocalDay(CheckClose(After(ops), q).value.cutoff));
  }

  /** Without a cutoff of its own, the emission of the month of the work, or of a later one, takes the mirror. */
  lemma WholeMonthsTakeTheMirror(ops: seq<Op>, j: nat, q: CloseRequest)
    requires Waiting(After(ops), j) && OriginalCovers(After(ops), j)
    requires q.scope.OneMonth? && q.until.None? && CloseCycle(After(ops), q).Ok?
    requires Calendar.MonthOf(After(ops).rows[j].workedOn.value) <= q.scope.period.value
    ensures CloseCycle(After(ops), q).value.rows[j].billed == Some(|After(ops).cycles|)
  {
    EndOfMonthReachesEveryDay(After(ops).rows[j].workedOn.value, q.scope.period.value);
    CoveredMirrorIsRebilled(ops, j, q);
  }

  /** Coverage is for ever: the invoice of the original has a credit note, so it can never be cancelled. */
  lemma CoverageIsForever(ops: seq<Op>, more: seq<Op>, j: nat)
    requires Waiting(After(ops), j) && OriginalCovers(After(ops), j)
    requires Waiting(Replay(After(ops), more), j)
    ensures OriginalCovers(Replay(After(ops), more), j)
  {
    var s, t := After(ops), Replay(After(ops), more);
    ReachableInv(ops);
    ReplayPersists(s, more);
    ReplayKeepsInv(s, more);
    CoveragePersists(s, t, j);
  }

  lemma CoveragePersists(s: State, t: State, j: nat)
    requires RowsOk(s) && RowsOk(t) && Persists(s, t)
    requires Waiting(s, j) && OriginalCovers(s, j) && Waiting(t, j)
    ensures OriginalCovers(t, j)
  {
    var i := s.rows[j].rebilledFrom.value;
    assert RowOk(s, j) && RowOk(t, j) && RowOk(t, i);
    assert RowPersists(s.rows[j], t.rows[j], j in s.lines);
    assert RowPersists(s.rows[i], t.rows[i], i in s.lines);
    assert CyclePersists(s.cycles[s.rows[i].billed.value], t.cycles[t.rows[i].billed.value]);
  }

  /** Some emission of another month would take the mirror, at some cutoff. */
  ghost predicate WithinReach(s: State, j: nat)
    requires Waiting(s, j)
  {
    exists period, day :: period != Calendar.MonthOf(s.rows[j].workedOn.value)
          && Takes(s, OneMonth(Some(period)), day, s.rows[j])
  }

  /**
   * A mirror whose original sits on an invoice of another month depends on a third party. Cancelling an invoice leaves
   * it out of reach of every other month exactly when no other invoice in force covers the month of the work.
   */
  lemma CancellingStrandsTheMirror(ops: seq<Op>, c: nat, reason: string, j: nat)
    requires Waiting(After(ops), j) && ReopenCycle(After(ops), c, reason).Ok?
    ensures var s, t := After(ops), ReopenCycle(After(ops), c, reason).value;
            && Waiting(t, j)
            && (WithinReach(t, j) <==>
                  exists d :: 0 <= d < |s.cycles| && d != c &&
                    CycleCloses(s.cycles[d], Calendar.MonthOf(s.rows[j].workedOn.value)))
  {
    ReachableInv(ops);
    ReopenedReach(After(ops), c, reason, j);
  }

  lemma ReopenedReach(s: State, c: nat, reason: string, j: nat)
    requires RowsOk(s) && LinesOk(s) && Waiting(s, j) && ReopenCycle(s, c, reason).Ok?
    ensures var t := ReopenCycle(s, c, reason).value;
            && Waiting(t, j)
            && (WithinReach(t, j) <==>
                  exists d :: 0 <= d < |s.cycles| && d != c &&
                    CycleCloses(s.cycles[d], Calendar.MonthOf(s.rows[j].workedOn.value)))
  {
    var t := ReopenCycle(s, c, reason).value;
    var month := Calendar.MonthOf(s.rows[j].workedOn.value);
    MirrorIsBillable(s, j);
    assert t.rows[j] == s.rows[j];
    forall d | 0 <= d < |s.cycles|
      ensures CycleCloses(t.cycles[d], month) <==> d != c && CycleCloses(s.cycles[d], month)
    {
    }
    assert Takes(t, OneMonth(Some(month + 1)), s.rows[j].workedOn.value, t.rows[j]) <==> Closed(t.cycles, month);
  }
}
