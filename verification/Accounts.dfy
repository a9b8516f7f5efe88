/** Counters, stored totals and variables in every reachable state, and through every later run. */
module Accounts {
  import opened Outcomes
  import opened Totals
  import opened Ledger
  import opened Invariants
  import opened History
  import opened Variables
  import Calendar
  import Tax

  /** The three counters are the summed hours of the live rows of their kind, mirrors left out. */
  lemma QuotaIsConserved(ops: seq<Op>)
    ensures var s := After(ops);
            && s.client.contracted == LiveHours(s.rows, Purchase)
            && s.client.used == LiveHours(s.rows, Usage)
            && s.client.loaned == LiveHours(s.rows, Loan)
  {
    ReachableInv(ops);
  }

  /** The amounts an invoice was issued with stay stored, and are what the tables add up to while it is in force. */
  predicate TotalsHold(issued: Cycle, t: State, c: nat)
    requires c < |t.cycles|
  {
    var now := t.cycles[c];
    && now.amounts == issued.amounts && now.hours == issued.hours && now.variables == issued.variables
    && (!now.status.Cancelled? ==>
          && now.hours == StampedHours(t.rows, c)
          && now.amounts ==
             Tax.ComputeTax(StampedAmount(t.rows, c) + VariablesAmount(now.variables), now.taxRate, now.taxMode))
  }

  lemma TotalsPersist(s: State, t: State, c: nat)
    requires Persists(s, t) && CyclesOk(t) && c < |s.cycles|
    ensures c < |t.cycles| && TotalsHold(s.cycles[c], t, c)
  {
    assert CyclePersists(s.cycles[c], t.cycles[c]);
    assert CycleOk(t, c);
  }

  /**
   * Whatever follows the emission, the stored amounts do not move, and while the invoice is in force they are the tax
   * computation over what it stamps now plus the variables it billed.
   */
  lemma TotalsAreFrozen(ops: seq<Op>, more: seq<Op>, c: nat)
    requires c < |After(ops).cycles|
    ensures c < |Replay(After(ops), more).cycles| && TotalsHold(After(ops).cycles[c], Replay(After(ops), more), c)
  {
    ReachableInv(ops);
    ReplayPersists(After(ops), more);
    ReplayKeepsInv(After(ops), more);
    TotalsPersist(After(ops), Replay(After(ops), more), c);
  }

  /** No row, no statement and no credit note carries the cycle. */
  predicate HoldsNothing(t: State, c: nat) {
    && (forall i :: 0 <= i < |t.rows| ==> t.rows[i].billed != Some(c))
    && (forall m :: m in t.statements ==> t.statements[m].billed != Some(c))
    && !HasNotes(t.notes, c)
  }

  lemma CancelledIsEmpty(t: State, c: nat)
    requires Inv(t) && c < |t.cycles| && t.cycles[c].status.Cancelled?
    ensures HoldsNothing(t, c)
  {
    forall i | 0 <= i < |t.rows|
      ensures t.rows[i].billed != Some(c)
    {
      assert RowOk(t, i);
    }
    forall m | m in t.statements
      ensures t.statements[m].billed != Some(c)
    {
      assert SealOk(t.cycles, t.statements[m]);
    }
    forall k | 0 <= k < |t.notes|
      ensures t.notes[k].cycle != c
    {
      assert NoteOk(t, k);
    }
  }

  /** A cancelled invoice holds no rows, no statements and no notes, and stays cancelled. */
  lemma CancelledHoldsNothing(ops: seq<Op>, more: seq<Op>, c: nat)
    requires c < |After(ops).cycles| && After(ops).cycles[c].status.Cancelled?
    ensures var t := Replay(After(ops), more);
            c < |t.cycles| && t.cycles[c].status.Cancelled? && HoldsNothing(t, c)
  {
    var s, t := After(ops), Replay(After(ops), more);
    ReachableInv(ops);
    ReplayPersists(s, more);
    ReplayKeepsInv(s, more);
    assert CyclePersists(s.cycles[c], t.cycles[c]);
    CancelledIsEmpty(t, c);
  }

  /**
   * An invoice in force billed, for each month, what the statement it sealed says, at its own rate: one line for each
   * item that counts. A month whose statement it did not seal is not on it.
   */
  lemma VariablesAreBilledOnce(ops: seq<Op>, c: nat, m: Calendar.Month)
    requires c < |After(ops).cycles| && !After(ops).cycles[c].status.Cancelled?
    ensures var s := After(ops);
            OfPeriod(s.cycles[c].variables, m) ==
              if m in s.statements && s.statements[m].billed == Some(c)
              then ItemLines(m, s.statements[m].items, s.cycles[c].exchangeRate) else []
    ensures var s := After(ops);
            m in s.statements && s.statements[m].billed == Some(c) ==>
              Itemizes(m, s.statements[m].items, s.cycles[c].exchangeRate, OfPeriod(s.cycles[c].variables, m))
  {
    var s := After(ops);
    ReachableInv(ops);
    assert MonthBilled(s, c, m);
    if m in s.statements {
      ItemLinesItemize(m, s.statements[m].items, s.cycles[c].exchangeRate);
    }
  }

  lemma EmissionKeepsSeals(s: State, q: CloseRequest, m: Calendar.Month, c: nat)
    requires SealedBy(s.statements, m, c) && c < |s.cycles| && CloseCycle(s, q).Ok?
    ensures var t := CloseCycle(s, q).value;
            c < |t.cycles| && SealedBy(t.statements, m, c) && t.statements[m] == s.statements[m]
  {
    ClosedIsIssued(s, q);
  }

  lemma CancellationKeepsSeals(s: State, d: nat, reason: string, m: Calendar.Month, c: nat)
    requires SealedBy(s.statements, m, c) && c < |s.cycles| && ReopenCycle(s, d, reason).Ok?
    ensures var t := ReopenCycle(s, d, reason).value;
            c < |t.cycles| && (t.cycles[c].status.Cancelled? || (SealedBy(t.statements, m, c)
                  && t.statements[m] == s.statements[m]))
  {
  }

  /** One operation leaves a sealed statement alone, unless it cancels the invoice that sealed it. */
  lemma SealHolds(s: State, op: Op, m: Calendar.Month, c: nat)
    requires c < |s.cycles| && SealedBy(s.statements, m, c)
    ensures var t := Apply(s, op);
            c < |t.cycles| && (t.cycles[c].status.Cancelled? || (SealedBy(t.statements, m, c)
                  && t.statements[m] == s.statements[m]))
  {
    if op.OpClose? && CloseCycle(s, op.close).Ok? {
      EmissionKeepsSeals(s, op.close, m, c);
    } else if op.OpReopen? && ReopenCycle(s, op.cycle, op.reason).Ok? {
      CancellationKeepsSeals(s, op.cycle, op.reason, m, c);
    }
  }

  /** A sealed statement neither changes nor goes while the invoice that sealed it is in force. */
  lemma {:induction false} SealedStatementsAreKept(s: State, ops: seq<Op>, m: Calendar.Month, c: nat)
    requires Inv(s) && c < |s.cycles| && SealedBy(s.statements, m, c)
    ensures var t := Replay(s, ops);
            && c < |t.cycles|
            && (t.cycles[c].status.Cancelled? || (m in t.statements && t.statements[m] == s.statements[m]))
  {
    if ops != [] {
      var before, op := Replay(s, ops[..|ops| - 1]), ops[|ops| - 1];
      SealedStatementsAreKept(s, ops[..|ops| - 1], m, c);
      ReplayKeepsInv(s, ops[..|ops| - 1]);
      ApplyPersists(before, op);
      assert CyclePersists(before.cycles[c], Apply(before, op).cycles[c]);
      if !before.cycles[c].status.Cancelled? {
        SealHolds(before, op, m, c);
      }
    }
  }

  /** Cancelling makes billable again exactly the variables the invoice had billed, and no others. */
  lemma CancellingFreesItsVariables(ops: seq<Op>, c: nat, reason: string, m: Calendar.Month)
    requires ReopenCycle(After(ops), c, reason).Ok?
    ensures var s, t := After(ops), ReopenCycle(After(ops), c, reason).value;
            var rate := s.cycles[c].exchangeRate;
            PeriodLines(t.statements, m, rate) ==
              if SealedBy(s.statements, m, c) then OfPeriod(s.cycles[c].variables, m)
              else PeriodLines(s.statements, m, rate)
  {
    ReachableInv(ops);
    assert MonthBilled(After(ops), c, m);
  }

  /** Cancelling makes billable again exactly the rows the invoice had stamped; their charge is untouched. */
  lemma CancellingFreesItsRows(ops: seq<Op>, c: nat, reason: string, i: nat)
    requires ReopenCycle(After(ops), c, reason).Ok? && i < |After(ops).rows|
    ensures var s, t := After(ops), ReopenCycle(After(ops), c, reason).value;
            && SameCharge(s.rows[i], t.rows[i]) && t.rows[i].deleted == s.rows[i].deleted && t.lines == s.lines
            && t.rows[i].billed == (if s.rows[i].billed == Some(c) then None else s.rows[i].billed)
            && (s.rows[i].billed == Some(c) ==> i !in t.lines)
  {
    ReachableInv(ops);
    if i in After(ops).lines {
      CreditedIsStamped(After(ops), i);
    }
  }
}
