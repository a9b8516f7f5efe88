/** Refunds and redelivered events. */
module Refunds {
  import opened Outcomes
  import opened Ledger
  import opened Invariants
  import opened History
  import Calendar

  /** A refund points at the one tombstoned charge it gave back, and no other refund does. */
  lemma RefundsPointAtTombstones(ops: seq<Op>, j: nat) returns (i: nat)
    requires j < |After(ops).rows| && After(ops).rows[j].kind.Refund?
    ensures var rows := After(ops).rows;
            && rows[j].reverses == Some(i) && i < j
            && rows[i].deleted && Billable(rows[i].kind) && rows[i].rebilledFrom.None? && !rows[j].deleted
            && (forall k :: 0 <= k < |rows| && k != j ==> rows[k].reverses != Some(i))
  {
    var s := After(ops);
    ReachableInv(ops);
    assert RowOk(s, j);
    i := s.rows[j].reverses.value;
    forall k | 0 <= k < |s.rows| && k != j
      ensures s.rows[k].reverses != Some(i)
    {
      OneReversal(s.rows, j, k);
    }
  }

  lemma OneReversal(rows: seq<Row>, j: nat, k: nat)
    requires LinksUnique(rows) && j < |rows| && k < |rows| && j != k && rows[j].reverses.Some?
    ensures rows[k].reverses != rows[j].reverses
  {
    if j < k {
      assert LinksDiffer(rows[j], rows[k]);
    } else {
      assert LinksDiffer(rows[k], rows[j]);
    }
  }

  /** A live charge has no refund: the branch that skips a second refund is never taken. */
  lemma LiveChargeHasNoRefund(s: State, i: nat)
    requires RowsOk(s) && i < |s.rows| && !s.rows[i].deleted
    ensures !HasReversal(s.rows, i)
  {
    forall j | 0 <= j < |s.rows|
      ensures s.rows[j].reverses != Some(i)
    {
      assert RowOk(s, j);
    }
  }

  /** Whatever is billed, no live refund points at it and every row has its working day: both guards never fire. */
  lemma GuardsNeverFire(ops: seq<Op>, scope: Scope, day: Calendar.Day, q: CloseRequest)
    ensures !LiveReversal(After(ops), scope, day)
    ensures CloseCycle(After(ops), q) != Err(BillableIntegrityViolation)
    ensures CloseCycle(After(ops), q) != Err(BillableWithoutWorkedOn)
  {
    var s := After(ops);
    ReachableInv(ops);
    NoLiveReversal(s, scope, day);
    NothingUndated(s);
    var w := ResolveWindow(q.scope, q.until);
    if w.Ok? {
      NoLiveReversal(s, q.scope, Calendar.LocalDay(w.value.cutoff));
    }
  }

  lemma NoLiveReversal(s: State, scope: Scope, day: Calendar.Day)
    requires RowsOk(s)
    ensures !LiveReversal(s, scope, day)
  {
    forall j | 0 <= j < |s.rows| && s.rows[j].kind.Refund? && s.rows[j].reverses.Some?
      ensures s.rows[j].reverses.value < |s.rows| && s.rows[s.rows[j].reverses.value].deleted
    {
      assert RowOk(s, j);
    }
  }

  lemma NothingUndated(s: State)
    requires RowsOk(s)
    ensures !Undated(s)
  {
    forall i | 0 <= i < |s.rows|
      ensures Billable(s.rows[i].kind) ==> s.rows[i].workedOn.Some?
    {
      assert RowOk(s, i);
    }
  }

  /** Once a confirmation is on the ledger, any later delivery with its key changes nothing, whatever it says. */
  lemma ConfirmIsIdempotent(ops: seq<Op>, more: seq<Op>, e: Confirm, again: Confirm)
    requires again.key == e.key && HasKey(After(ops).rows, e.key)
    ensures ConfirmEntry(Replay(After(ops), more), again) == Replay(After(ops), more)
  {
    var s, t := After(ops), Replay(After(ops), more);
    ReachableInv(ops);
    ReplayPersists(s, more);
    var i :| 0 <= i < |s.rows| && s.rows[i].key == Some(e.key);
    assert RowPersists(s.rows[i], t.rows[i], i in s.lines);
  }

  /** Delivering the same confirmation twice in a row is delivering it once. */
  lemma ConfirmTwice(s: State, e: Confirm)
    ensures ConfirmEntry(ConfirmEntry(s, e), e) == ConfirmEntry(s, e)
  {
    var t := ConfirmEntry(s, e);
    if t != s {
      assert t.rows[|s.rows|].key == Some(e.key);
    }
  }

  /** A keyed reversal that found its charge tombstones it, refunds it and moves its counter back. */
  lemma RevertGivesBack(ops: seq<Op>, e: Revert, i: nat)
    requires FindCharge(After(ops).rows, e) == Some(i)
    ensures var s, t := After(ops), RevertEntry(After(ops), e);
            && t == s.(rows := s.rows[i := s.rows[i].(deleted := true)] + [RefundRow(s.rows[i], i, e.today)],
                       client := Move(s.client, s.rows[i].kind, 0 - s.rows[i].hours))
  {
    ReachableInv(ops);
    LiveChargeHasNoRefund(After(ops), i);
  }

  lemma KeysDiffer(rows: seq<Row>, i: nat, j: nat)
    requires LinksUnique(rows) && i < |rows| && j < |rows| && i != j && rows[i].key.Some?
    ensures rows[j].key != rows[i].key
  {
    if i < j {
      assert LinksDiffer(rows[i], rows[j]);
    } else {
      assert LinksDiffer(rows[j], rows[i]);
    }
  }

  /** Redelivering a keyed reversal, now or after any later operations, changes nothing. */
  lemma KeyedRevertIsIdempotent(ops: seq<Op>, e: Revert, more: seq<Op>, again: Revert)
    requires e.version.Some? && FindCharge(After(ops).rows, e).Some?
    requires again.entry == e.entry && again.version == e.version
    ensures var t := Replay(RevertEntry(After(ops), e), more);
            RevertEntry(t, again) == t
  {
    var s := After(ops);
    var u := RevertEntry(s, e);
    var t := Replay(u, more);
    ReachableInv(ops);
    RevertKeepsInv(s, e);
    ReplayPersists(u, more);
    ReplayKeepsInv(u, more);
    var i := FindCharge(s.rows, e).value;
    RevertGivesBack(ops, e, i);
    assert RowPersists(u.rows[i], t.rows[i], i in u.lines);
    var found := FindCharge(t.rows, again);
    if found.Some? && found.value != i {
      KeysDiffer(t.rows, i, found.value);
    }
  }

  /** A reversal that finds nothing changes nothing. */
  lemma UnmatchedRevert(s: State, e: Revert)
    requires FindCharge(s.rows, e).None?
    ensures RevertEntry(s, e) == s
  {
  }

  /** A row that a reversal does not match never comes to match it. */
  lemma NeverMatchesLater(s: State, t: State, e: Revert, i: nat)
    requires Persists(s, t) && i < |s.rows| && !Reverts(s.rows[i], e)
    ensures !Reverts(t.rows[i], e)
  {
    assert RowPersists(s.rows[i], t.rows[i], i in s.lines);
  }

  /** A reversal changes the ledger exactly when some row matches it. */
  lemma RevertActsExactly(s: State, e: Revert)
    requires RowsOk(s)
    ensures RevertEntry(s, e) != s <==> exists i: nat :: i < |s.rows| && Reverts(s.rows[i], e)
  {
    var found := FindCharge(s.rows, e);
    if found.None? {
      UnmatchedRevert(s, e);
    } else {
      LiveChargeHasNoRefund(s, found.value);
      assert |RevertEntry(s, e).rows| == |s.rows| + 1;
    }
  }

  /**
   * A keyed reversal that found nothing acts on a later delivery exactly when its charge was confirmed in between, and
   * then its key was not on the ledger before.
   */
  lemma LateReversalNeedsItsCharge(ops: seq<Op>, more: seq<Op>, e: Revert)
    requires e.version.Some? && FindCharge(After(ops).rows, e).None?
    ensures var s, t := After(ops), Replay(After(ops), more);
            && (RevertEntry(t, e) != t <==> exists i: nat :: |s.rows| <= i < |t.rows| && Reverts(t.rows[i], e))
            && (RevertEntry(t, e) != t ==> !HasKey(s.rows, EntryKey(e.entry, e.version.value)))
  {
    ReachableInv(ops);
    ReplayPersists(After(ops), more);
    ReplayKeepsInv(After(ops), more);
    LateReversal(After(ops), Replay(After(ops), more), e);
  }

  lemma LateReversal(s: State, t: State, e: Revert)
    requires Persists(s, t) && RowsOk(t) && LinksUnique(t.rows)
    requires e.version.Some? && FindCharge(s.rows, e).None?
    ensures RevertEntry(t, e) != t <==> exists i: nat :: |s.rows| <= i < |t.rows| && Reverts(t.rows[i], e)
    ensures RevertEntry(t, e) != t ==> !HasKey(s.rows, EntryKey(e.entry, e.version.value))
  {
    RevertActsExactly(t, e);
    forall i: nat | i < |s.rows|
      ensures !Reverts(t.rows[i], e)
    {
      NeverMatchesLater(s, t, e, i);
    }
    if RevertEntry(t, e) != t {
      var i: nat :| i < |t.rows| && Reverts(t.rows[i], e);
      forall j | 0 <= j < |s.rows|
        ensures s.rows[j].key != t.rows[i].key
      {
        KeysDiffer(t.rows, i, j);
        assert RowPersists(s.rows[j], t.rows[j], j in s.lines);
      }
    }
  }

  /**
   * The handler does not look at the stamp: a charge on an invoice is tombstoned like any other, keeps its stamp, and
   * leaves what the invoice adds up to as it was.
   */
  lemma BilledChargesAreTombstoned(ops: seq<Op>, e: Revert, i: nat, c: nat)
    requires FindCharge(After(ops).rows, e) == Some(i) && After(ops).rows[i].billed == Some(c)
    ensures var s, t := After(ops), RevertEntry(After(ops), e);
            && i < |t.rows| && t.rows[i].deleted && t.rows[i].billed == Some(c)
            && StampedAmount(t.rows, c) == StampedAmount(s.rows, c) && t.cycles == s.cycles
  {
    var s, t := After(ops), RevertEntry(After(ops), e);
    RevertGivesBack(ops, e, i);
    StampedKept(s.rows, t.rows, c);
  }

  /**
   * An event without a version is not idempotent: delivered again it changes nothing exactly when the task has no other
   * live charge of its own.
   */
  lemma UnkeyedRevertRepeats(ops: seq<Op>, e: Revert, i: nat)
    requires e.version.None? && FindCharge(After(ops).rows, e) == Some(i)
    ensures var s, t := After(ops), RevertEntry(After(ops), e);
            RevertEntry(t, e) == t <==> forall k :: 0 <= k < |s.rows| && k != i ==> !Reverts(s.rows[k], e)
  {
    ReachableInv(ops);
    RevertKeepsInv(After(ops), e);
    RevertGivesBack(ops, e, i);
    OthersStillMatch(After(ops), RevertEntry(After(ops), e), e, i);
  }

  lemma OthersStillMatch(s: State, t: State, e: Revert, i: nat)
    requires RowsOk(t) && |t.rows| == |s.rows| + 1 && i < |s.rows|
    requires t.rows[i].deleted && t.rows[|s.rows|].kind.Refund?
    requires forall k {:trigger t.rows[k]} :: 0 <= k < |s.rows| && k != i ==> t.rows[k] == s.rows[k]
    ensures RevertEntry(t, e) == t <==> forall k :: 0 <= k < |s.rows| && k != i ==> !Reverts(s.rows[k], e)
  {
    RevertActsExactly(t, e);
    forall k | 0 <= k < |s.rows| && k != i
      ensures Reverts(s.rows[k], e) <==> Reverts(t.rows[k], e)
    {
    }
  }
}
