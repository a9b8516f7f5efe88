/** Credited rows come back as mirrors, which may be billed and credited again. No hour is net-charged twice. */
module Chains {
  import opened Outcomes
  import opened Totals
  import opened Ledger
  import opened Invariants
  import opened History

  /** The movement a chain of mirrors starts from. */
  function Root(rows: seq<Row>, i: nat): (r: nat)
    requires i < |rows|
    ensures r <= i
  {
    if rows[i].rebilledFrom.Some? && rows[i].rebilledFrom.value < i
    then Root(rows, rows[i].rebilledFrom.value)
    else i
  }

  /** What a row has charged the client: its price while an invoice holds it, less what a credit note gave back. */
  function NetCharge(s: State, i: nat): int
    requires i < |s.rows|
  {
    (if s.rows[i].billed.Some? && s.rows[i].price.Some? then s.rows[i].price.value else 0)
    - (if i in s.lines then s.lines[i].price else 0)
  }

  function ChainColumn(s: State, root: nat): (xs: seq<int>)
    ensures |xs| == |s.rows|
    ensures forall i :: 0 <= i < |xs| ==> xs[i] == if Root(s.rows, i) == root then NetCharge(s, i) else 0
  {
    seq(|s.rows|, i requires 0 <= i < |s.rows| => if Root(s.rows, i) == root then NetCharge(s, i) else 0)
  }

  /** Billed minus credited over the whole chain of a movement. */
  function NetChargeOfChain(s: State, root: nat): int {
    Total(ChainColumn(s, root))
  }

  /** i is j or one of the rows that j was copied from. */
  predicate Precedes(rows: seq<Row>, i: nat, j: nat)
    requires j < |rows|
  {
    var from := rows[j].rebilledFrom;
    i == j || (from.Some? && from.value < j && Precedes(rows, i, from.value))
  }

  /** The copy through which a row is followed. */
  lemma {:induction false} NextInChain(rows: seq<Row>, i: nat, j: nat) returns (next: nat)
    requires j < |rows| && i != j && Precedes(rows, i, j)
    ensures i < next <= j && rows[next].rebilledFrom == Some(i)
  {
    var source := rows[j].rebilledFrom.value;
    if source == i {
      next := j;
    } else {
      next := NextInChain(rows, i, source);
    }
  }

  lemma MirrorsDiffer(rows: seq<Row>, i: nat, j: nat)
    requires LinksUnique(rows) && i < j < |rows| && rows[i].rebilledFrom.Some?
    ensures rows[i].rebilledFrom != rows[j].rebilledFrom
  {
    assert LinksDiffer(rows[i], rows[j]);
  }

  /** Mirrors are unique, so the rows of one chain are linearly ordered. */
  lemma {:induction false} ChainsAreLinear(s: State, i: nat, j: nat)
    requires RowsOk(s) && LinksUnique(s.rows)
    requires i < j < |s.rows| && Root(s.rows, i) == Root(s.rows, j)
    ensures Precedes(s.rows, i, j)
    decreases j
  {
    assert RowOk(s, j);
    var source := s.rows[j].rebilledFrom.value;
    if i < source {
      ChainsAreLinear(s, i, source);
    } else if source < i {
      ChainsAreLinear(s, source, i);
      var next := NextInChain(s.rows, source, i);
      MirrorsDiffer(s.rows, next, j);
    }
  }

  /** Every row of a chain but its last one has been credited. */
  lemma FollowedIsCredited(s: State, i: nat, j: nat)
    requires Inv(s)
    requires i < j < |s.rows| && Root(s.rows, i) == Root(s.rows, j)
    ensures i in s.lines
  {
    ChainsAreLinear(s, i, j);
    var next := NextInChain(s.rows, i, j);
    assert RowOk(s, next);
  }

  /** The rows of a chain charge the same hours at the same price. */
  lemma {:induction false} ChainsKeepTheCharge(s: State, i: nat)
    requires RowsOk(s) && i < |s.rows|
    ensures SameCharge(s.rows[i], s.rows[Root(s.rows, i)])
    ensures s.rows[Root(s.rows, i)].rebilledFrom.None?
  {
    assert RowOk(s, i);
    if s.rows[i].rebilledFrom.Some? {
      ChainsKeepTheCharge(s, s.rows[i].rebilledFrom.value);
    }
  }

  lemma CreditedNetsToZero(s: State, i: nat)
    requires Inv(s) && i in s.lines
    ensures i < |s.rows| && NetCharge(s, i) == 0
  {
    assert LineOk(s, i);
  }

  /** With the last row of the chain known, the chain has charged what that row has. */
  lemma ChainChargesItsTail(s: State, tail: nat)
    requires Inv(s) && tail < |s.rows|
    requires forall j :: tail < j < |s.rows| ==> Root(s.rows, j) != Root(s.rows, tail)
    ensures NetChargeOfChain(s, Root(s.rows, tail)) == NetCharge(s, tail)
  {
    var root := Root(s.rows, tail);
    var xs := ChainColumn(s, root);
    forall i | 0 <= i < |xs| && i != tail
      ensures xs[i] == 0
    {
      if Root(s.rows, i) == root {
        FollowedIsCredited(s, i, tail);
        CreditedNetsToZero(s, i);
      }
    }
    TotalSingle(xs, tail);
  }

  lemma {:induction false} TailOf(s: State, root: nat, n: nat) returns (tail: nat)
    requires root < n <= |s.rows| && s.rows[root].rebilledFrom.None?
    ensures root <= tail < n && Root(s.rows, tail) == root
    ensures forall j :: tail < j < n ==> Root(s.rows, j) != root
    decreases n
  {
    if Root(s.rows, n - 1) == root {
      tail := n - 1;
    } else {
      tail := TailOf(s, root, n - 1);
    }
  }

  /**
   * In every reachable state, billed minus credited over the chain of a movement is nothing or its own price, and it is
   * the price exactly when the last row of the chain is on an invoice and was not credited.
   */
  lemma NoHourIsChargedTwice(ops: seq<Op>, root: nat) returns (tail: nat)
    requires root < |After(ops).rows| && After(ops).rows[root].rebilledFrom.None?
    ensures var s := After(ops);
            && tail < |s.rows| && Root(s.rows, tail) == root
            && (forall i :: 0 <= i < |s.rows| && Root(s.rows, i) == root && i != tail ==> i in s.lines)
            && NetChargeOfChain(s, root) ==
                 (if s.rows[tail].billed.Some? && tail !in s.lines
                       && s.rows[root].price.Some? then s.rows[root].price.value else 0)
  {
    var s := After(ops);
    ReachableInv(ops);
    tail := TailOf(s, root, |s.rows|);
    ChainChargesItsTail(s, tail);
    ChainsKeepTheCharge(s, tail);
    if tail in s.lines {
      CreditedNetsToZero(s, tail);
    }
    forall i | 0 <= i < |s.rows| && Root(s.rows, i) == root && i != tail
      ensures i in s.lines
    {
      FollowedIsCredited(s, i, tail);
    }
  }

  /** A credited row stays on its invoice, with its charge, through every later run; the invoice is never cancelled. */
  lemma CreditedRowStaysStamped(ops: seq<Op>, more: seq<Op>, i: nat)
    requires i in After(ops).lines
    ensures var s, t := After(ops), Replay(After(ops), more);
            && i < |s.rows| <= |t.rows|
            && i in t.lines && t.lines[i] == s.lines[i]
            && s.rows[i].billed.Some? && t.rows[i].billed == s.rows[i].billed && SameCharge(s.rows[i], t.rows[i])
            && t.rows[i].billed.value < |t.cycles| && AcceptsCredit(t.cycles[t.rows[i].billed.value].status)
  {
    var s, t := After(ops), Replay(After(ops), more);
    ReachableInv(ops);
    ReplayPersists(s, more);
    ReplayKeepsInv(s, more);
    assert LineOk(s, i);
    assert RowPersists(s.rows[i], t.rows[i], true);
    assert LineOk(t, i);
    assert NoteOk(t, t.lines[i].note);
  }
}
