/** The three cards of the staff: pending, invoiced and paid money of a client's hours. */
module Rollup {
  import opened Outcomes
  import opened Totals
  import opened Grouping
  import opened Ledger
  import opened Invariants
  import opened Reports
  import opened Selection
  import Balance
  import Calendar

  /** A live priced charge that some invoice stamped. */
  predicate LiveStamped(r: Row) {
    !r.deleted && Billable(r.kind) && r.price.Some? && r.billed.Some?
  }

  /** The last instant an invoice issued now can reach: the end of the current month. */
  function Reach(now: Calendar.Instant): Calendar.Instant {
    Calendar.PeriodBounds(Calendar.LocalMonth(now)).end
  }

  /** A charge that the flow of billing could still take, whatever its month. */
  predicate Pending(s: State, now: Calendar.Instant, r: Row) {
    Unbilled(s, r) && r.price.Some? && r.workedOn.Some? && r.workedOn.value <= Calendar.LocalDay(Reach(now))
  }

  function LiveFlags(rows: seq<Row>): (r: seq<bool>)
    ensures |r| == |rows| && forall i :: 0 <= i < |r| ==> r[i] == LiveStamped(rows[i])
  {
    seq(|rows|, i requires 0 <= i < |rows| => LiveStamped(rows[i]))
  }

  function LiveIds(rows: seq<Row>): (r: seq<nat>)
    ensures forall i: nat :: i in r <==> i < |rows| && LiveStamped(rows[i])
    ensures forall k :: 0 <= k < |r| ==> r[k] < |rows| && LiveStamped(rows[r[k]])
    ensures forall j, k :: 0 <= j < k < |r| ==> r[j] < r[k]
  {
    var r := Places(LiveFlags(rows));
    assert forall k :: 0 <= k < |r| ==> r[k] in r;
    r
  }

  /** The cycle of each live stamped row. */
  function CyclesOf(rows: seq<Row>): (r: seq<nat>)
    ensures |r| == |LiveIds(rows)| && forall k :: 0 <= k < |r| ==> r[k] == rows[LiveIds(rows)[k]].billed.value
  {
    seq(|LiveIds(rows)|, k requires 0 <= k < |LiveIds(rows)| => rows[LiveIds(rows)[k]].billed.value)
  }

  function GrossOf(rows: seq<Row>): (r: seq<int>)
    ensures |r| == |LiveIds(rows)| && forall k :: 0 <= k < |r| ==> r[k] == rows[LiveIds(rows)[k]].price.value
  {
    seq(|LiveIds(rows)|, k requires 0 <= k < |LiveIds(rows)| => rows[LiveIds(rows)[k]].price.value)
  }

  function CreditedOf(s: State): (r: seq<int>)
    ensures |r| == |LiveIds(s.rows)|
    ensures forall k :: 0 <= k < |r| ==>
      r[k] == if LiveIds(s.rows)[k] in s.lines then s.rows[LiveIds(s.rows)[k]].price.value else 0
  {
    seq(|LiveIds(s.rows)|, k requires 0 <= k < |LiveIds(s.rows)| =>
      if LiveIds(s.rows)[k] in s.lines then s.rows[LiveIds(s.rows)[k]].price.value else 0)
  }

  /** What an invoice of a card counts: its live charges, less the credited ones. */
  function NetOf(s: State, c: nat): int {
    TotalOf(CyclesOf(s.rows), GrossOf(s.rows), c) - TotalOf(CyclesOf(s.rows), CreditedOf(s), c)
  }

  /** An invoice on a card. */
  datatype CardInvoice = CardInvoice(cycle: nat, amount: int, credited: int, creditedTotal: int, date: Calendar.Instant)

  datatype BillingState = PendingState | InvoicedState | PaidState

  /** The badge of the rows of a cycle: a draft has charged nobody yet. */
  function StateOf(status: Status): BillingState {
    match status
    case Sent | WrittenOff => InvoicedState
    case Paid => PaidState
    case Draft | Cancelled => PendingState
  }

  datatype Cards = Cards(
    pending: int,
    invoiced: int,
    paid: int,
    invoicedList: seq<CardInvoice>,
    paidList: seq<CardInvoice>,
    states: seq<BillingState>)

  function CardAmounts(list: seq<CardInvoice>): (xs: seq<int>)
    ensures |xs| == |list| && forall k :: 0 <= k < |xs| ==> xs[k] == list[k].amount
  {
    seq(|list|, k requires 0 <= k < |list| => list[k].amount)
  }

  function CardTotal(list: seq<CardInvoice>): int {
    Total(CardAmounts(list))
  }

  lemma OneMoreCard(list: seq<CardInvoice>, card: CardInvoice)
    ensures CardTotal(list + [card]) == CardTotal(list) + card.amount
  {
    assert CardAmounts(list + [card]) == CardAmounts(list) + [card.amount];
    TotalAppend(CardAmounts(list), card.amount);
  }

  function PendingColumn(s: State, now: Calendar.Instant): (xs: seq<int>)
    ensures |xs| == |s.rows|
    ensures forall i :: 0 <= i < |xs| ==> xs[i] == if Pending(s, now, s.rows[i]) then s.rows[i].price.value else 0
  {
    seq(|s.rows|, i requires 0 <= i < |s.rows| => if Pending(s, now, s.rows[i]) then s.rows[i].price.value else 0)
  }

  /** Open work of the current month or before, with its price: what the pending card sums. */
  predicate Awaits(s: State, now: Calendar.Instant, r: Row) {
    && OpenWork(s, r) && r.price.Some?
    && r.workedOn.Some? && r.workedOn.value < Calendar.MonthStart(Calendar.LocalMonth(now) + 1)
  }

  function AwaitingTotal(s: State, now: Calendar.Instant): int {
    Total(seq(|s.rows|, i requires 0 <= i < |s.rows| => if Awaits(s, now, s.rows[i]) then s.rows[i].price.value else 0))
  }

  lemma PendingIsAwaiting(s: State, now: Calendar.Instant)
    ensures forall r :: Pending(s, now, r) <==> Awaits(s, now, r)
    ensures Total(PendingColumn(s, now)) == AwaitingTotal(s, now)
  {
    Calendar.PeriodEndsOnItsLastDay(Calendar.LocalMonth(now));
    assert PendingColumn(s, now) == seq(|s.rows|, i requires 0 <= i < |s.rows| =>
      if Awaits(s, now, s.rows[i]) then s.rows[i].price.value else 0);
  }

  /** The groups of the aggregate query: each cycle that some live row points at, once. */
  function GroupsOf(rows: seq<Row>): seq<nat> {
    Distinct(CyclesOf(rows))
  }

  function CardDate(c: Cycle): Calendar.Instant {
    if c.paidAt.Some? then c.paidAt.value else if c.sentAt.Some? then c.sentAt.value else c.createdAt
  }

  function CardOf(s: State, c: nat): CardInvoice
    requires c < |s.cycles|
  {
    var credited := TotalOf(CyclesOf(s.rows), CreditedOf(s), c);
    CardInvoice(c, NetOf(s, c), credited, Balance.CreditedTotal(s.notes, c), CardDate(s.cycles[c]))
  }

  /** The invoices of a card: those of the groups whose status puts them there, each with its own figures. */
  function CardList(s: State, groups: seq<nat>, paid: bool): seq<CardInvoice> {
    if groups == [] then []
    else
      var c := groups[|groups| - 1];
      var rest := CardList(s, groups[..|groups| - 1], paid);
      if c < |s.cycles| && s.cycles[c].status.Paid? == paid then rest + [CardOf(s, c)] else rest
  }

  /** One more group adds one invoice to one card, or none if its cycle is missing. */
  lemma CardListGrows(s: State, groups: seq<nat>, k: nat, paid: bool)
    requires k < |groups|
    ensures var before, after, c := CardList(s, groups[..k], paid), CardList(s, groups[..k + 1], paid), groups[k];
            if c < |s.cycles| && s.cycles[c].status.Paid? == paid
            then after == before + [CardOf(s, c)] && CardTotal(after) == CardTotal(before) + CardOf(s, c).amount
            else after == before
  {
    assert groups[..k + 1][..k] == groups[..k];
    if groups[k] < |s.cycles| {
      OneMoreCard(CardList(s, groups[..k], paid), CardOf(s, groups[k]));
    }
  }

  /** The net of the first groups, orphans left out. */
  function KnownNet(s: State, groups: seq<nat>): int {
    if groups == [] then 0
    else
      var c := groups[|groups| - 1];
      KnownNet(s, groups[..|groups| - 1]) + if c < |s.cycles| then NetOf(s, c) else 0
  }

  /** The two cards together count every group once. */
  lemma {:induction false} CardsAddUp(s: State, groups: seq<nat>)
    ensures CardTotal(CardList(s, groups, false)) + CardTotal(CardList(s, groups, true)) == KnownNet(s, groups)
  {
    if groups != [] {
      var rest, c := groups[..|groups| - 1], groups[|groups| - 1];
      CardsAddUp(s, rest);
      if c < |s.cycles| {
        OneMoreCard(CardList(s, rest, s.cycles[c].status.Paid?), CardOf(s, c));
      }
    }
  }

  /** The loop over the groups; one whose cycle is missing is skipped. */
  method HoursBillingRollup(s: State, now: Calendar.Instant) returns (r: Cards)
    ensures r.pending == Total(PendingColumn(s, now)) == AwaitingTotal(s, now)
    ensures r.invoicedList == CardList(s, GroupsOf(s.rows), false) && r.paidList == CardList(s, GroupsOf(s.rows), true)
    ensures r.invoiced == CardTotal(r.invoicedList) && r.paid == CardTotal(r.paidList)
    ensures |r.states| == |s.cycles| && forall c :: 0 <= c < |s.cycles| ==> r.states[c] == StateOf(s.cycles[c].status)
    ensures forall c :: 0 <= c < |s.cycles| ==>
      && (r.states[c] == InvoicedState <==> s.cycles[c].status == Sent || s.cycles[c].status == WrittenOff)
      && (r.states[c] == PaidState <==> s.cycles[c].status == Paid)
  {
    var groups := GroupsOf(s.rows);
    var invoiced, paid := 0, 0;
    var invoicedList: seq<CardInvoice>, paidList: seq<CardInvoice> := [], [];
    for k := 0 to |groups|
      invariant invoicedList == CardList(s, groups[..k], false) && paidList == CardList(s, groups[..k], true)
      invariant invoiced == CardTotal(invoicedList) && paid == CardTotal(paidList)
    {
      var c := groups[k];
      CardListGrows(s, groups, k, false);
      CardListGrows(s, groups, k, true);
      if c < |s.cycles| {
        var card := CardOf(s, c);
        if s.cycles[c].status.Paid? {
          paid := paid + card.amount;
          paidList := paidList + [card];
        } else {
          invoiced := invoiced + card.amount;
          invoicedList := invoicedList + [card];
        }
      }
    }
    assert groups[..|groups|] == groups;
    var states := seq(|s.cycles|, c requires 0 <= c < |s.cycles| => StateOf(s.cycles[c].status));
    PendingIsAwaiting(s, now);
    r := Cards(Total(PendingColumn(s, now)), invoiced, paid, invoicedList, paidList, states);
  }

  /** The money in force: live, priced, stamped and not credited. */
  function InForceColumn(s: State): (xs: seq<int>)
    ensures |xs| == |s.rows|
    ensures forall i :: 0 <= i < |xs| ==>
      xs[i] == if LiveStamped(s.rows[i]) && i !in s.lines then s.rows[i].price.value else 0
  {
    seq(|s.rows|, i requires 0 <= i < |s.rows| =>
      if LiveStamped(s.rows[i]) && i !in s.lines then s.rows[i].price.value else 0)
  }

  /** No live row points at a missing or cancelled cycle. */
  lemma NoOrphans(s: State)
    requires RowsOk(s)
    ensures forall k :: 0 <= k < |GroupsOf(s.rows)| ==>
      GroupsOf(s.rows)[k] < |s.cycles| && !s.cycles[GroupsOf(s.rows)[k]].status.Cancelled?
  {
    forall k | 0 <= k < |GroupsOf(s.rows)|
      ensures GroupsOf(s.rows)[k] < |s.cycles| && !s.cycles[GroupsOf(s.rows)[k]].status.Cancelled?
    {
      assert GroupsOf(s.rows)[k] in CyclesOf(s.rows);
      var j :| 0 <= j < |CyclesOf(s.rows)| && CyclesOf(s.rows)[j] == GroupsOf(s.rows)[k];
      assert RowOk(s, LiveIds(s.rows)[j]);
    }
  }

  function NetColumn(s: State, groups: seq<nat>): (xs: seq<int>)
    ensures |xs| == |groups| && forall k :: 0 <= k < |xs| ==> xs[k] == NetOf(s, groups[k])
  {
    seq(|groups|, k requires 0 <= k < |groups| => NetOf(s, groups[k]))
  }

  lemma {:induction false} KnownNetIsTotal(s: State, groups: seq<nat>)
    requires forall k :: 0 <= k < |groups| ==> groups[k] < |s.cycles|
    ensures KnownNet(s, groups) == Total(NetColumn(s, groups))
  {
    if groups != [] {
      var last := |groups| - 1;
      KnownNetIsTotal(s, groups[..last]);
      assert NetColumn(s, groups)[..last] == NetColumn(s, groups[..last]);
    }
  }

  lemma NetColumnSplits(s: State, groups: seq<nat>)
    ensures Total(NetColumn(s, groups)) ==
      Total(GroupTotals(CyclesOf(s.rows), GrossOf(s.rows), groups))
      - Total(GroupTotals(CyclesOf(s.rows), CreditedOf(s), groups))
  {
    TotalPlus(NetColumn(s, groups), GroupTotals(CyclesOf(s.rows), CreditedOf(s), groups),
              GroupTotals(CyclesOf(s.rows), GrossOf(s.rows), groups));
  }

  lemma GroupsCoverTheKeys(keys: seq<nat>, values: seq<int>)
    requires |keys| == |values|
    ensures Total(GroupTotals(keys, values, Distinct(keys))) == Total(values)
  {
    forall i | 0 <= i < |keys|
      ensures keys[i] in Distinct(keys)
    {
      assert keys[i] in keys;
    }
    GroupsAddUp(keys, values, Distinct(keys));
  }

  lemma LiveRowsAddUp(s: State)
    ensures Total(GrossOf(s.rows)) - Total(CreditedOf(s)) == Total(InForceColumn(s))
  {
    ScatteredDifference(InForceColumn(s), LiveIds(s.rows), GrossOf(s.rows), CreditedOf(s));
  }

  lemma GroupsCoverTheMoney(s: State)
    requires RowsOk(s)
    ensures KnownNet(s, GroupsOf(s.rows)) == Total(InForceColumn(s))
  {
    NoOrphans(s);
    KnownNetIsTotal(s, GroupsOf(s.rows));
    NetColumnSplits(s, GroupsOf(s.rows));
    GroupsCoverTheKeys(CyclesOf(s.rows), GrossOf(s.rows));
    GroupsCoverTheKeys(CyclesOf(s.rows), CreditedOf(s));
    LiveRowsAddUp(s);
  }

  /** The rows of one invoice that its card counts. */
  function InForceIn(s: State, c: nat): (xs: seq<int>)
    ensures |xs| == |s.rows|
    ensures forall i :: 0 <= i < |xs| ==> xs[i] == if s.rows[i].billed == Some(c) then InForceColumn(s)[i] else 0
  {
    seq(|s.rows|, i requires 0 <= i < |s.rows| => if s.rows[i].billed == Some(c) then InForceColumn(s)[i] else 0)
  }

  lemma CountedRow(s: State, c: nat, k: nat)
    requires k < |LiveIds(s.rows)|
    ensures InForceIn(s, c)[LiveIds(s.rows)[k]] ==
      Keyed(CyclesOf(s.rows), GrossOf(s.rows), c)[k] - Keyed(CyclesOf(s.rows), CreditedOf(s), c)[k]
  {
  }

  lemma UncountedRow(s: State, c: nat, i: nat)
    requires i < |s.rows| && i !in LiveIds(s.rows)
    ensures InForceIn(s, c)[i] == 0
  {
  }

  lemma ScatteredDifference(xs: seq<int>, ids: seq<nat>, gross: seq<int>, credited: seq<int>)
    requires |ids| == |gross| == |credited|
    requires forall k :: 0 <= k < |ids| ==> ids[k] < |xs| && xs[ids[k]] == gross[k] - credited[k]
    requires forall j, k :: 0 <= j < k < |ids| ==> ids[j] != ids[k]
    requires forall i :: 0 <= i < |xs| && i !in ids ==> xs[i] == 0
    ensures Total(xs) == Total(gross) - Total(credited)
  {
    var net := seq(|ids|, k requires 0 <= k < |ids| => gross[k] - credited[k]);
    TotalPlus(net, credited, gross);
    TotalScattered(xs, ids, net);
  }

  /** The amount of an invoice on a card is what its own rows hold in force. */
  lemma CardAmountIsInForce(s: State, c: nat)
    ensures NetOf(s, c) == Total(InForceIn(s, c))
  {
    var ids := LiveIds(s.rows);
    var gross, credited := Keyed(CyclesOf(s.rows), GrossOf(s.rows), c), Keyed(CyclesOf(s.rows), CreditedOf(s), c);
    forall k | 0 <= k < |ids|
      ensures InForceIn(s, c)[ids[k]] == gross[k] - credited[k]
    {
      CountedRow(s, c, k);
    }
    forall i: nat | i < |s.rows| && i !in ids
      ensures InForceIn(s, c)[i] == 0
    {
      UncountedRow(s, c, i);
    }
    ScatteredDifference(InForceIn(s, c), ids, gross, credited);
  }

  /** What of an invoice was credited: its live charges that a note took back. */
  function CreditedIn(s: State, c: nat): int {
    Total(seq(|s.rows|, i requires 0 <= i < |s.rows| =>
      if LiveStamped(s.rows[i]) && s.rows[i].billed == Some(c) && i in s.lines then s.rows[i].price.value else 0))
  }

  lemma CardCreditsWhatWasCredited(s: State, c: nat)
    requires c < |s.cycles|
    ensures CardOf(s, c).credited == CreditedIn(s, c)
    ensures !s.cycles[c].status.Cancelled? ==>
      s.cycles[c].amounts.total + CardOf(s, c).creditedTotal == Balance.BalanceOf(s, c)
  {
    var xs := seq(|s.rows|, i requires 0 <= i < |s.rows| =>
      if LiveStamped(s.rows[i]) && s.rows[i].billed == Some(c) && i in s.lines then s.rows[i].price.value else 0);
    CreditedIsScattered(s, c, xs);
  }

  lemma CreditedIsScattered(s: State, c: nat, xs: seq<int>)
    requires |xs| == |s.rows|
    requires forall i {:trigger xs[i]} :: 0 <= i < |xs| ==>
      xs[i] == if LiveStamped(s.rows[i]) && s.rows[i].billed == Some(c) && i in s.lines
               then s.rows[i].price.value else 0
    ensures TotalOf(CyclesOf(s.rows), CreditedOf(s), c) == Total(xs)
  {
    var ids := LiveIds(s.rows);
    var credited := Keyed(CyclesOf(s.rows), CreditedOf(s), c);
    forall k | 0 <= k < |ids|
      ensures xs[ids[k]] == credited[k]
    {
      assert LiveStamped(s.rows[ids[k]]);
    }
    TotalScattered(xs, ids, credited);
  }

  /**
   * In every reachable state a card dates an invoice by its payment if it was paid, by its sending if it was only sent,
   * and by its creation if the client never saw it; and its badge says pending exactly if it was never sent.
   */
  lemma CardsAreDated(ops: seq<Op>, c: nat)
    requires c < |After(ops).cycles| && !After(ops).cycles[c].status.Cancelled?
    ensures var cycle := After(ops).cycles[c];
            var date := CardOf(After(ops), c).date;
            && (cycle.status == Paid ==> cycle.paidAt == Some(date))
            && (cycle.status == Sent || cycle.status == WrittenOff ==> cycle.sentAt == Some(date))
            && (cycle.status == Draft ==> date == cycle.createdAt)
            && (StateOf(cycle.status) == PaidState <==> cycle.paidAt.Some?)
            && (StateOf(cycle.status) == PendingState <==> cycle.sentAt.None?)
  {
    ReachableInv(ops);
    assert CycleOk(After(ops), c);
  }

  /**
   * In every reachable state the cards partition the money: no group is an orphan or cancelled, the two lists together
   * are exactly the money in force, and nothing pending is on an invoice.
   */
  lemma CardsPartitionTheMoney(ops: seq<Op>, now: Calendar.Instant, k: nat)
    ensures var s := After(ops);
            && (k < |GroupsOf(s.rows)| ==>
                  && GroupsOf(s.rows)[k] < |s.cycles|
                  && !s.cycles[GroupsOf(s.rows)[k]].status.Cancelled?)
            && CardTotal(CardList(s, GroupsOf(s.rows), false)) + CardTotal(CardList(s, GroupsOf(s.rows), true))
               == Total(InForceColumn(s))
            && (k < |s.rows| ==> !(Pending(s, now, s.rows[k]) && LiveStamped(s.rows[k])))
  {
    ReachableInv(ops);
    NoOrphans(After(ops));
    GroupsCoverTheMoney(After(ops));
    CardsAddUp(After(ops), GroupsOf(After(ops).rows));
  }

  // ---------------------------------------------------------------- the cards and the flow of billing

  /** Whether the months of a request are months up to the current one. */
  ghost predicate UpToNow(q: CloseRequest, now: Calendar.Instant) {
    forall m :: Asked(q.scope, m) ==> m <= Calendar.LocalMonth(now)
  }

  lemma CutsOffWithinReach(q: CloseRequest, w: Window, now: Calendar.Instant)
    requires ResolveWindow(q.scope, q.until) == Ok(w) && UpToNow(q, now)
    ensures Calendar.LocalDay(w.cutoff) <= Calendar.LocalDay(Reach(now))
  {
    WindowIsResolved(q.scope, q.until);
    var m :| LatestAsked(q.scope, m) && w.cutoff <= Calendar.PeriodBounds(m).end;
    Calendar.LocalDayIsMonotone(w.cutoff, Calendar.PeriodBounds(m).end);
    Calendar.MonthStartIsMonotone(m + 1, Calendar.LocalMonth(now) + 1);
    Calendar.PeriodEndsOnItsLastDay(m);
    Calendar.PeriodEndsOnItsLastDay(Calendar.LocalMonth(now));
  }

  lemma UnstampedNumber(s: State)
    requires RowsOk(s)
    ensures forall i :: 0 <= i < |s.rows| ==> s.rows[i].billed != Some(|s.cycles|)
  {
    forall i | 0 <= i < |s.rows|
      ensures s.rows[i].billed != Some(|s.cycles|)
    {
      assert RowOk(s, i);
    }
  }

  /** Stamping moves a row that is taken from the pending card to the money in force, and no other row. */
  lemma RowMovesMoney(s: State, t: State, scope: Scope, day: Calendar.Day, now: Calendar.Instant, i: nat)
    requires LinesOk(s) && i < |s.rows| && s.rows[i].billed != Some(|s.cycles|)
    requires t.tasks == s.tasks && t.lines == s.lines && t.rows == Stamp(s, scope, day, |s.cycles|)
    requires day <= Calendar.LocalDay(Reach(now))
    ensures PendingColumn(s, now)[i] == PendingColumn(t, now)[i] + PriceColumn(t.rows, |s.cycles|)[i]
    ensures InForceColumn(t)[i] == InForceColumn(s)[i] + PriceColumn(t.rows, |s.cycles|)[i]
  {
    if i in s.lines {
      CreditedIsStamped(s, i);
    }
  }

  lemma StampingMovesMoney(s: State, t: State, scope: Scope, day: Calendar.Day, now: Calendar.Instant)
    requires RowsOk(s) && LinesOk(s)
    requires t.tasks == s.tasks && t.lines == s.lines && t.rows == Stamp(s, scope, day, |s.cycles|)
    requires day <= Calendar.LocalDay(Reach(now))
    ensures Total(PendingColumn(s, now)) == Total(PendingColumn(t, now)) + StampedAmount(t.rows, |s.cycles|)
    ensures Total(InForceColumn(t)) == Total(InForceColumn(s)) + StampedAmount(t.rows, |s.cycles|)
  {
    UnstampedNumber(s);
    forall i | 0 <= i < |s.rows|
      ensures PendingColumn(s, now)[i] == PendingColumn(t, now)[i] + PriceColumn(t.rows, |s.cycles|)[i]
      ensures InForceColumn(t)[i] == InForceColumn(s)[i] + PriceColumn(t.rows, |s.cycles|)[i]
    {
      RowMovesMoney(s, t, scope, day, now, i);
    }
    TotalPlus(PendingColumn(t, now), PriceColumn(t.rows, |s.cycles|), PendingColumn(s, now));
    TotalPlus(InForceColumn(s), PriceColumn(t.rows, |s.cycles|), InForceColumn(t));
  }

  /**
   * An emission of months up to the current one takes from the pending card exactly what it stamps, and puts it on the
   * other two: the three cards together show the same money before and after.
   */
  lemma EmissionKeepsTheMoney(ops: seq<Op>, q: CloseRequest, now: Calendar.Instant)
    requires CloseCycle(After(ops), q).Ok? && UpToNow(q, now)
    ensures var s, t := After(ops), CloseCycle(After(ops), q).value;
            && AwaitingTotal(t, now) == AwaitingTotal(s, now) - StampedAmount(t.rows, |s.cycles|)
            && Total(InForceColumn(t)) == Total(InForceColumn(s)) + StampedAmount(t.rows, |s.cycles|)
  {
    var s := After(ops);
    ReachableInv(ops);
    ClosedIsIssued(s, q);
    var w := CheckClose(s, q).value;
    CutsOffWithinReach(q, w, now);
    StampingMovesMoney(s, Issue(s, q, w), q.scope, Calendar.LocalDay(w.cutoff), now);
    PendingIsAwaiting(s, now);
    PendingIsAwaiting(Issue(s, q, w), now);
  }

  /** A row awaits exactly if choosing the month of its work, up to the end of the current month, bills it. */
  lemma AwaitsExactly(s: State, now: Calendar.Instant, r: Row)
    ensures Awaits(s, now, r) <==>
            r.workedOn.Some? && ToBill(s, Chosen([Calendar.MonthOf(r.workedOn.value)]), Some(Reach(now)), r)
  {
    if r.workedOn.Some? {
      var m := Calendar.MonthOf(r.workedOn.value);
      Calendar.PeriodEndsOnItsLastDay(Calendar.LocalMonth(now));
      assert Asked(Chosen([m]), m) && r.workedOn.value < Calendar.MonthStart(m + 1);
    }
  }

  /** The row is on the invoice of such an emission exactly if the pending card counted it. */
  lemma PendingIsWhatCanBeBilled(ops: seq<Op>, now: Calendar.Instant, i: nat, q: CloseRequest)
    requires i < |After(ops).rows| && After(ops).rows[i].workedOn.Some? && CloseCycle(After(ops), q).Ok?
    requires q.scope == Chosen([Calendar.MonthOf(After(ops).rows[i].workedOn.value)]) && q.until == Some(Reach(now))
    ensures var s := After(ops);
            CloseCycle(s, q).value.rows[i].billed == Some(|s.cycles|) <==> Awaits(s, now, s.rows[i])
  {
    var s := After(ops);
    ReachableInv(ops);
    UnstampedNumber(s);
    ClosedIsIssued(s, q);
    AwaitsExactly(s, now, s.rows[i]);
    TakesExactly(s, q.scope, q.until, CheckClose(s, q).value, s.rows[i]);
  }
}
