/**
 * The tickets of a client that is disabled and reactivated: the sweep that closes them, the restoration that brings
 * them back from their events, and what the staff does to single tickets in between.
 */
module Tickets {
  import opened Outcomes

  datatype Status = Open | InProgress | InReview | Resolved | Closed

  datatype CloseReason = ResolvedBySupport | ResolvedByClient | Duplicate | Spam | Other

  datatype Ticket = Ticket(
    status: Status,
    closeReason: Option<CloseReason>,
    closedAt: Option<int>,
    closeNote: Option<string>,
    closedBy: Option<nat>,
    adminNotes: Option<string>)

  datatype EventKind = StatusChange | ManualClose | Reopened | KanbanMove

  datatype Event = Event(ticket: nat, kind: EventKind, from: Option<Status>, to: Status)

  datatype ClientStatus = Active | Disabled | Archived

  /** Tickets by order of creation, events from the oldest to the newest. */
  datatype Board = Board(client: ClientStatus, tickets: seq<Ticket>, events: seq<Event>)

  datatype Error = TicketNotFound | CancelRequiresAction | StatusRetired | InvalidTransition | NotClassified
                 | CancelNoteRequired | AlreadyClosed | ResolvedNotCancellable

  predicate IsOpen(s: Status) {
    s.Open? || s.InProgress? || s.InReview?
  }

  predicate Allowed(from: Status, to: Status) {
    match from
    case Open => to.InProgress? || to.Closed?
    case InProgress => to.Resolved? || to.Open? || to.Closed?
    case InReview => to.InProgress? || to.Resolved? || to.Closed?
    case Resolved => to.InProgress?
    case Closed => to.Open?
  }

  // ---------------------------------------------------------------- disabling and reactivating

  const DISABLED_NOTE := "Cliente deshabilitado"

  predicate Within(found: seq<nat>, n: nat) {
    forall k :: 0 <= k < |found| ==> found[k] < n
  }

  function PositionsUpTo(tickets: seq<Ticket>, wanted: Ticket -> bool, n: nat): (found: seq<nat>)
    requires n <= |tickets|
    ensures forall i: nat :: i in found <==> i < n && wanted(tickets[i])
    ensures Within(found, n)
    ensures forall j, k :: 0 <= j < k < |found| ==> found[j] != found[k]
  {
    if n == 0 then []
    else PositionsUpTo(tickets, wanted, n - 1) + if wanted(tickets[n - 1]) then [n - 1] else []
  }

  predicate ToSweep(t: Ticket) {
    IsOpen(t.status)
  }

  /** Closed by the sweep: the only closing that leaves no reason. */
  predicate ToRestore(t: Ticket) {
    t.status.Closed? && t.closeReason.None?
  }

  function OpenTickets(b: Board): seq<nat> {
    PositionsUpTo(b.tickets, ToSweep, |b.tickets|)
  }

  function SweptTickets(b: Board): seq<nat> {
    PositionsUpTo(b.tickets, ToRestore, |b.tickets|)
  }

  function SweepOne(b: Board, i: nat, user: nat, now: int): Board
    requires i < |b.tickets|
  {
    var t := b.tickets[i];
    b.(tickets := b.tickets[i := t.(status := Closed, closedAt := Some(now), closeNote := Some(DISABLED_NOTE),
          closedBy := Some(user))],
       events := b.events + [Event(i, StatusChange, Some(t.status), Closed)])
  }

  function Sweep(b: Board, found: seq<nat>, user: nat, now: int): (r: Board)
    requires Within(found, |b.tickets|)
    ensures |r.tickets| == |b.tickets|
  {
    if found == [] then b else SweepOne(Sweep(b, found[..|found| - 1], user, now), found[|found| - 1], user, now)
  }

  predicate IsClosing(e: Event, i: nat) {
    e.ticket == i && e.kind.StatusChange? && e.to.Closed?
  }

  /** Where the newest closing by a change of status came from; an unknown origin is taken for open. */
  function RestoreTo(events: seq<Event>, i: nat): Status {
    if events == [] then Open
    else
      var last := events[|events| - 1];
      if IsClosing(last, i) then (if last.from.Some? then last.from.value else Open)
      else RestoreTo(events[..|events| - 1], i)
  }

  function RestoreOne(b: Board, i: nat): Board
    requires i < |b.tickets|
  {
    var to := RestoreTo(b.events, i);
    b.(tickets := b.tickets[i :=
         b.tickets[i].(status := to, closedAt := None, closeReason := None, closeNote := None, closedBy := None)],
       events := b.events + [Event(i, StatusChange, Some(Closed), to)])
  }

  function Restore(b: Board, found: seq<nat>): (r: Board)
    requires Within(found, |b.tickets|)
    ensures |r.tickets| == |b.tickets|
  {
    if found == [] then b else RestoreOne(Restore(b, found[..|found| - 1]), found[|found| - 1])
  }

  function ChangeStatus(b: Board, to: ClientStatus, user: nat, now: int): Board {
    var c := b.(client := to);
    if to.Active? then Restore(c, SweptTickets(c)) else Sweep(c, OpenTickets(c), user, now)
  }

  // ---------------------------------------------------------------- what the staff does to a ticket

  function CreateTicket(b: Board): Board {
    b.(tickets := b.tickets + [Ticket(Open, None, None, None, None, None)],
       events := b.events + [Event(|b.tickets|, StatusChange, None, Open)])
  }

  predicate IsReopening(from: Status, to: Status) {
    (from.Resolved? || from.Closed?) && !to.Resolved? && !to.Closed?
  }

  function ReopenEvents(i: nat, from: Status, to: Status): seq<Event> {
    if IsReopening(from, to) then [Event(i, Reopened, Some(from), to)] else []
  }

  /** The detail of a ticket: a status, notes, or both. The reason of an earlier closing stays. */
  function UpdateTicket(b: Board, i: nat, status: Option<Status>, notes: Option<Option<string>>, classified: bool)
    : Result<Board, Error>
  {
    if i >= |b.tickets| then Err(TicketNotFound)
    else
      var t := b.tickets[i];
      var noted := if notes.Some? then t.(adminNotes := notes.value) else t;
      if status.None? || status.value == t.status then Ok(b.(tickets := b.tickets[i := noted]))
      else if status.value.Closed? then Err(CancelRequiresAction)
      else if status.value.InReview? then Err(StatusRetired)
      else if !Allowed(t.status, status.value) then Err(InvalidTransition)
      else if status.value.Resolved? && !classified then Err(NotClassified)
      else Ok(b.(tickets := b.tickets[i := noted.(status := status.value)],
                 events := b.events + [Event(i, StatusChange, Some(t.status), status.value)]
                                    + ReopenEvents(i, t.status, status.value)))
  }

  predicate Blank(note: string) {
    forall i :: 0 <= i < |note| ==> note[i] in " \t\r\n"
  }

  function CloseTicket(b: Board, i: nat, reason: CloseReason, note: string, user: nat, now: int): Result<Board, Error> {
    if i >= |b.tickets| then Err(TicketNotFound)
    else
      var t := b.tickets[i];
      if Blank(note) then Err(CancelNoteRequired)
      else if t.status.Closed? then Err(AlreadyClosed)
      else if t.status.Resolved? then Err(ResolvedNotCancellable)
      else Ok(b.(tickets := b.tickets[i := t.(status := Closed, closeReason := Some(reason), closedAt := Some(now),
                                                closeNote := Some(note), closedBy := Some(user))],
                 events := b.events + [Event(i, ManualClose, Some(t.status), Closed)]))
  }

  /** A card dragged on the board: it can reopen a ticket, never close it; what is not allowed is ignored. */
  function DragTicket(b: Board, i: nat, to: Status, classified: bool): Board {
    if i >= |b.tickets| || !(to.Open? || to.InProgress? || to.Resolved?) then b
    else
      var t := b.tickets[i];
      if to == t.status || !Allowed(t.status, to) || (to.Resolved? && !classified) then b
      else b.(tickets := b.tickets[i := t.(status := to)],
              events := b.events + [Event(i, KanbanMove, Some(t.status), to)] + ReopenEvents(i, t.status, to))
  }

  datatype Op =
    | Create
    | Update(ticket: nat, status: Option<Status>, notes: Option<Option<string>>, classified: bool)
    | Close(ticket: nat, reason: CloseReason, note: string, user: nat, now: int)
    | Drag(ticket: nat, to: Status, classified: bool)
    | Change(client: ClientStatus, user: nat, now: int)

  function Apply(b: Board, op: Op): Board {
    match op
    case Create => CreateTicket(b)
    case Update(i, status, notes, classified) =>
      var r := UpdateTicket(b, i, status, notes, classified);
      if r.Ok? then r.value else b
    case Close(i, reason, note, user, now) =>
      var r := CloseTicket(b, i, reason, note, user, now);
      if r.Ok? then r.value else b
    case Drag(i, to, classified) => DragTicket(b, i, to, classified)
    case Change(to, user, now) => ChangeStatus(b, to, user, now)
  }

  function Run(b: Board, ops: seq<Op>): Board {
    if ops == [] then b else Apply(Run(b, ops[..|ops| - 1]), ops[|ops| - 1])
  }

  function After(ops: seq<Op>): Board {
    Run(Board(Active, [], []), ops)
  }

  // ---------------------------------------------------------------- the effect on one ticket

  lemma RestoreToAppend(events: seq<Event>, e: Event, i: nat)
    ensures RestoreTo(events + [e], i) ==
      if IsClosing(e, i) then (if e.from.Some? then e.from.value else Open) else RestoreTo(events, i)
  {
    assert (events + [e])[..|events|] == events;
  }

  lemma {:induction false} SweepEffect(b: Board, found: seq<nat>, user: nat, now: int, i: nat)
    requires Within(found, |b.tickets|)
    requires forall j, k :: 0 <= j < k < |found| ==> found[j] != found[k]
    requires i < |b.tickets|
    ensures var r := Sweep(b, found, user, now);
            var t := b.tickets[i];
            && r.tickets[i] == (if i in found
                 then t.(status := Closed, closedAt := Some(now), closeNote := Some(DISABLED_NOTE),
                       closedBy := Some(user)) else t)
            && RestoreTo(r.events, i) == if i in found then t.status else RestoreTo(b.events, i)
  {
    if found != [] {
      var last := |found| - 1;
      assert found == found[..last] + [found[last]];
      SweepEffect(b, found[..last], user, now, i);
      SweepEffect(b, found[..last], user, now, found[last]);
      var before := Sweep(b, found[..last], user, now);
      var e := Event(found[last], StatusChange, Some(before.tickets[found[last]].status), Closed);
      RestoreToAppend(before.events, e, i);
    }
  }

  lemma {:induction false} RestoreEffect(b: Board, found: seq<nat>, i: nat)
    requires Within(found, |b.tickets|) && forall k :: 0 <= k < |found| ==> !RestoreTo(b.events, found[k]).Closed?
    requires forall j, k :: 0 <= j < k < |found| ==> found[j] != found[k]
    requires i < |b.tickets|
    ensures var r := Restore(b, found);
            var t := b.tickets[i];
            && r.tickets[i] == (if i in found
                 then t.(status := RestoreTo(b.events, i), closedAt := None, closeReason := None, closeNote := None,
                       closedBy := None) else t)
            && RestoreTo(r.events, i) == RestoreTo(b.events, i)
  {
    if found != [] {
      var last := |found| - 1;
      assert found == found[..last] + [found[last]];
      RestoreEffect(b, found[..last], i);
      RestoreEffect(b, found[..last], found[last]);
      var before := Restore(b, found[..last]);
      var e := Event(found[last], StatusChange, Some(Closed), RestoreTo(before.events, found[last]));
      RestoreToAppend(before.events, e, i);
    }
  }

  // ---------------------------------------------------------------- the invariant

  /** A ticket closed without a reason was open when it was swept, and its events say so. */
  predicate TicketOk(b: Board, i: nat)
    requires i < |b.tickets|
  {
    b.tickets[i].status.Closed? && b.tickets[i].closeReason.None? ==> IsOpen(RestoreTo(b.events, i))
  }

  predicate BoardOk(b: Board) {
    forall i {:trigger TicketOk(b, i)} :: 0 <= i < |b.tickets| ==> TicketOk(b, i)
  }

  predicate Addresses(op: Op, i: nat) {
    !op.Create? && !op.Change? && op.ticket == i
  }

  /** What an operation does to one ticket: nothing, unless it addresses it or changes the status of the client. */
  lemma ApplyEffect(b: Board, op: Op, i: nat)
    requires BoardOk(b) && i < |b.tickets|
    ensures i < |Apply(b, op).tickets| && TicketOk(Apply(b, op), i)
    ensures !Addresses(op, i) && !op.Change? ==>
      Apply(b, op).tickets[i] == b.tickets[i] && RestoreTo(Apply(b, op).events, i) == RestoreTo(b.events, i)
  {
    assert TicketOk(b, i);
    match op {
      case Create =>
        RestoreToAppend(b.events, Event(|b.tickets|, StatusChange, None, Open), i);
      case Update(k, status, notes, classified) =>
        UpdateEffect(b, k, status, notes, classified, i);
      case Close(k, reason, note, user, now) =>
        CloseEffect(b, k, reason, note, user, now, i);
      case Drag(k, to, classified) =>
        DragEffect(b, k, to, classified, i);
      case Change(to, user, now) =>
        ChangeEffect(b, to, user, now, i);
    }
  }

  lemma UpdateEffect(b: Board, k: nat, status: Option<Status>, notes: Option<Option<string>>, classified: bool, i: nat)
    requires i < |b.tickets| && TicketOk(b, i)
    ensures var r := UpdateTicket(b, k, status, notes, classified);
            r.Ok? ==>
              && i < |r.value.tickets| && TicketOk(r.value, i)
              && (k != i ==> r.value.tickets[i] == b.tickets[i])
              && RestoreTo(r.value.events, i) == RestoreTo(b.events, i)
  {
    if k < |b.tickets| && status.Some? && !status.value.Closed? {
      EventsEffect(b.events, Event(k, StatusChange, Some(b.tickets[k].status), status.value),
                   b.tickets[k].status, status.value, i);
    }
  }

  lemma CloseEffect(b: Board, k: nat, reason: CloseReason, note: string, user: nat, now: int, i: nat)
    requires i < |b.tickets| && TicketOk(b, i)
    ensures var r := CloseTicket(b, k, reason, note, user, now);
            r.Ok? ==>
              && i < |r.value.tickets| && TicketOk(r.value, i)
              && (k != i ==> r.value.tickets[i] == b.tickets[i])
              && RestoreTo(r.value.events, i) == RestoreTo(b.events, i)
  {
    if k < |b.tickets| {
      RestoreToAppend(b.events, Event(k, ManualClose, Some(b.tickets[k].status), Closed), i);
    }
  }

  lemma DragEffect(b: Board, k: nat, to: Status, classified: bool, i: nat)
    requires i < |b.tickets| && TicketOk(b, i)
    ensures var r := DragTicket(b, k, to, classified);
            && i < |r.tickets| && TicketOk(r, i)
            && (k != i ==> r.tickets[i] == b.tickets[i])
            && RestoreTo(r.events, i) == RestoreTo(b.events, i)
  {
    if k < |b.tickets| {
      EventsEffect(b.events, Event(k, KanbanMove, Some(b.tickets[k].status), to), b.tickets[k].status, to, i);
    }
  }

  lemma EventsEffect(events: seq<Event>, e: Event, from: Status, to: Status, i: nat)
    requires !IsClosing(e, i)
    ensures RestoreTo(events + [e] + ReopenEvents(e.ticket, from, to), i) == RestoreTo(events, i)
  {
    RestoreToAppend(events, e, i);
    RestoreToAppend(events + [e], Event(e.ticket, Reopened, Some(from), to), i);
    if !IsReopening(from, to) {
      assert events + [e] + ReopenEvents(e.ticket, from, to) == events + [e];
    }
  }

  /** Disabling closes what is open and remembers it; reactivating brings back what was swept. */
  lemma ChangeEffect(b: Board, to: ClientStatus, user: nat, now: int, i: nat)
    requires BoardOk(b) && i < |b.tickets|
    ensures var r := ChangeStatus(b, to, user, now);
            var t := b.tickets[i];
            && |r.tickets| == |b.tickets| && r.client == to && TicketOk(r, i)
            && (to.Active? ==>
                  && RestoreTo(r.events, i) == RestoreTo(b.events, i)
                  && r.tickets[i] == if t.status.Closed? && t.closeReason.None?
                       then t.(status := RestoreTo(b.events, i), closedAt := None, closeNote := None, closedBy := None)
                       else t)
            && (!to.Active? ==>
                  && RestoreTo(r.events, i) == (if IsOpen(t.status) then t.status else RestoreTo(b.events, i))
                  && r.tickets[i] == if IsOpen(t.status)
                       then t.(status := Closed, closedAt := Some(now), closeNote := Some(DISABLED_NOTE),
                             closedBy := Some(user)) else t)
  {
    var c := b.(client := to);
    assert TicketOk(b, i);
    ChangeSetsClient(b, to, user, now);
    if to.Active? {
      forall k | 0 <= k < |SweptTickets(c)|
        ensures !RestoreTo(c.events, SweptTickets(c)[k]).Closed?
      {
        assert SweptTickets(c)[k] in SweptTickets(c);
        assert TicketOk(b, SweptTickets(c)[k]);
      }
      RestoreEffect(c, SweptTickets(c), i);
    } else {
      SweepEffect(c, OpenTickets(c), user, now, i);
    }
  }

  /** The client ends up in the status asked for. */
  lemma ChangeSetsClient(b: Board, to: ClientStatus, user: nat, now: int)
    ensures ChangeStatus(b, to, user, now).client == to
  {
    var c := b.(client := to);
    if to.Active? {
      RestoreKeepsClient(c, SweptTickets(c));
    } else {
      SweepKeepsClient(c, OpenTickets(c), user, now);
    }
  }

  lemma {:induction false} SweepKeepsClient(b: Board, found: seq<nat>, user: nat, now: int)
    requires Within(found, |b.tickets|)
    ensures Sweep(b, found, user, now).client == b.client
  {
    if found != [] {
      SweepKeepsClient(b, found[..|found| - 1], user, now);
    }
  }

  // ---------------------------------------------------------------- what the staff can do to one ticket

  /** The moves of a ticket that is not cancelled: nothing goes back into review, and only cancelling closes. */
  predicate CanMove(from: Status, to: Status) {
    (from, to) in {(Open, InProgress), (InProgress, Open), (InProgress, Resolved), (InReview, InProgress),
                   (InReview, Resolved), (Resolved, InProgress), (Closed, Open)}
  }

  /** The events of a move: where the ticket was, and that it was reopened if it had been settled. */
  predicate RecordsMove(before: Board, after: Board, i: nat, kind: EventKind, from: Status, to: Status) {
    var n := |before.events|;
    var reopened := (from == Resolved || from == Closed) && to != Resolved && to != Closed;
    && |after.events| == n + (if reopened then 2 else 1) && after.events[..n] == before.events
    && after.events[n] == Event(i, kind, Some(from), to)
    && (reopened ==> after.events[n + 1] == Event(i, Reopened, Some(from), to))
  }

  /** A ticket is updated to its own status or along a move, resolved only once classified; notes are replaced. */
  lemma UpdateMoves(b: Board, i: nat, status: Option<Status>, notes: Option<Option<string>>, classified: bool)
    requires i < |b.tickets|
    ensures var r, t := UpdateTicket(b, i, status, notes, classified), b.tickets[i];
            var stays := status.None? || status.value == t.status;
            && (r.Ok? <==> stays || (CanMove(t.status, status.value) && (status.value == Resolved ==> classified)))
            && (r.Ok? ==>
                  && r.value.client == b.client
                  && r.value.tickets == b.tickets[i := t.(
                       status := if status.Some? then status.value else t.status,
                       adminNotes := if notes.Some? then notes.value else t.adminNotes)]
                  && (stays ==> r.value.events == b.events)
                  && (!stays ==> RecordsMove(b, r.value, i, StatusChange, t.status, status.value)))
  {
  }

  /** A new ticket is open, with nothing on it but the event of its creation. */
  lemma CreateOpens(b: Board)
    ensures var r := CreateTicket(b);
            && r.client == b.client && |r.tickets| == |b.tickets| + 1 && r.tickets[..|b.tickets|] == b.tickets
            && var t := r.tickets[|b.tickets|];
               && t.status == Open && t.closeReason.None? && t.closedAt.None? && t.closeNote.None?
               && t.closedBy.None? && t.adminNotes.None?
               && r.events == b.events + [Event(|b.tickets|, StatusChange, None, Open)]
  {
  }

  /** Only an open ticket is cancelled, and only with a note that says something. */
  lemma CloseCancels(b: Board, i: nat, reason: CloseReason, note: string, user: nat, now: int)
    requires i < |b.tickets|
    ensures var r, t := CloseTicket(b, i, reason, note, user, now), b.tickets[i];
            && (r.Ok? <==> t.status !in {Resolved, Closed} && exists k :: 0 <= k < |note| && note[k] !in " \t\r\n")
            && (r.Ok? ==>
                  && r.value.client == b.client
                  && r.value.tickets == b.tickets[i := Ticket(Closed, Some(reason), Some(now), Some(note), Some(user),
                                                              t.adminNotes)]
                  && RecordsMove(b, r.value, i, ManualClose, t.status, Closed))
  {
  }

  /** A card drags its ticket along a move, to open, in progress or resolved; anything else changes nothing. */
  lemma DragMoves(b: Board, i: nat, to: Status, classified: bool)
    requires i < |b.tickets|
    ensures var r, t := DragTicket(b, i, to, classified), b.tickets[i];
            if CanMove(t.status, to) && (to == Resolved ==> classified)
            then
              && r.client == b.client && r.tickets == b.tickets[i := t.(status := to)]
              && RecordsMove(b, r, i, KanbanMove, t.status, to)
            else r == b
  {
  }

  lemma ApplyKeepsBoard(b: Board, op: Op)
    requires BoardOk(b)
    ensures BoardOk(Apply(b, op)) && |b.tickets| <= |Apply(b, op).tickets|
  {
    if op.Change? {
      SameTickets(b, op.client, op.user, op.now);
    }
    forall i | 0 <= i < |Apply(b, op).tickets|
      ensures TicketOk(Apply(b, op), i)
    {
      if i < |b.tickets| {
        ApplyEffect(b, op, i);
      }
    }
  }

  lemma SameTickets(b: Board, to: ClientStatus, user: nat, now: int)
    ensures |ChangeStatus(b, to, user, now).tickets| == |b.tickets|
  {
  }

  lemma {:induction false} RunKeepsBoard(b: Board, ops: seq<Op>)
    requires BoardOk(b)
    ensures BoardOk(Run(b, ops)) && |b.tickets| <= |Run(b, ops).tickets|
  {
    if ops != [] {
      RunKeepsBoard(b, ops[..|ops| - 1]);
      ApplyKeepsBoard(Run(b, ops[..|ops| - 1]), ops[|ops| - 1]);
    }
  }

  // ---------------------------------------------------------------- the round trip

  /** The status a ticket has, or will have again once the client is active. */
  function Natural(b: Board, i: nat): Status
    requires i < |b.tickets|
  {
    var t := b.tickets[i];
    if t.status.Closed? && t.closeReason.None? then RestoreTo(b.events, i) else t.status
  }

  predicate LeftAlone(ops: seq<Op>, i: nat) {
    forall k :: 0 <= k < |ops| ==> !Addresses(ops[k], i)
  }

  /** Disabling, archiving, reactivating, and whatever happens to other tickets, keep the natural status of a ticket. */
  lemma {:induction false} NaturalStatusIsKept(b: Board, ops: seq<Op>, i: nat)
    requires BoardOk(b) && i < |b.tickets| && b.tickets[i].closeReason.None? && LeftAlone(ops, i)
    ensures var r := Run(b, ops);
            && i < |r.tickets| && r.tickets[i].closeReason.None? && Natural(r, i) == Natural(b, i)
            && r.tickets[i].adminNotes == b.tickets[i].adminNotes
  {
    if ops != [] {
      var last := |ops| - 1;
      NaturalStatusIsKept(b, ops[..last], i);
      RunKeepsBoard(b, ops[..last]);
      ApplyEffect(Run(b, ops[..last]), ops[last], i);
      if ops[last].Change? {
        ChangeEffect(Run(b, ops[..last]), ops[last].client, ops[last].user, ops[last].now, i);
      }
    }
  }

  /**
   * The round trip: whatever happens meanwhile to the client and to other tickets, reactivation gives a ticket without
   * a close reason its natural status, which for an open ticket is the one it had. Internal notes are kept.
   */
  lemma ReactivationRestores(ops: seq<Op>, more: seq<Op>, i: nat, user: nat, now: int)
    requires i < |After(ops).tickets| && After(ops).tickets[i].closeReason.None? && LeftAlone(more, i)
    ensures var b, r := After(ops), Apply(Run(After(ops), more), Change(Active, user, now));
            && i < |r.tickets|
            && r.tickets[i].status == Natural(b, i)
            && (IsOpen(b.tickets[i].status) ==> r.tickets[i].status == b.tickets[i].status)
            && r.tickets[i].adminNotes == b.tickets[i].adminNotes
  {
    var b := After(ops);
    RunKeepsBoard(Board(Active, [], []), ops);
    NaturalStatusIsKept(b, more, i);
    RunKeepsBoard(b, more);
    ChangeEffect(Run(b, more), Active, user, now, i);
  }

  /** Tickets resolved, or closed for a reason, are not touched by anything that happens to the client. */
  lemma {:induction false} SettledTicketsAreKept(b: Board, ops: seq<Op>, i: nat)
    requires BoardOk(b) && i < |b.tickets| && LeftAlone(ops, i)
    requires b.tickets[i].status.Resolved? || (b.tickets[i].status.Closed? && b.tickets[i].closeReason.Some?)
    ensures i < |Run(b, ops).tickets| && Run(b, ops).tickets[i] == b.tickets[i]
  {
    if ops != [] {
      var last := |ops| - 1;
      SettledTicketsAreKept(b, ops[..last], i);
      RunKeepsBoard(b, ops[..last]);
      ApplyEffect(Run(b, ops[..last]), ops[last], i);
      if ops[last].Change? {
        ChangeEffect(Run(b, ops[..last]), ops[last].client, ops[last].user, ops[last].now, i);
      }
    }
  }

  /** A second reactivation changes nothing. */
  lemma ReactivationIsIdempotent(ops: seq<Op>, user: nat, now: int, again: nat, later: int)
    ensures var b := Apply(After(ops), Change(Active, user, now));
            Apply(b, Change(Active, again, later)) == b
  {
    var a := After(ops);
    RunKeepsBoard(Board(Active, [], []), ops);
    var b := ChangeStatus(a, Active, user, now);
    forall i | 0 <= i < |b.tickets|
      ensures !(b.tickets[i].status.Closed? && b.tickets[i].closeReason.None?)
    {
      SameTickets(a, Active, user, now);
      ChangeEffect(a, Active, user, now, i);
      assert TicketOk(a, i);
    }
    RestoreKeepsClient(a.(client := Active), SweptTickets(a.(client := Active)));
    NoPositions(b.tickets, ToRestore, |b.tickets|);
  }

  lemma {:induction false} RestoreKeepsClient(b: Board, found: seq<nat>)
    requires Within(found, |b.tickets|)
    ensures Restore(b, found).client == b.client
  {
    if found != [] {
      RestoreKeepsClient(b, found[..|found| - 1]);
    }
  }

  lemma NoPositions(tickets: seq<Ticket>, wanted: Ticket -> bool, n: nat)
    requires n <= |tickets| && forall i :: 0 <= i < n ==> !wanted(tickets[i])
    ensures PositionsUpTo(tickets, wanted, n) == []
  {
    assert forall i: nat :: i !in PositionsUpTo(tickets, wanted, n);
  }

  /** Where exactly the round trip works: an open ticket comes back if and only if no close reason was left on it. */
  lemma RestoredExactlyWithoutReason(ops: seq<Op>, i: nat, to: ClientStatus, user: nat, now: int, later: int)
    requires i < |After(ops).tickets| && IsOpen(After(ops).tickets[i].status) && !to.Active?
    ensures var b := After(ops);
            var r := Apply(Apply(b, Change(to, user, now)), Change(Active, user, later));
            && i < |r.tickets|
            && (r.tickets[i].status == b.tickets[i].status <==> b.tickets[i].closeReason.None?)
            && (b.tickets[i].closeReason.Some? ==> r.tickets[i].status.Closed?)
  {
    var b := After(ops);
    RunKeepsBoard(Board(Active, [], []), ops);
    ChangeEffect(b, to, user, now, i);
    ApplyKeepsBoard(b, Change(to, user, now));
    ChangeEffect(ChangeStatus(b, to, user, now), Active, user, later, i);
  }

  lemma ReopeningKeepsTheReason(b: Board, i: nat, reason: CloseReason, note: string, user: nat, now: int)
    requires BoardOk(b) && i < |b.tickets| && IsOpen(b.tickets[i].status) && !Blank(note)
    ensures var r := Apply(Apply(b, Close(i, reason, note, user, now)), Update(i, Some(Open), None, true));
            && BoardOk(r) && i < |r.tickets| && r.tickets[i].status.Open? && r.tickets[i].closeReason == Some(reason)
  {
    var closed := Apply(b, Close(i, reason, note, user, now));
    ApplyKeepsBoard(b, Close(i, reason, note, user, now));
    ApplyKeepsBoard(closed, Update(i, Some(Open), None, true));
  }

  /** Every ticket closed by hand and reopened is lost to the round trip: it stays closed when the client is back. */
  lemma ReopenedTicketsAreLost(ops: seq<Op>, i: nat, reason: CloseReason, note: string, user: nat, now: int,
                               to: ClientStatus)
    requires i < |After(ops).tickets| && IsOpen(After(ops).tickets[i].status) && !Blank(note) && !to.Active?
    ensures var r := Apply(Apply(After(ops), Close(i, reason, note, user, now)), Update(i, Some(Open), None, true));
            && i < |r.tickets| && r.tickets[i].status.Open?
            && i < |ChangeStatus(ChangeStatus(r, to, user, now), Active, user, now).tickets|
            && ChangeStatus(ChangeStatus(r, to, user, now), Active, user, now).tickets[i].status.Closed?
  {
    RunKeepsBoard(Board(Active, [], []), ops);
    ReopeningKeepsTheReason(After(ops), i, reason, note, user, now);
    var r := Apply(Apply(After(ops), Close(i, reason, note, user, now)), Update(i, Some(Open), None, true));
    ChangeEffect(r, to, user, now, i);
    ApplyKeepsBoard(r, Change(to, user, now));
    ChangeEffect(ChangeStatus(r, to, user, now), Active, user, now, i);
  }

  // ---------------------------------------------------------------- the tables, updated in place

  /** The board after the first k restorations of a list. */
  ghost predicate RestoredUpTo(b: Board, found: seq<nat>, k: nat, r: Board) {
    && Within(found, |b.tickets|) && k <= |found|
    && r == Restore(b, found[..k])
  }

  lemma RestoreGrows(b: Board, found: seq<nat>, k: nat, r: Board)
    requires RestoredUpTo(b, found, k, r) && k < |found|
    ensures found[k] < |r.tickets| && RestoredUpTo(b, found, k + 1, RestoreOne(r, found[k]))
  {
    assert found[..k + 1][..k] == found[..k];
  }

  lemma AllRestored(b: Board, found: seq<nat>, r: Board)
    requires RestoredUpTo(b, found, |found|, r)
    ensures r == Restore(b, found)
  {
    assert found[..|found|] == found;
  }

  lemma SweepGrows(b: Board, found: seq<nat>, user: nat, now: int, k: nat)
    requires Within(found, |b.tickets|) && k < |found|
    ensures Sweep(b, found[..k + 1], user, now) == SweepOne(Sweep(b, found[..k], user, now), found[k], user, now)
  {
    assert found[..k + 1][..k] == found[..k];
  }

  class Desk {
    var client: ClientStatus
    var tickets: seq<Ticket>
    var events: seq<Event>

    function View(): Board
      reads this
    {
      Board(client, tickets, events)
    }

    constructor ()
      ensures View() == After([])
    {
      client, tickets, events := Active, [], [];
    }

    method FindTickets(wanted: Ticket -> bool) returns (found: seq<nat>)
      ensures found == PositionsUpTo(tickets, wanted, |tickets|)
    {
      found := [];
      for i := 0 to |tickets|
        invariant found == PositionsUpTo(tickets, wanted, i)
      {
        if wanted(tickets[i]) {
          found := found + [i];
        }
      }
    }

    /** Collects the open tickets, and closes them one by one with an event that keeps where each one was. */
    method CloseOpenTickets(user: nat, now: int)
      modifies this`tickets, this`events
      ensures View() == Sweep(old(View()), OpenTickets(old(View())), user, now)
    {
      ghost var before := View();
      var found := FindTickets(ToSweep);
      for k := 0 to |found|
        invariant |tickets| == |before.tickets|
        invariant View() == Sweep(before, found[..k], user, now)
      {
        SweepGrows(before, found, user, now, k);
        var i := found[k];
        var t := tickets[i];
        tickets := tickets[i := t.(status := Closed, closedAt := Some(now), closeNote := Some(DISABLED_NOTE),
              closedBy := Some(user))];
        events := events + [Event(i, StatusChange, Some(t.status), Closed)];
      }
      assert found[..|found|] == found;
    }

    /** The newest closing of a ticket by a change of status. */
    method FindLastClose(i: nat) returns (to: Status)
      ensures to == RestoreTo(events, i)
    {
      var n := |events|;
      assert events[..n] == events;
      while n > 0
        invariant 0 <= n <= |events|
        invariant RestoreTo(events[..n], i) == RestoreTo(events, i)
      {
        assert events[..n][..n - 1] == events[..n - 1];
        var e := events[n - 1];
        if IsClosing(e, i) {
          return if e.from.Some? then e.from.value else Open;
        }
        n := n - 1;
      }
      to := Open;
    }

    method RestoreTicket(i: nat)
      requires i < |tickets|
      modifies this`tickets, this`events
      ensures View() == RestoreOne(old(View()), i)
    {
      var to := FindLastClose(i);
      tickets := tickets[i := tickets[i].(status := to, closedAt := None, closeReason := None, closeNote := None,
            closedBy := None)];
      events := events + [Event(i, StatusChange, Some(Closed), to)];
    }

    /** Collects the tickets closed without a reason, and brings them back one by one. */
    method RestoreTickets()
      modifies this`tickets, this`events
      ensures View() == Restore(old(View()), SweptTickets(old(View())))
    {
      ghost var before := View();
      var found := FindTickets(ToRestore);
      for k := 0 to |found|
        invariant RestoredUpTo(before, found, k, View())
      {
        RestoreGrows(before, found, k, View());
        RestoreTicket(found[k]);
      }
      AllRestored(before, found, View());
    }

    /** Disabling, archiving or reactivating the client, in one transaction. */
    method ChangeClientStatus(to: ClientStatus, user: nat, now: int)
      modifies this
      ensures View() == ChangeStatus(old(View()), to, user, now)
    {
      client := to;
      if to.Disabled? || to.Archived? {
        CloseOpenTickets(user, now);
      }
      if to.Active? {
        RestoreTickets();
      }
    }
  }
}
