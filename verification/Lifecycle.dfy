/** The life of an invoice: its status, its dates, and what the client's portal shows of it. */
module Lifecycle {
  import opened Outcomes
  import opened Ledger
  import opened Invariants
  import opened History

  /** The rule in memory. Any status it does not name is hidden. */
  predicate IsPortalVisible(status: Status, sent: bool) {
    status.Sent? || status.Paid? || status.WrittenOff? || (status.Cancelled? && sent)
  }

  /** One alternative of the query form: a list of statuses, and whether a sending date is asked for. */
  datatype Clause = Clause(statuses: seq<Status>, sentRequired: bool)

  const PORTAL_VISIBLE_WHERE := [Clause([Sent, Paid, WrittenOff], false), Clause([Cancelled], true)]

  predicate MatchesWhere(clauses: seq<Clause>, status: Status, sent: bool) {
    exists k :: 0 <= k < |clauses| && status in clauses[k].statuses && (clauses[k].sentRequired ==> sent)
  }

  /** The rule and its query form select the same invoices. */
  lemma VisibilityFormsAgree(status: Status, sent: bool)
    ensures IsPortalVisible(status, sent) <==> MatchesWhere(PORTAL_VISIBLE_WHERE, status, sent)
  {
    var w := PORTAL_VISIBLE_WHERE;
    assert w[0] == Clause([Sent, Paid, WrittenOff], false) && w[1] == Clause([Cancelled], true);
    if IsPortalVisible(status, sent) {
      if status.Sent? {
        assert w[0].statuses[0] == status;
      } else if status.Paid? {
        assert w[0].statuses[1] == status;
      } else if status.WrittenOff? {
        assert w[0].statuses[2] == status;
      } else {
        assert w[1].statuses[0] == status;
      }
    }
  }

  /** The client sees an invoice exactly when it was sent. */
  lemma VisibleExactlyWhenSent(ops: seq<Op>, c: nat)
    requires c < |After(ops).cycles|
    ensures var cycle := After(ops).cycles[c];
            IsPortalVisible(cycle.status, cycle.sentAt.Some?) <==> cycle.sentAt.Some?
  {
    ReachableInv(ops);
    assert CycleOk(After(ops), c);
  }

  /** Once visible, always visible, with the date it was sent on. */
  lemma OnceVisibleAlwaysVisible(ops: seq<Op>, more: seq<Op>, c: nat)
    requires c < |After(ops).cycles|
    requires IsPortalVisible(After(ops).cycles[c].status, After(ops).cycles[c].sentAt.Some?)
    ensures var t := Replay(After(ops), more);
            && c < |t.cycles| && t.cycles[c].sentAt == After(ops).cycles[c].sentAt
            && IsPortalVisible(t.cycles[c].status, t.cycles[c].sentAt.Some?)
  {
    var s, t := After(ops), Replay(After(ops), more);
    ReachableInv(ops);
    ReplayPersists(s, more);
    ReplayKeepsInv(s, more);
    assert CycleOk(s, c) && CycleOk(t, c);
    assert CyclePersists(s.cycles[c], t.cycles[c]);
  }

  /** A payment date stands on paid invoices and on no others. */
  lemma PaidExactlyWhenPaid(ops: seq<Op>, c: nat)
    requires c < |After(ops).cycles|
    ensures After(ops).cycles[c].paidAt.Some? <==> After(ops).cycles[c].status.Paid?
  {
    ReachableInv(ops);
    assert CycleOk(After(ops), c);
  }

  /** Credit notes stand on sent, paid or written-off invoices only. */
  lemma NotesStandOnIssuedInvoices(ops: seq<Op>, k: nat)
    requires k < |After(ops).notes|
    ensures var s := After(ops);
            s.notes[k].cycle < |s.cycles| && AcceptsCredit(s.cycles[s.notes[k].cycle].status)
  {
    ReachableInv(ops);
    assert NoteOk(After(ops), k);
  }

  /** How often the status of an invoice changes in a run. */
  function StatusChanges(s: State, ops: seq<Op>, c: nat): nat {
    if ops == [] then 0
    else
      var before, after := Replay(s, ops[..|ops| - 1]), Replay(s, ops);
      StatusChanges(s, ops[..|ops| - 1], c)
      + if c < |before.cycles| && c < |after.cycles| && before.cycles[c].status != after.cycles[c].status then 1 else 0
  }

  lemma {:induction false} ChangesAreRanked(s: State, ops: seq<Op>, c: nat)
    requires Inv(s)
    ensures c < |Replay(s, ops).cycles| ==> StatusChanges(s, ops, c) <= Rank(Replay(s, ops).cycles[c].status)
    ensures c >= |Replay(s, ops).cycles| ==> StatusChanges(s, ops, c) == 0
  {
    if ops != [] {
      var before := Replay(s, ops[..|ops| - 1]);
      ChangesAreRanked(s, ops[..|ops| - 1], c);
      ReplayKeepsInv(s, ops[..|ops| - 1]);
      ApplyPersists(before, ops[|ops| - 1]);
      if c < |before.cycles| {
        assert CyclePersists(before.cycles[c], Replay(s, ops).cycles[c]);
      }
    }
  }

  /** No run changes the status of an invoice more than three times. */
  lemma AtMostThreeChanges(ops: seq<Op>, c: nat)
    ensures StatusChanges(Empty(), ops, c) <= 3
  {
    ChangesAreRanked(Empty(), ops, c);
  }
}
