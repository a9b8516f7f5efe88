/**
 * Numbering of invoices and credit notes under concurrency. An emission counts the documents of its series, and later
 * inserts the next number under a unique index, or starts over; emissions of many requests interleave freely.
 */
module Numbering {

  const MAX_RETRIES := 5

  datatype DocumentKind = Invoice | CreditNote

  /** The documents that are numbered together: those of an organization, of one kind, of one year of issue. */
  datatype Series = Series(organization: nat, kind: DocumentKind, year: nat)

  datatype Document = Document(series: Series, number: nat)

  /** Where an emission is: about to count, holding a count, or over. */
  datatype Phase = Counting | Holding(count: nat) | Issued(number: nat) | Aborted | Conflict

  datatype Emission = Emission(series: Series, attempt: nat, phase: Phase)

  /** The documents in order of insertion, which is the unique index too, and the emissions in order of arrival. */
  datatype Desk = Desk(documents: seq<Document>, emissions: seq<Emission>)

  function Count(documents: seq<Document>, series: Series): (n: nat)
    ensures n <= |documents|
  {
    if documents == [] then 0
    else Count(documents[..|documents| - 1], series) + if documents[|documents| - 1].series == series then 1 else 0
  }

  lemma CountAppend(documents: seq<Document>, d: Document, series: Series)
    ensures Count(documents + [d], series) == Count(documents, series) + if d.series == series then 1 else 0
  {
    assert (documents + [d])[..|documents|] == documents;
  }

  datatype Move =
    | Start(series: Series)
    | Read(emission: nat)
    | Insert(emission: nat)
    | Abort(emission: nat)

  function WithPhase(d: Desk, e: nat, phase: Phase): Desk
    requires e < |d.emissions|
  {
    d.(emissions := d.emissions[e := d.emissions[e].(phase := phase)])
  }

  /** The insert of the number counted: it goes through, or the index refuses it and the transaction starts over. */
  function InsertNext(d: Desk, e: nat, count: nat): Desk
    requires e < |d.emissions|
  {
    var own := d.emissions[e];
    var document := Document(own.series, count + 1);
    if document !in d.documents then
      WithPhase(d, e, Issued(count + 1)).(documents := d.documents + [document])
    else if own.attempt < MAX_RETRIES - 1 then
      d.(emissions := d.emissions[e := Emission(own.series, own.attempt + 1, Counting)])
    else WithPhase(d, e, Conflict)
  }

  /** One step of one emission. A step an emission is not ready for does nothing. */
  function Act(d: Desk, move: Move): Desk {
    match move
    case Start(series) => d.(emissions := d.emissions + [Emission(series, 0, Counting)])
    case Read(e) =>
      if e < |d.emissions| && d.emissions[e].phase.Counting?
      then WithPhase(d, e, Holding(Count(d.documents, d.emissions[e].series))) else d
    case Insert(e) =>
      if e < |d.emissions| && d.emissions[e].phase.Holding?
      then InsertNext(d, e, d.emissions[e].phase.count) else d
    case Abort(e) =>
      if e < |d.emissions| && (d.emissions[e].phase.Counting? || d.emissions[e].phase.Holding?)
      then WithPhase(d, e, Aborted) else d
  }

  function Run(d: Desk, moves: seq<Move>): Desk {
    if moves == [] then d else Act(Run(d, moves[..|moves| - 1]), moves[|moves| - 1])
  }

  /** Any interleaving of any emissions, from an empty table. */
  function Reached(moves: seq<Move>): Desk {
    Run(Desk([], []), moves)
  }

  // ---------------------------------------------------------------- no gap, no repeat

  /** The document at each place carries the number after those of its series before it. */
  predicate InOrder(documents: seq<Document>) {
    forall i {:trigger InPlace(documents, i)} :: 0 <= i < |documents| ==> InPlace(documents, i)
  }

  predicate InPlace(documents: seq<Document>, i: nat)
    requires i < |documents|
  {
    documents[i].number == Count(documents[..i], documents[i].series) + 1
  }

  /** Nobody holds a count from the future, and every number handed out is in the table. */
  predicate EmissionOk(documents: seq<Document>, e: Emission) {
    && e.attempt < MAX_RETRIES
    && (e.phase.Holding? ==> e.phase.count <= Count(documents, e.series))
    && (e.phase.Issued? ==> Document(e.series, e.phase.number) in documents)
  }

  /** Not the same number of the same series. */
  predicate NumbersDiffer(a: Emission, b: Emission) {
    a.phase.Issued? && b.phase.Issued? && a.series == b.series ==> a.phase.number != b.phase.number
  }

  predicate DeskOk(d: Desk) {
    && InOrder(d.documents)
    && (forall e {:trigger EmissionOk(d.documents, d.emissions[e])} :: 0 <= e < |d.emissions| ==>
          EmissionOk(d.documents, d.emissions[e]))
    && (forall e, f {:trigger NumbersDiffer(d.emissions[e], d.emissions[f])} :: 0 <= e < f < |d.emissions| ==>
          NumbersDiffer(d.emissions[e], d.emissions[f]))
  }

  lemma {:induction false} CountIsMonotone(documents: seq<Document>, i: nat, series: Series)
    requires i <= |documents|
    ensures Count(documents[..i], series) <= Count(documents, series)
  {
    if i == |documents| {
      assert documents[..i] == documents;
    } else {
      var last := |documents| - 1;
      assert documents[..last][..i] == documents[..i];
      CountIsMonotone(documents[..last], i, series);
    }
  }

  /** The numbers of a series are among 1..n, where n is its count. */
  lemma NumbersAreBounded(documents: seq<Document>, d: Document)
    requires InOrder(documents) && d in documents
    ensures 1 <= d.number <= Count(documents, d.series)
  {
    var i :| 0 <= i < |documents| && documents[i] == d;
    assert InPlace(documents, i);
    assert documents[..i + 1] == documents[..i] + [d];
    CountAppend(documents[..i], d, d.series);
    CountIsMonotone(documents, i + 1, d.series);
  }

  /** And each of 1..n is there. */
  lemma {:induction false} NumbersAreFilled(documents: seq<Document>, series: Series, n: nat)
    requires InOrder(documents) && 1 <= n <= Count(documents, series)
    ensures Document(series, n) in documents
  {
    var last := |documents| - 1;
    assert documents == documents[..last] + [documents[last]];
    if n <= Count(documents[..last], series) {
      forall i | 0 <= i < last
        ensures InPlace(documents[..last], i)
      {
        assert InPlace(documents, i);
        assert documents[..last][..i] == documents[..i];
      }
      NumbersAreFilled(documents[..last], series, n);
    } else {
      assert InPlace(documents, last);
    }
  }

  lemma InOrderAppend(documents: seq<Document>, d: Document)
    requires InOrder(documents) && d.number == Count(documents, d.series) + 1
    ensures InOrder(documents + [d])
  {
    var all := documents + [d];
    forall i | 0 <= i < |all|
      ensures InPlace(all, i)
    {
      if i < |documents| {
        assert InPlace(documents, i);
        assert all[..i] == documents[..i];
      } else {
        assert all[..i] == documents;
      }
    }
  }

  /** A free number that is no larger than the next one is the next one. */
  lemma FreeIsNext(documents: seq<Document>, series: Series, count: nat)
    requires InOrder(documents) && count <= Count(documents, series) && Document(series, count + 1) !in documents
    ensures count == Count(documents, series)
  {
    if count < Count(documents, series) {
      NumbersAreFilled(documents, series, count + 1);
    }
  }

  lemma ReplacedOk(d: Desk, e: nat, own: Emission)
    requires DeskOk(d) && e < |d.emissions| && EmissionOk(d.documents, own) && !own.phase.Issued?
    ensures DeskOk(d.(emissions := d.emissions[e := own]))
  {
    var t := d.(emissions := d.emissions[e := own]);
    forall f | 0 <= f < |t.emissions| ensures EmissionOk(t.documents, t.emissions[f]) {
      assert EmissionOk(d.documents, d.emissions[f]);
    }
    forall f, g | 0 <= f < g < |t.emissions| ensures NumbersDiffer(t.emissions[f], t.emissions[g]) {
      assert NumbersDiffer(d.emissions[f], d.emissions[g]);
    }
  }

  lemma InsertedOk(d: Desk, e: nat, count: nat)
    requires DeskOk(d) && e < |d.emissions| && d.emissions[e].phase == Holding(count)
    requires Document(d.emissions[e].series, count + 1) !in d.documents
    ensures DeskOk(InsertNext(d, e, count))
  {
    var t := InsertNext(d, e, count);
    var document := Document(d.emissions[e].series, count + 1);
    assert EmissionOk(d.documents, d.emissions[e]);
    FreeIsNext(d.documents, document.series, count);
    InOrderAppend(d.documents, document);
    forall f | 0 <= f < |t.emissions| ensures EmissionOk(t.documents, t.emissions[f]) {
      assert EmissionOk(d.documents, d.emissions[f]);
      CountAppend(d.documents, document, t.emissions[f].series);
    }
    forall f, g | 0 <= f < g < |t.emissions| ensures NumbersDiffer(t.emissions[f], t.emissions[g]) {
      assert NumbersDiffer(d.emissions[f], d.emissions[g]);
      assert EmissionOk(d.documents, d.emissions[f]) && EmissionOk(d.documents, d.emissions[g]);
    }
  }

  lemma ActKeepsDesk(d: Desk, move: Move)
    requires DeskOk(d)
    ensures DeskOk(Act(d, move))
  {
    match move {
      case Start(series) =>
        var t := Act(d, move);
        forall e | 0 <= e < |t.emissions| ensures EmissionOk(t.documents, t.emissions[e]) {
          if e < |d.emissions| {
            assert EmissionOk(d.documents, d.emissions[e]);
          }
        }
        forall e, f | 0 <= e < f < |t.emissions| ensures NumbersDiffer(t.emissions[e], t.emissions[f]) {
          if f < |d.emissions| {
            assert NumbersDiffer(d.emissions[e], d.emissions[f]);
          }
        }
      case Read(e) =>
        if e < |d.emissions| && d.emissions[e].phase.Counting? {
          assert EmissionOk(d.documents, d.emissions[e]);
          ReplacedOk(d, e, Act(d, move).emissions[e]);
        }
      case Insert(e) =>
        if e < |d.emissions| && d.emissions[e].phase.Holding? {
          assert EmissionOk(d.documents, d.emissions[e]);
          if Document(d.emissions[e].series, d.emissions[e].phase.count + 1) !in d.documents {
            InsertedOk(d, e, d.emissions[e].phase.count);
          } else {
            ReplacedOk(d, e, Act(d, move).emissions[e]);
          }
        }
      case Abort(e) =>
        if e < |d.emissions| && (d.emissions[e].phase.Counting? || d.emissions[e].phase.Holding?) {
          assert EmissionOk(d.documents, d.emissions[e]);
          ReplacedOk(d, e, Act(d, move).emissions[e]);
        }
    }
  }

  lemma {:induction false} RunKeepsDesk(d: Desk, moves: seq<Move>)
    requires DeskOk(d)
    ensures DeskOk(Run(d, moves))
  {
    if moves != [] {
      RunKeepsDesk(d, moves[..|moves| - 1]);
      ActKeepsDesk(Run(d, moves[..|moves| - 1]), moves[|moves| - 1]);
    }
  }

  /** Whatever the interleaving, the numbers of a series are exactly 1..n. */
  lemma NumbersAreExact(moves: seq<Move>, series: Series, n: nat)
    ensures Document(series, n) in Reached(moves).documents <==> 1 <= n <= Count(Reached(moves).documents, series)
  {
    var documents := Reached(moves).documents;
    RunKeepsDesk(Desk([], []), moves);
    if Document(series, n) in documents {
      NumbersAreBounded(documents, Document(series, n));
    }
    if 1 <= n <= Count(documents, series) {
      NumbersAreFilled(documents, series, n);
    }
  }

  /** No document is there twice, and two emissions never get the same number. */
  lemma NumbersAreUnique(moves: seq<Move>)
    ensures var d := Reached(moves);
            && (forall i, j :: 0 <= i < j < |d.documents| ==> d.documents[i] != d.documents[j])
            && forall e, f :: 0 <= e < f < |d.emissions| ==> NumbersDiffer(d.emissions[e], d.emissions[f])
  {
    var d := Reached(moves);
    RunKeepsDesk(Desk([], []), moves);
    forall i, j | 0 <= i < j < |d.documents|
      ensures d.documents[i] != d.documents[j]
    {
      assert InPlace(d.documents, i) && InPlace(d.documents, j);
      assert d.documents[..i + 1] == d.documents[..i] + [d.documents[i]];
      assert d.documents[..j][..i + 1] == d.documents[..i + 1];
      CountAppend(d.documents[..i], d.documents[i], d.documents[i].series);
      CountIsMonotone(d.documents[..j], i + 1, d.documents[i].series);
    }
  }

  // ---------------------------------------------------------------- how many overlaps an emission survives

  /** An emission that found so many documents when it arrived: each refusal was paid for by a document of another. */
  predicate Paid(d: Desk, e: nat, series: Series, found: nat) {
    && e < |d.emissions| && d.emissions[e].series == series && found <= Count(d.documents, series)
    && match d.emissions[e].phase
       case Counting => found + d.emissions[e].attempt <= Count(d.documents, series)
       case Holding(count) => found + d.emissions[e].attempt <= count
       case Conflict => found + MAX_RETRIES <= Count(d.documents, series)
       case _ => true
  }

  /** A number that is free when it is inserted: the count of the series can only grow. */
  lemma FreeInsertKeepsPaid(d: Desk, f: nat, count: nat, e: nat, series: Series, found: nat)
    requires f < |d.emissions| && d.emissions[f].phase == Holding(count) && Paid(d, e, series, found)
    requires Document(d.emissions[f].series, count + 1) !in d.documents
    ensures Paid(InsertNext(d, f, count), e, series, found)
  {
    CountAppend(d.documents, Document(d.emissions[f].series, count + 1), series);
  }

  /** A number that is taken: somebody issued it after it was counted. */
  lemma TakenInsertKeepsPaid(d: Desk, f: nat, count: nat, e: nat, series: Series, found: nat)
    requires f < |d.emissions| && d.emissions[f].phase == Holding(count) && Paid(d, e, series, found)
    requires Document(d.emissions[f].series, count + 1) in d.documents
    requires count + 1 <= Count(d.documents, d.emissions[f].series)
    ensures Paid(InsertNext(d, f, count), e, series, found)
  {
  }

  lemma InsertKeepsPaid(d: Desk, f: nat, count: nat, e: nat, series: Series, found: nat)
    requires InOrder(d.documents) && f < |d.emissions| && d.emissions[f].phase == Holding(count)
    requires Paid(d, e, series, found)
    ensures Paid(InsertNext(d, f, count), e, series, found)
  {
    var document := Document(d.emissions[f].series, count + 1);
    if document in d.documents {
      NumbersAreBounded(d.documents, document);
      TakenInsertKeepsPaid(d, f, count, e, series, found);
    } else {
      FreeInsertKeepsPaid(d, f, count, e, series, found);
    }
  }

  lemma ActKeepsPaid(d: Desk, move: Move, e: nat, series: Series, found: nat)
    requires InOrder(d.documents) && Paid(d, e, series, found) && d.emissions[e].attempt < MAX_RETRIES
    ensures Paid(Act(d, move), e, series, found)
  {
    if move.Insert? && move.emission < |d.emissions| && d.emissions[move.emission].phase.Holding? {
      InsertKeepsPaid(d, move.emission, d.emissions[move.emission].phase.count, e, series, found);
    }
  }

  lemma {:induction false} RunKeepsPaid(d: Desk, moves: seq<Move>, e: nat, series: Series, found: nat)
    requires DeskOk(d) && Paid(d, e, series, found)
    ensures Paid(Run(d, moves), e, series, found)
  {
    if moves != [] {
      RunKeepsPaid(d, moves[..|moves| - 1], e, series, found);
      RunKeepsDesk(d, moves[..|moves| - 1]);
      var u := Run(d, moves[..|moves| - 1]);
      assert EmissionOk(u.documents, u.emissions[e]);
      ActKeepsPaid(u, moves[|moves| - 1], e, series, found);
    }
  }

  /**
   * An emission fails for want of a number only if five others of its series were issued while it ran: overlapped by at
   * most four, it never ends in a conflict.
   */
  lemma ConflictNeedsFiveOverlaps(before: seq<Move>, series: Series, during: seq<Move>)
    ensures var d := Act(Reached(before), Start(series));
            var e := |Reached(before).emissions|;
            var t := Run(d, during);
            && e < |t.emissions|
            && (t.emissions[e].phase.Conflict? ==>
                  Count(t.documents, series) >= Count(d.documents, series) + 5)
  {
    var d := Act(Reached(before), Start(series));
    RunKeepsDesk(Desk([], []), before);
    ActKeepsDesk(Reached(before), Start(series));
    RunKeepsPaid(d, during, |Reached(before).emissions|, series, Count(d.documents, series));
  }

  // ---------------------------------------------------------------- the bound is exact

  lemma RunConcat(d: Desk, first: seq<Move>, rest: seq<Move>)
    ensures Run(d, first + rest) == Run(Run(d, first), rest)
  {
    if rest == [] {
      assert first + rest == first;
    } else {
      var last := |rest| - 1;
      assert (first + rest)[..|first + rest| - 1] == first + rest[..last];
      RunConcat(d, first, rest[..last]);
    }
  }

  /** An emission counts, another one of the series starts, counts and inserts, and only then the first one inserts. */
  function Overtake(d: Desk, e: nat, series: Series): seq<Move> {
    [Read(e), Start(series), Read(|d.emissions|), Insert(|d.emissions|), Insert(e)]
  }

  lemma RunOfFive(d: Desk, m: seq<Move>)
    requires |m| == 5
    ensures Run(d, m) == Act(Act(Act(Act(Act(d, m[0]), m[1]), m[2]), m[3]), m[4])
  {
    assert m[..4][..3] == m[..3] && m[..3][..2] == m[..2] && m[..2][..1] == m[..1] && m[..1][..0] == [];
    assert Run(d, m[..1]) == Act(d, m[0]);
    assert Run(d, m[..2]) == Act(Run(d, m[..1]), m[1]);
    assert Run(d, m[..3]) == Act(Run(d, m[..2]), m[2]);
    assert Run(d, m[..4]) == Act(Run(d, m[..3]), m[3]);
  }

  /** A rival that starts, counts and inserts undisturbed takes the next number. */
  lemma RivalIssues(d: Desk, series: Series)
    requires InOrder(d.documents)
    ensures var t := Act(Act(Act(d, Start(series)), Read(|d.emissions|)), Insert(|d.emissions|));
            && t.documents == d.documents + [Document(series, Count(d.documents, series) + 1)]
            && |t.emissions| == |d.emissions| + 1 && t.emissions[..|d.emissions|] == d.emissions
  {
    var next := Document(series, Count(d.documents, series) + 1);
    if next in d.documents {
      NumbersAreBounded(d.documents, next);
    }
  }

  lemma OvertakenOnce(d: Desk, e: nat)
    requires DeskOk(d) && e < |d.emissions| && d.emissions[e].phase.Counting?
    ensures var own := d.emissions[e];
            var t := Run(d, Overtake(d, e, own.series));
            && DeskOk(t) && |t.emissions| == |d.emissions| + 1
            && Count(t.documents, own.series) == Count(d.documents, own.series) + 1
            && t.emissions[e] == if own.attempt < MAX_RETRIES - 1
                                 then Emission(own.series, own.attempt + 1, Counting)
                                 else own.(phase := Conflict)
  {
    var own := d.emissions[e];
    var m := Overtake(d, e, own.series);
    RunOfFive(d, m);
    RunKeepsDesk(d, m);
    var counted := Act(d, Read(e));
    RivalIssues(counted, own.series);
    var next := Document(own.series, Count(d.documents, own.series) + 1);
    CountAppend(d.documents, next, own.series);
    var u := Act(Act(Act(counted, m[1]), m[2]), m[3]);
    assert u.emissions[..|d.emissions|][e] == u.emissions[e];
    assert u.documents[|d.documents|] == next;
  }

  /** Five overlaps are enough to make an emission fail, from any state in which it has its attempts left. */
  lemma {:induction false} FiveOverlapsSuffice(d: Desk, e: nat) returns (moves: seq<Move>)
    requires DeskOk(d) && e < |d.emissions| && d.emissions[e].phase.Counting?
    ensures var t := Run(d, moves);
            && e < |t.emissions| && t.emissions[e].phase.Conflict?
            && Count(t.documents, d.emissions[e].series) ==
               Count(d.documents, d.emissions[e].series) + 5 - d.emissions[e].attempt
    decreases MAX_RETRIES - d.emissions[e].attempt
  {
    assert EmissionOk(d.documents, d.emissions[e]);
    var first := Overtake(d, e, d.emissions[e].series);
    OvertakenOnce(d, e);
    if d.emissions[e].attempt == MAX_RETRIES - 1 {
      moves := first;
    } else {
      var rest := FiveOverlapsSuffice(Run(d, first), e);
      RunConcat(d, first, rest);
      moves := first + rest;
    }
  }

  /** An emission that nobody overtakes gets the next number at once. */
  lemma AloneSucceeds(d: Desk, e: nat)
    requires DeskOk(d) && e < |d.emissions| && d.emissions[e].phase.Counting?
    ensures var series := d.emissions[e].series;
            var next := Count(d.documents, series) + 1;
            var t := Act(Act(d, Read(e)), Insert(e));
            t.emissions[e].phase == Issued(next) && t.documents == d.documents + [Document(series, next)]
  {
    var next := Document(d.emissions[e].series, Count(d.documents, d.emissions[e].series) + 1);
    if next in d.documents {
      NumbersAreBounded(d.documents, next);
    }
  }

  // ---------------------------------------------------------------- the index is on the text

  function Decimal(n: nat): (s: string)
    ensures |s| > 0 && forall i :: 0 <= i < |s| ==> '0' <= s[i] <= '9'
  {
    (if n < 10 then "" else Decimal(n / 10)) + [('0' as int + n % 10) as char]
  }

  /** The number that a text of digits spells. */
  function ValueOf(s: string): int {
    if s == "" then 0 else ValueOf(s[..|s| - 1]) * 10 + (s[|s| - 1] as int - '0' as int)
  }

  lemma {:induction false} DecimalSpells(n: nat)
    ensures ValueOf(Decimal(n)) == n
  {
    if n >= 10 {
      DecimalSpells(n / 10);
    }
    assert Decimal(n)[..|Decimal(n)| - 1] == if n < 10 then "" else Decimal(n / 10);
  }

  function Padded(s: string, width: nat): string
    decreases width - |s|
  {
    if |s| < width then Padded("0" + s, width) else s
  }

  lemma {:induction false} LeadingZero(s: string)
    ensures ValueOf("0" + s) == ValueOf(s)
  {
    if s != "" {
      assert ("0" + s)[..|s|] == "0" + s[..|s| - 1];
      LeadingZero(s[..|s| - 1]);
    }
  }

  lemma {:induction false} PaddingSpells(s: string, width: nat)
    ensures ValueOf(Padded(s, width)) == ValueOf(s)
    decreases width - |s|
  {
    if |s| < width {
      LeadingZero(s);
      PaddingSpells("0" + s, width);
    }
  }

  /** 'FAC-2026-00001', 'NC-2026-00001'. */
  function Text(d: Document): string {
    (if d.series.kind.Invoice? then "FAC-" else "NC-") + (Decimal(d.series.year) + "-" + Padded(Decimal(d.number), 5))
  }

  lemma {:induction false} DecimalsAreShort(n: nat)
    ensures |Decimal(n)| >= 1
    ensures n < 10 ==> |Decimal(n)| <= 1
    ensures n < 100 ==> |Decimal(n)| <= 2
    ensures n < 1_000 ==> |Decimal(n)| <= 3
    ensures n < 10_000 ==> |Decimal(n)| <= 4
    ensures n < 100_000 ==> |Decimal(n)| <= 5
  {
    if n >= 10 {
      DecimalsAreShort(n / 10);
    }
  }

  lemma {:induction false} PaddingFills(s: string, width: nat)
    ensures |Padded(s, width)| == if |s| < width then width else |s|
    decreases width - |s|
  {
    if |s| < width {
      PaddingFills("0" + s, width);
    }
  }

  /** The text of a document: its kind, its year, and its number in five digits, or more once five do not do. */
  lemma TextSpellsTheDocument(d: Document) returns (year: string, number: string)
    ensures Text(d) == (if d.series.kind == Invoice then "FAC-" else "NC-") + (year + "-" + number)
    ensures ValueOf(year) == d.series.year && ValueOf(number) == d.number
    ensures |number| >= 5 && (d.number < 100_000 ==> |number| == 5)
  {
    year, number := Decimal(d.series.year), Padded(Decimal(d.number), 5);
    DecimalSpells(d.series.year);
    DecimalSpells(d.number);
    PaddingSpells(Decimal(d.number), 5);
    DecimalsAreShort(d.number);
    PaddingFills(Decimal(d.number), 5);
  }

  /** Of one organization and one kind, two documents have the same text only if they are the same year and number. */
  lemma TextTellsDocumentsApart(a: Document, b: Document)
    requires a.series.organization == b.series.organization && a.series.kind == b.series.kind && Text(a) == Text(b)
    ensures a == b
  {
    var prefix := if a.series.kind.Invoice? then "FAC-" else "NC-";
    var y, z := Decimal(a.series.year), Decimal(b.series.year);
    var m, n := Padded(Decimal(a.number), 5), Padded(Decimal(b.number), 5);
    var s, t := y + "-" + m, z + "-" + n;
    assert s == Text(a)[|prefix|..] && t == Text(b)[|prefix|..];
    assert s[|y|] == '-' && t[|z|] == '-';
    assert |y| == |z| && s[..|y|] == y && t[..|z|] == z && s[|y| + 1..] == m && t[|z| + 1..] == n;
    DecimalSpells(a.series.year);
    DecimalSpells(b.series.year);
    DecimalSpells(a.number);
    DecimalSpells(b.number);
    PaddingSpells(Decimal(a.number), 5);
    PaddingSpells(Decimal(b.number), 5);
  }
}
