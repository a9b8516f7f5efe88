/** Lines grouped by a key: each line falls in one group, and the group totals add up to the total of the lines. */
module Grouping {
  import opened Outcomes
  import opened Totals
  import Calendar

  /** The values whose key is k, zero elsewhere. */
  function Keyed<K(==)>(keys: seq<K>, values: seq<int>, k: K): (xs: seq<int>)
    requires |keys| == |values|
    ensures |xs| == |keys|
    ensures forall i :: 0 <= i < |xs| ==> xs[i] == if keys[i] == k then values[i] else 0
  {
    seq(|keys|, i requires 0 <= i < |keys| => if keys[i] == k then values[i] else 0)
  }

  function TotalOf<K(==)>(keys: seq<K>, values: seq<int>, k: K): int
    requires |keys| == |values|
  {
    Total(Keyed(keys, values, k))
  }

  function GroupTotals<K(==)>(keys: seq<K>, values: seq<int>, groups: seq<K>): (xs: seq<int>)
    requires |keys| == |values|
    ensures |xs| == |groups|
    ensures forall g :: 0 <= g < |xs| ==> xs[g] == TotalOf(keys, values, groups[g])
  {
    seq(|groups|, g requires 0 <= g < |groups| => TotalOf(keys, values, groups[g]))
  }

  lemma OneMoreLine<K>(keys: seq<K>, values: seq<int>, key: K, value: int, k: K)
    requires |keys| == |values|
    ensures TotalOf(keys + [key], values + [value], k) == TotalOf(keys, values, k) + if key == k then value else 0
  {
    var x := if key == k then value else 0;
    assert Keyed(keys + [key], values + [value], k) == Keyed(keys, values, k) + [x];
    TotalAppend(Keyed(keys, values, k), x);
  }

  lemma NoLinesNoTotals<K>(groups: seq<K>)
    ensures Total(GroupTotals<K>([], [], groups)) == 0
  {
    TotalZero(GroupTotals<K>([], [], groups));
  }

  predicate Covered<K(==)>(keys: seq<K>, groups: seq<K>) {
    forall i :: 0 <= i < |keys| ==> keys[i] in groups
  }

  predicate AllDifferent<K(==)>(groups: seq<K>) {
    forall g, h :: 0 <= g < h < |groups| ==> groups[g] != groups[h]
  }

  /** AllDifferent groups that cover every key add up to everything. */
  lemma {:induction false} GroupsAddUp<K>(keys: seq<K>, values: seq<int>, groups: seq<K>)
    requires |keys| == |values| && Covered(keys, groups) && AllDifferent(groups)
    ensures Total(GroupTotals(keys, values, groups)) == Total(values)
    decreases |keys|
  {
    if |keys| == 0 {
      assert keys == [] && values == [];
      NoLinesNoTotals(groups);
    } else {
      GroupsAddUp(keys[..|keys| - 1], values[..|keys| - 1], groups);
      LastLineAddsUp(keys, values, groups);
    }
  }

  lemma LastLineAddsUp<K>(keys: seq<K>, values: seq<int>, groups: seq<K>)
    requires |keys| == |values| > 0 && keys[|keys| - 1] in groups && AllDifferent(groups)
    ensures Total(GroupTotals(keys, values, groups))
         == Total(GroupTotals(keys[..|keys| - 1], values[..|keys| - 1], groups)) + values[|keys| - 1]
  {
    var last := |keys| - 1;
    var g :| 0 <= g < |groups| && groups[g] == keys[last];
    LastLineEnters(keys, values, groups, g);
    var before := GroupTotals(keys[..last], values[..last], groups);
    TotalUpdate(before, g, before[g] + values[last]);
  }

  /** The last line counts in its own group and in no other. */
  lemma LastLineEnters<K>(keys: seq<K>, values: seq<int>, groups: seq<K>, g: nat)
    requires |keys| == |values| > 0 && g < |groups| && groups[g] == keys[|keys| - 1]
    requires AllDifferent(groups)
    ensures var last := |keys| - 1;
            var before := GroupTotals(keys[..last], values[..last], groups);
            GroupTotals(keys, values, groups) == before[g := before[g] + values[last]]
  {
    var last := |keys| - 1;
    var init, rest := keys[..last], values[..last];
    var before := GroupTotals(init, rest, groups);
    assert keys == init + [keys[last]] && values == rest + [values[last]];
    forall h | 0 <= h < |groups|
      ensures GroupTotals(keys, values, groups)[h] == before[g := before[g] + values[last]][h]
    {
      OneMoreLine(init, rest, keys[last], values[last], groups[h]);
    }
  }

  // ---------------------------------------------------------------- months of work

  /** The month of a line; lines without a day come last, as the text key for them sorts after every month. */
  type MonthKey = Option<Calendar.Month>

  predicate Before(a: MonthKey, b: MonthKey) {
    a.Some? && (b.None? || a.value < b.value)
  }

  datatype Line = Line(month: MonthKey, amount: int, hours: int)

  datatype Group = Group(month: MonthKey, members: seq<nat>, amount: int, hours: int)

  function Months(lines: seq<Line>): (r: seq<MonthKey>)
    ensures |r| == |lines| && forall i :: 0 <= i < |r| ==> r[i] == lines[i].month
  {
    seq(|lines|, i requires 0 <= i < |lines| => lines[i].month)
  }

  function Amounts(lines: seq<Line>): (r: seq<int>)
    ensures |r| == |lines| && forall i :: 0 <= i < |r| ==> r[i] == lines[i].amount
  {
    seq(|lines|, i requires 0 <= i < |lines| => lines[i].amount)
  }

  function Hours(lines: seq<Line>): (r: seq<int>)
    ensures |r| == |lines| && forall i :: 0 <= i < |r| ==> r[i] == lines[i].hours
  {
    seq(|lines|, i requires 0 <= i < |lines| => lines[i].hours)
  }

  /** The lines of a month, in their order. */
  function MembersOf(lines: seq<Line>, month: MonthKey): (r: seq<nat>)
    ensures forall i: nat :: i in r <==> i < |lines| && lines[i].month == month
    ensures forall k :: 0 <= k < |r| ==> r[k] < |lines|
    ensures forall j, k :: 0 <= j < k < |r| ==> r[j] < r[k]
  {
    if lines == [] then []
    else
      var last := |lines| - 1;
      MembersOf(lines[..last], month) + if lines[last].month == month then [last] else []
  }

  function GroupOf(lines: seq<Line>, month: MonthKey): Group {
    Group(month, MembersOf(lines, month),
          TotalOf(Months(lines), Amounts(lines), month), TotalOf(Months(lines), Hours(lines), month))
  }

  /** The groups of a document: the months that occur, in order, each with exactly its lines and their totals. */
  ghost predicate Grouped(lines: seq<Line>, groups: seq<Group>) {
    && (forall g, h :: 0 <= g < h < |groups| ==> Before(groups[g].month, groups[h].month))
    && (forall g :: 0 <= g < |groups| ==> groups[g] == GroupOf(lines, groups[g].month) && groups[g].members != [])
    && (forall i {:trigger Shown(groups, i)} :: 0 <= i < |lines| ==> Shown(groups, i))
  }

  /** A line that some group lists. */
  predicate Shown(groups: seq<Group>, i: nat) {
    exists g :: 0 <= g < |groups| && i in groups[g].members
  }

  function GroupAmounts(groups: seq<Group>): (xs: seq<int>)
    ensures |xs| == |groups| && forall g :: 0 <= g < |xs| ==> xs[g] == groups[g].amount
  {
    seq(|groups|, g requires 0 <= g < |groups| => groups[g].amount)
  }

  function GroupHours(groups: seq<Group>): (xs: seq<int>)
    ensures |xs| == |groups| && forall g :: 0 <= g < |xs| ==> xs[g] == groups[g].hours
  {
    seq(|groups|, g requires 0 <= g < |groups| => groups[g].hours)
  }

  /** A group holds what its own lines add up to. */
  predicate AddsItsLines(lines: seq<Line>, g: Group) {
    && (forall k :: 0 <= k < |g.members| ==> g.members[k] < |lines| && lines[g.members[k]].month == g.month)
    && g.amount == Total(seq(|g.members|, k requires 0 <= k < |g.members| => lines[g.members[k]].amount))
    && g.hours == Total(seq(|g.members|, k requires 0 <= k < |g.members| => lines[g.members[k]].hours))
  }

  /** The total of a key is the sum of the values at the places where it stands. */
  lemma KeyAddsItsPlaces(keys: seq<MonthKey>, values: seq<int>, key: MonthKey, places: seq<nat>, own: seq<int>)
    requires |keys| == |values| && forall i: nat :: i in places <==> i < |keys| && keys[i] == key
    requires forall j, k :: 0 <= j < k < |places| ==> places[j] < places[k]
    requires |own| == |places| && forall k :: 0 <= k < |own| ==> places[k] < |values| && own[k] == values[places[k]]
    ensures TotalOf(keys, values, key) == Total(own)
  {
    forall k | 0 <= k < |places|
      ensures keys[places[k]] == key
    {
      assert places[k] in places;
    }
    TotalScattered(Keyed(keys, values, key), places, own);
  }

  lemma MembersAddUp(lines: seq<Line>, g: Group)
    requires forall i: nat :: i in g.members <==> i < |lines| && lines[i].month == g.month
    requires forall j, k :: 0 <= j < k < |g.members| ==> g.members[j] < g.members[k]
    requires g.amount == TotalOf(Months(lines), Amounts(lines), g.month)
    requires g.hours == TotalOf(Months(lines), Hours(lines), g.month)
    ensures AddsItsLines(lines, g)
  {
    forall k | 0 <= k < |g.members|
      ensures g.members[k] < |lines| && lines[g.members[k]].month == g.month
    {
      assert g.members[k] in g.members;
    }
    KeyAddsItsPlaces(Months(lines), Amounts(lines), g.month, g.members,
                     seq(|g.members|, k requires 0 <= k < |g.members| => lines[g.members[k]].amount));
    KeyAddsItsPlaces(Months(lines), Hours(lines), g.month, g.members,
                     seq(|g.members|, k requires 0 <= k < |g.members| => lines[g.members[k]].hours));
  }

  lemma GroupAddsItsLines(lines: seq<Line>, month: MonthKey)
    ensures AddsItsLines(lines, GroupOf(lines, month))
  {
    MembersAddUp(lines, GroupOf(lines, month));
  }

  function GroupMonths(groups: seq<Group>): (ms: seq<MonthKey>)
    ensures |ms| == |groups| && forall g :: 0 <= g < |ms| ==> ms[g] == groups[g].month
  {
    seq(|groups|, g requires 0 <= g < |groups| => groups[g].month)
  }

  lemma GroupMonthsCover(lines: seq<Line>, groups: seq<Group>)
    requires Grouped(lines, groups)
    ensures Covered(Months(lines), GroupMonths(groups)) && AllDifferent(GroupMonths(groups))
  {
    forall i | 0 <= i < |Months(lines)|
      ensures Months(lines)[i] in GroupMonths(groups)
    {
      assert Shown(groups, i);
      var g :| 0 <= g < |groups| && i in groups[g].members;
      assert GroupMonths(groups)[g] == lines[i].month;
    }
  }

  /** No line is in two groups, each holds what its lines add up to, and together they hold what all lines do. */
  lemma GroupsPartition(lines: seq<Line>, groups: seq<Group>)
    requires Grouped(lines, groups)
    ensures forall g :: 0 <= g < |groups| ==> AddsItsLines(lines, groups[g])
    ensures forall i: nat, g: nat, h: nat ::
      g < |groups| && h < |groups| && i in groups[g].members && i in groups[h].members ==> g == h
    ensures Total(GroupAmounts(groups)) == Total(Amounts(lines))
    ensures Total(GroupHours(groups)) == Total(Hours(lines))
  {
    forall g | 0 <= g < |groups|
      ensures AddsItsLines(lines, groups[g])
    {
      GroupAddsItsLines(lines, groups[g].month);
    }
    GroupMonthsCover(lines, groups);
    GroupsAddUp(Months(lines), Amounts(lines), GroupMonths(groups));
    GroupsAddUp(Months(lines), Hours(lines), GroupMonths(groups));
    assert GroupAmounts(groups) == GroupTotals(Months(lines), Amounts(lines), GroupMonths(groups));
    assert GroupHours(groups) == GroupTotals(Months(lines), Hours(lines), GroupMonths(groups));
  }

  lemma {:induction false} EarliestExists(months: set<MonthKey>)
    requires months != {}
    ensures exists m :: m in months && forall k :: k in months ==> k == m || Before(m, k)
    decreases months
  {
    var m :| m in months;
    if months != {m} {
      var rest := months - {m};
      EarliestExists(rest);
      var r :| r in rest && forall k :: k in rest ==> k == r || Before(r, k);
      var first := if Before(m, r) then m else r;
      assert forall k :: k in months ==> k == m || k in rest;
      assert first in months && forall k :: k in months ==> k == first || Before(first, k);
    }
  }

  predicate BucketOk(lines: seq<Line>, buckets: map<MonthKey, Group>, m: MonthKey)
    requires m in buckets
  {
    buckets[m] == GroupOf(lines, m) && buckets[m].members != []
  }

  /** Every bucket holds the group of its month, and every line has put its month among the buckets. */
  predicate Filled(lines: seq<Line>, buckets: map<MonthKey, Group>) {
    && (forall m {:trigger BucketOk(lines, buckets, m)} :: m in buckets ==> BucketOk(lines, buckets, m))
    && (forall k :: 0 <= k < |lines| ==> lines[k].month in buckets)
  }

  /** A line put in the bucket of its month. */
  function Put(buckets: map<MonthKey, Group>, line: Line, i: nat): map<MonthKey, Group> {
    var b := if line.month in buckets then buckets[line.month] else Group(line.month, [], 0, 0);
    buckets[line.month := Group(line.month, b.members + [i], b.amount + line.amount, b.hours + line.hours)]
  }

  /** The grouping loop: buckets filled line by line. */
  method FillBuckets(lines: seq<Line>) returns (buckets: map<MonthKey, Group>)
    ensures Filled(lines, buckets)
  {
    buckets := map[];
    for i := 0 to |lines|
      invariant Filled(lines[..i], buckets)
    {
      FilledGrows(lines, i, buckets);
      buckets := Put(buckets, lines[i], i);
    }
    assert lines[..|lines|] == lines;
  }

  /** Putting a line in its bucket keeps every bucket the group of its month. */
  lemma BucketGrows(lines: seq<Line>, i: nat, buckets: map<MonthKey, Group>, m: MonthKey)
    requires i < |lines| && m in Put(buckets, lines[i], i)
    requires m in buckets ==> BucketOk(lines[..i], buckets, m)
    requires m !in buckets ==> forall k :: 0 <= k < i ==> lines[k].month != m
    ensures BucketOk(lines[..i + 1], Put(buckets, lines[i], i), m)
  {
    GroupGrows(lines, i, m);
    if m !in buckets {
      NewGroupIsEmpty(lines[..i], m);
    }
  }

  lemma FilledGrows(lines: seq<Line>, i: nat, buckets: map<MonthKey, Group>)
    requires i < |lines| && Filled(lines[..i], buckets)
    ensures Filled(lines[..i + 1], Put(buckets, lines[i], i))
  {
    forall k | 0 <= k < i
      ensures lines[k].month in buckets
    {
      assert lines[..i][k].month in buckets;
    }
    forall m | m in Put(buckets, lines[i], i)
      ensures BucketOk(lines[..i + 1], Put(buckets, lines[i], i), m)
    {
      if m in buckets {
        assert BucketOk(lines[..i], buckets, m);
      }
      BucketGrows(lines, i, buckets, m);
    }
  }

  predicate Listed(groups: seq<Group>, m: MonthKey) {
    exists g :: 0 <= g < |groups| && groups[g].month == m
  }

  lemma ListedStays(groups: seq<Group>, last: Group, m: MonthKey)
    ensures Listed(groups + [last], m) <==> Listed(groups, m) || last.month == m
  {
    var all := groups + [last];
    assert all[|groups|] == last;
    assert forall g :: 0 <= g < |groups| ==> all[g] == groups[g];
  }

  /** The buckets read in the order of their months. */
  method InMonthOrder(buckets: map<MonthKey, Group>) returns (groups: seq<Group>)
    requires forall m :: m in buckets ==> buckets[m].month == m
    ensures forall g :: 0 <= g < |groups| ==> groups[g].month in buckets && groups[g] == buckets[groups[g].month]
    ensures forall m :: m in buckets ==> Listed(groups, m)
    ensures forall g, h :: 0 <= g < h < |groups| ==> Before(groups[g].month, groups[h].month)
  {
    var left := buckets.Keys;
    groups := [];
    while left != {}
      invariant left <= buckets.Keys
      invariant forall g :: 0 <= g < |groups| ==> groups[g].month in buckets && groups[g] == buckets[groups[g].month]
      invariant forall m :: m in buckets && m !in left ==> Listed(groups, m)
      invariant forall g, m :: 0 <= g < |groups| && m in left ==> Before(groups[g].month, m)
      invariant forall g, h :: 0 <= g < h < |groups| ==> Before(groups[g].month, groups[h].month)
      decreases left
    {
      EarliestExists(left);
      var m :| m in left && forall k :: k in left ==> k == m || Before(m, k);
      forall k ensures Listed(groups + [buckets[m]], k) <==> Listed(groups, k) || k == m {
        ListedStays(groups, buckets[m], k);
      }
      groups := groups + [buckets[m]];
      left := left - {m};
    }
  }

  method GroupByMonth(lines: seq<Line>) returns (groups: seq<Group>)
    ensures Grouped(lines, groups)
  {
    var buckets := FillBuckets(lines);
    forall m | m in buckets
      ensures buckets[m].month == m
    {
      assert BucketOk(lines, buckets, m);
    }
    groups := InMonthOrder(buckets);
    forall g | 0 <= g < |groups|
      ensures groups[g] == GroupOf(lines, groups[g].month) && groups[g].members != []
    {
      assert BucketOk(lines, buckets, groups[g].month);
    }
    forall i | 0 <= i < |lines|
      ensures Shown(groups, i)
    {
      LineIsShown(lines, groups, i);
    }
  }

  lemma LineIsShown(lines: seq<Line>, groups: seq<Group>, i: nat)
    requires i < |lines| && Listed(groups, lines[i].month)
    requires forall g :: 0 <= g < |groups| ==> groups[g] == GroupOf(lines, groups[g].month)
    ensures Shown(groups, i)
  {
    var g :| 0 <= g < |groups| && groups[g].month == lines[i].month;
    assert i in groups[g].members;
  }

  /** One more line enters the group of its month, and no other group changes. */
  lemma GroupGrows(lines: seq<Line>, i: nat, month: MonthKey)
    requires i < |lines|
    ensures var was, own := GroupOf(lines[..i], month), lines[i].month == month;
            GroupOf(lines[..i + 1], month) ==
              Group(month, was.members + (if own then [i] else []),
                    was.amount + (if own then lines[i].amount else 0), was.hours + (if own then lines[i].hours else 0))
  {
    var init, all := lines[..i], lines[..i + 1];
    assert all[..i] == init;
    assert Months(all) == Months(init) + [lines[i].month];
    assert Amounts(all) == Amounts(init) + [lines[i].amount];
    assert Hours(all) == Hours(init) + [lines[i].hours];
    OneMoreLine(Months(init), Amounts(init), lines[i].month, lines[i].amount, month);
    OneMoreLine(Months(init), Hours(init), lines[i].month, lines[i].hours, month);
  }

  lemma {:induction false} NoMembers(lines: seq<Line>, month: MonthKey)
    requires forall k :: 0 <= k < |lines| ==> lines[k].month != month
    ensures MembersOf(lines, month) == []
  {
    if lines != [] {
      NoMembers(lines[..|lines| - 1], month);
    }
  }

  lemma NewGroupIsEmpty(lines: seq<Line>, month: MonthKey)
    requires forall k :: 0 <= k < |lines| ==> lines[k].month != month
    ensures GroupOf(lines, month) == Group(month, [], 0, 0)
  {
    NoMembers(lines, month);
    TotalZero(Keyed(Months(lines), Amounts(lines), month));
    TotalZero(Keyed(Months(lines), Hours(lines), month));
  }
}
