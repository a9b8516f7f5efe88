/** What the statements of variables put on an invoice, said of their items alone. */
module Variables {
  import opened Outcomes
  import opened Totals
  import opened Ledger
  import opened Invariants
  import Calendar
  import Tax

  /** An item is billed when it is switched on and worth something. */
  predicate Counts(item: Item) {
    item.enabled && item.commercial > 0
  }

  /** Whole guaranies, within half a guarani of the value at the rate; a half goes up. */
  predicate IsConversion(usd: nat, rate: nat, converted: nat) {
    converted % 100 == 0 && 0 - 1_000_000 <= 2 * (usd * rate - 10_000 * converted) < 1_000_000
  }

  lemma ConvertedIsConversion(usd: nat, rate: nat)
    ensures IsConversion(usd, rate, Converted(usd, rate))
  {
    Tax.ProductIsProduct(usd, rate);
    Tax.RoundingBounds(Tax.Product(usd, rate), 1_000_000);
  }

  /** The line of one item. */
  predicate IsLineOf(line: VariableLine, period: Calendar.Month, item: Item, rate: nat) {
    && line.period == period && line.name == item.name && line.usd == item.commercial
    && IsConversion(line.usd, rate, line.converted)
  }

  /** One line for each item that counts, in the order of the items: places[k] is where line k comes from. */
  ghost predicate ItemizedFrom(period: Calendar.Month, items: seq<Item>, rate: nat, own: seq<VariableLine>,
                               places: seq<nat>) {
    && |places| == |own|
    && (forall j, k :: 0 <= j < k < |places| ==> places[j] < places[k])
    && (forall j: nat :: j in places <==> j < |items| && Counts(items[j]))
    && (forall k :: 0 <= k < |own| ==> places[k] < |items| && IsLineOf(own[k], period, items[places[k]], rate))
  }

  ghost predicate Itemizes(period: Calendar.Month, items: seq<Item>, rate: nat, own: seq<VariableLine>) {
    exists places :: ItemizedFrom(period, items, rate, own, places)
  }

  function LineFor(period: Calendar.Month, item: Item, rate: nat): VariableLine
    requires Counts(item)
  {
    VariableLine(period, item.name, item.commercial, Converted(item.commercial, rate))
  }

  lemma LastItem(period: Calendar.Month, items: seq<Item>, rate: nat)
    requires items != []
    ensures var last := |items| - 1;
            var rest := ItemLines(period, items[..last], rate);
            ItemLines(period, items, rate) ==
              if Counts(items[last]) then rest + [LineFor(period, items[last], rate)] else rest
  {
  }

  lemma {:induction false} ItemLinesItemize(period: Calendar.Month, items: seq<Item>, rate: nat)
    ensures Itemizes(period, items, rate, ItemLines(period, items, rate))
  {
    if items == [] {
      assert ItemizedFrom(period, items, rate, [], []);
    } else {
      var last := |items| - 1;
      ItemLinesItemize(period, items[..last], rate);
      var places :| ItemizedFrom(period, items[..last], rate, ItemLines(period, items[..last], rate), places);
      ItemizedGrows(period, items, rate, ItemLines(period, items[..last], rate), places);
      LastItem(period, items, rate);
    }
  }

  lemma ItemizedGrows(period: Calendar.Month, items: seq<Item>, rate: nat, own: seq<VariableLine>, places: seq<nat>)
    requires items != [] && ItemizedFrom(period, items[..|items| - 1], rate, own, places)
    ensures var last := |items| - 1;
            if Counts(items[last])
            then ItemizedFrom(period, items, rate, own + [LineFor(period, items[last], rate)], places + [last])
            else ItemizedFrom(period, items, rate, own, places)
  {
    var last := |items| - 1;
    assert forall k :: 0 <= k < |places| ==> places[k] in places;
    if Counts(items[last]) {
      ConvertedIsConversion(items[last].commercial, rate);
    }
  }

  // ---------------------------------------------------------------- what is open to bill

  /** An item that counts, of a statement no invoice has sealed. */
  predicate OpenItem(statements: map<Calendar.Month, Statement>, m: Calendar.Month, j: nat) {
    && m in statements && statements[m].billed.None?
    && j < |statements[m].items| && Counts(statements[m].items[j])
  }

  /** The statement of a month has something to bill. */
  ghost predicate OpenMonth(statements: map<Calendar.Month, Statement>, m: Calendar.Month) {
    exists j: nat :: OpenItem(statements, m, j)
  }

  /** What the lines of a month are: those of its open statement, or none. */
  ghost predicate MonthIsItemized(statements: map<Calendar.Month, Statement>, m: Calendar.Month, rate: nat,
                                  own: seq<VariableLine>) {
    if OpenMonth(statements, m) then Itemizes(m, statements[m].items, rate, own) else own == []
  }

  lemma PeriodLinesItemize(statements: map<Calendar.Month, Statement>, m: Calendar.Month, rate: nat)
    ensures MonthIsItemized(statements, m, rate, PeriodLines(statements, m, rate))
    ensures PeriodLines(statements, m, rate) != [] <==> OpenMonth(statements, m)
  {
    if m in statements && statements[m].billed.None? {
      var items, own := statements[m].items, PeriodLines(statements, m, rate);
      ItemLinesItemize(m, items, rate);
      var places :| ItemizedFrom(m, items, rate, own, places);
      if own != [] {
        assert places[0] in places;
        assert OpenItem(statements, m, places[0]);
      } else {
        assert forall j: nat :: !OpenItem(statements, m, j);
      }
    }
  }

  /** Collecting distinct periods: each month has the lines of its open statement, and no other month has any. */
  ghost predicate Collected(statements: map<Calendar.Month, Statement>, periods: seq<Calendar.Month>, rate: nat,
                            found: seq<VariableLine>) {
    && (forall m :: m in periods ==> MonthIsItemized(statements, m, rate, OfPeriod(found, m)))
    && (forall m :: m !in periods ==> OfPeriod(found, m) == [])
  }

  lemma CollectLinesCollect(statements: map<Calendar.Month, Statement>, periods: seq<Calendar.Month>, rate: nat)
    requires forall i, j :: 0 <= i < j < |periods| ==> periods[i] != periods[j]
    ensures Collected(statements, periods, rate, CollectLines(statements, periods, rate))
  {
    var found := CollectLines(statements, periods, rate);
    forall m
      ensures m in periods ==> MonthIsItemized(statements, m, rate, OfPeriod(found, m))
      ensures m !in periods ==> OfPeriod(found, m) == []
    {
      CollectedOfPeriod(statements, periods, rate, m);
      PeriodLinesItemize(statements, m, rate);
    }
  }

  /** Something is collected exactly if one of the periods is open. */
  lemma {:induction false} SomethingIsCollected(
      statements: map<Calendar.Month, Statement>, periods: seq<Calendar.Month>, rate: nat)
    ensures CollectLines(statements, periods, rate) != [] <==> exists m :: m in periods && OpenMonth(statements, m)
  {
    if periods != [] {
      var last := |periods| - 1;
      SomethingIsCollected(statements, periods[..last], rate);
      PeriodLinesItemize(statements, periods[last], rate);
      assert periods == periods[..last] + [periods[last]];
    }
  }

  // ---------------------------------------------------------------- what it amounts to

  /** The amount of an item is not zero: it is worth at least half a guarani. */
  predicate Weighs(usd: int, rate: nat) {
    usd > 0 && 2 * (usd * rate) >= 1_000_000
  }

  lemma WeightIsExact(usd: nat, rate: nat)
    ensures Converted(usd, rate) > 0 <==> Weighs(usd, rate)
  {
    ConvertedIsConversion(usd, rate);
  }

  ghost predicate WeighingItem(statements: map<Calendar.Month, Statement>, m: Calendar.Month, rate: nat) {
    exists j: nat :: OpenItem(statements, m, j) && Weighs(statements[m].items[j].commercial, rate)
  }

  lemma VariablesAmountConcat(xs: seq<VariableLine>, ys: seq<VariableLine>)
    ensures VariablesAmount(xs + ys) == VariablesAmount(xs) + VariablesAmount(ys)
  {
    assert ConvertedColumn(xs + ys) == ConvertedColumn(xs) + ConvertedColumn(ys);
    TotalConcat(ConvertedColumn(xs), ConvertedColumn(ys));
  }

  lemma LineAdds(xs: seq<VariableLine>, line: VariableLine)
    ensures VariablesAmount(xs + [line]) == VariablesAmount(xs) + line.converted
  {
    VariablesAmountConcat(xs, [line]);
    TotalSingle(ConvertedColumn([line]), 0);
  }

  lemma {:induction false} ItemsAmount(period: Calendar.Month, items: seq<Item>, rate: nat)
    ensures VariablesAmount(ItemLines(period, items, rate)) >= 0
    ensures VariablesAmount(ItemLines(period, items, rate)) > 0 <==>
            exists j: nat :: j < |items| && Counts(items[j]) && Weighs(items[j].commercial, rate)
  {
    if items != [] {
      var last := |items| - 1;
      var rest := ItemLines(period, items[..last], rate);
      ItemsAmount(period, items[..last], rate);
      LastItem(period, items, rate);
      if Counts(items[last]) {
        LineAdds(rest, LineFor(period, items[last], rate));
        WeightIsExact(items[last].commercial, rate);
      }
      assert forall j: nat :: j < last ==> items[..last][j] == items[j];
    }
  }

  lemma PeriodAmount(statements: map<Calendar.Month, Statement>, m: Calendar.Month, rate: nat)
    ensures VariablesAmount(PeriodLines(statements, m, rate)) >= 0
    ensures VariablesAmount(PeriodLines(statements, m, rate)) > 0 <==> WeighingItem(statements, m, rate)
  {
    if m in statements && statements[m].billed.None? {
      ItemsAmount(m, statements[m].items, rate);
      var items := statements[m].items;
      if WeighingItem(statements, m, rate) {
        var j: nat :| OpenItem(statements, m, j) && Weighs(statements[m].items[j].commercial, rate);
        assert j < |items| && Counts(items[j]) && Weighs(items[j].commercial, rate);
      }
      if VariablesAmount(PeriodLines(statements, m, rate)) > 0 {
        var j: nat :| j < |items| && Counts(items[j]) && Weighs(items[j].commercial, rate);
        assert OpenItem(statements, m, j);
      }
    }
  }

  /** What is collected amounts to something exactly if one item of the periods is worth half a guarani. */
  lemma {:induction false} CollectedAmount(
      statements: map<Calendar.Month, Statement>, periods: seq<Calendar.Month>, rate: nat)
    ensures VariablesAmount(CollectLines(statements, periods, rate)) >= 0
    ensures VariablesAmount(CollectLines(statements, periods, rate)) > 0 <==>
            exists m :: m in periods && WeighingItem(statements, m, rate)
  {
    if periods != [] {
      var last := |periods| - 1;
      CollectedAmount(statements, periods[..last], rate);
      PeriodAmount(statements, periods[last], rate);
      VariablesAmountConcat(CollectLines(statements, periods[..last], rate),
                            PeriodLines(statements, periods[last], rate));
      assert periods == periods[..last] + [periods[last]];
    }
  }
}
