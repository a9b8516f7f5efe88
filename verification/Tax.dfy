/** The tax of a document: one rounded term, the other one by subtraction. Rates count ten-thousandths. */
module Tax {
  import opened Outcomes

  /** The three amounts of a document, in cents. Net and tax are absent when there is no tax. */
  datatype Breakdown = Breakdown(net: Option<int>, tax: Option<int>, total: int)

  datatype Mode = Excluded | Included

  type Positive = n: int | n > 0 witness 1

  /** a * n, as repeated addition: nothing outside this module has to reason about products of unknowns. */
  function Product(a: int, n: nat): (p: int)
    ensures a >= 0 ==> p >= 0
  {
    if n == 0 then 0 else Product(a, n - 1) + a
  }

  lemma {:induction false} ProductIsProduct(a: int, n: nat)
    ensures Product(a, n) == a * n
  {
    if n > 0 {
      ProductIsProduct(a, n - 1);
      assert a * n == a * (n - 1) + a;
    }
  }

  lemma {:induction false} ProductIsMonotone(a: int, b: int, n: nat)
    requires a <= b
    ensures Product(a, n) <= Product(b, n)
  {
    if n > 0 {
      ProductIsMonotone(a, b, n - 1);
    }
  }

  /** a / b, as repeated subtraction. */
  function Quotient(a: nat, b: nat): (q: nat)
    requires b > 0
  {
    if a < b then 0 else Quotient(a - b, b) + 1
  }

  lemma {:induction false} QuotientBounds(a: nat, b: nat)
    requires b > 0
    ensures Quotient(a, b) * b <= a < Quotient(a, b) * b + b
  {
    if a >= b {
      QuotientBounds(a - b, b);
      assert Quotient(a, b) * b == Quotient(a - b, b) * b + b;
    }
  }

  /** num / den rounded to the nearest integer, halves away from zero. */
  function RoundHalfUp(num: int, den: nat): (r: int)
    requires den > 0
    ensures num >= 0 ==> r >= 0
    ensures num <= 0 ==> r <= 0
  {
    if num > 0 then Quotient(2 * num + den, 2 * den)
    else if num == 0 then 0
    else 0 - Quotient(2 * (0 - num) + den, 2 * den)
  }

  /** The rounded value is within half a unit, and a half goes away from zero. */
  lemma RoundingBounds(num: int, den: nat)
    requires den > 0
    ensures num >= 0 ==> 0 - den <= 2 * (num - RoundHalfUp(num, den) * den) < den
    ensures num <= 0 ==> 0 - den < 2 * (num - RoundHalfUp(num, den) * den) <= den
  {
    if num != 0 {
      QuotientBounds(2 * (if num > 0 then num else 0 - num) + den, 2 * den);
    }
  }

  /** An integer within half a unit of num / den, where a half goes up: there is exactly one. */
  predicate RoundsTo(num: int, den: int, r: int) {
    0 - den <= 2 * (num - r * den) < den
  }

  /** A common positive factor cancels. */
  lemma Cancel(a: int, b: int, c: int)
    requires c > 0 && a * c < b * c
    ensures a < b
  {
    Subtract(b, a, c);
  }

  lemma Subtract(a: int, b: int, c: int)
    ensures (a - b) * c == a * c - b * c
  {
  }

  /** An amount with its tax is at least the amount. */
  lemma Weigh(a: nat, t: nat)
    ensures a * (10_000 + t) == a * 10_000 + a * t >= a * 10_000
  {
  }

  lemma CancelNext(p: int, q: int, c: int)
    requires c > 0 && p * c < q * c + c
    ensures p <= q
  {
    assert (q + 1) * c == q * c + c;
    Cancel(p, q + 1, c);
  }

  /** The bounds of RoundHalfUp leave room for one integer only. */
  lemma RoundingIsUnique(num: int, den: nat, r: int)
    requires den > 0 && num >= 0
    requires RoundsTo(num, den, r)
    ensures r == RoundHalfUp(num, den)
  {
    var q := RoundHalfUp(num, den);
    RoundingBounds(num, den);
    CancelNext(r, q, den);
    CancelNext(q, r, den);
  }

  lemma RoundingIsMonotone(a: nat, b: nat, den: nat)
    requires a <= b && den > 0
    ensures RoundHalfUp(a, den) <= RoundHalfUp(b, den)
  {
    RoundingBounds(a, den);
    RoundingBounds(b, den);
    CancelNext(RoundHalfUp(a, den), RoundHalfUp(b, den), den);
  }

  function ParseTaxMode(mode: Option<string>): Option<Mode> {
    if mode == Some("EXCLUDED") then Some(Excluded)
    else if mode == Some("INCLUDED") then Some(Included)
    else None
  }

  function ComputeTax(base: int, rate: Option<int>, mode: Option<string>): Breakdown {
    var parsed := ParseTaxMode(mode);
    if rate.None? || parsed.None? || rate.value <= 0 then
      Breakdown(None, None, base)
    else if parsed.value.Excluded? then
      var tax := RoundHalfUp(Product(base, rate.value), 10_000);
      Breakdown(Some(base), Some(tax), base + tax)
    else
      var net := RoundHalfUp(base * 10_000, 10_000 + rate.value);
      Breakdown(Some(net), Some(base - net), base)
  }

  /** Whether the document carries a tax at all. */
  predicate Taxed(rate: Option<int>, mode: Option<string>) {
    rate.Some? && rate.value > 0 && ParseTaxMode(mode).Some?
  }

  /** total == net + tax, by construction; without tax the total is the base itself. */
  lemma BreakdownCloses(base: int, rate: Option<int>, mode: Option<string>)
    ensures var b := ComputeTax(base, rate, mode);
            && (b.net.Some? <==> Taxed(rate, mode))
            && (b.tax.Some? <==> Taxed(rate, mode))
            && (Taxed(rate, mode) ==> b.total == b.net.value + b.tax.value)
            && (!Taxed(rate, mode) || ParseTaxMode(mode) == Some(Included) ==> b.total == base)
            && (Taxed(rate, mode) && ParseTaxMode(mode) == Some(Excluded) ==> b.net == Some(base))
  {
  }

  /** The term that is rounded: the tax on an added base, the net of a total that includes it. */
  lemma OneTermIsRounded(base: nat, rate: int)
    requires rate > 0
    ensures var b := ComputeTax(base, Some(rate), Some("EXCLUDED"));
            b.net == Some(base) && b.tax.Some? && RoundsTo(base * rate, 10_000, b.tax.value)
    ensures var b := ComputeTax(base, Some(rate), Some("INCLUDED"));
            b.total == base && b.net.Some? && RoundsTo(10_000 * base, 10_000 + rate, b.net.value)
  {
    ProductIsProduct(base, rate);
    RoundingBounds(Product(base, rate), 10_000);
    RoundingBounds(base * 10_000, 10_000 + rate);
  }

  /** Terms kept only when they produced a tax produce the same breakdown again. */
  lemma KeptTermsRecompute(base: int, rate: Option<int>, mode: Option<string>)
    ensures var b := ComputeTax(base, rate, mode);
            ComputeTax(base, if b.net.Some? then rate else None, if b.net.Some? then mode else None) == b
  {
  }

  /** A non-negative base gives 0 <= net <= total and 0 <= tax. */
  lemma BreakdownIsOrdered(base: nat, rate: Option<int>, mode: Option<string>)
    ensures var b := ComputeTax(base, rate, mode);
            && b.total >= base
            && (b.net.Some? ==> 0 <= b.net.value <= b.total && 0 <= b.tax.value)
  {
    if Taxed(rate, mode) {
      RoundingBounds(base * 10_000, 10_000 + rate.value);
      Weigh(base, rate.value);
      CancelNext(RoundHalfUp(base * 10_000, 10_000 + rate.value), base, 10_000 + rate.value);
    }
  }

  /** Both modes are monotone in the base, in every amount. */
  lemma BreakdownIsMonotone(a: nat, b: nat, rate: Option<int>, mode: Option<string>)
    requires a <= b
    ensures var x, y := ComputeTax(a, rate, mode), ComputeTax(b, rate, mode);
            && x.total <= y.total
            && (x.net.Some? ==> x.net.value <= y.net.value)
            && (x.tax.Some? ==> x.tax.value <= y.tax.value)
  {
    if Taxed(rate, mode) {
      var t := rate.value;
      ProductIsMonotone(a, b, t);
      RoundingIsMonotone(Product(a, t), Product(b, t), 10_000);
      RoundingIsMonotone(a * 10_000, b * 10_000, 10_000 + t);
      NetGrowsNoFasterThanTotal(a, b, t);
    }
  }

  lemma NetGrowsNoFasterThanTotal(a: nat, b: nat, t: int)
    requires a <= b && t > 0
    ensures RoundHalfUp(b * 10_000, 10_000 + t) - RoundHalfUp(a * 10_000, 10_000 + t) <= b - a
  {
    var den := 10_000 + t;
    var p, q := RoundHalfUp(a * 10_000, den), RoundHalfUp(b * 10_000, den);
    RoundingBounds(a * 10_000, den);
    RoundingBounds(b * 10_000, den);
    Weigh(b - a, t);
    Subtract(q, p, den);
    CancelNext(q - p, b - a, den);
  }

  /** Adding the tax and then extracting it again recovers the net and the tax exactly, at every positive rate. */
  lemma ExcludedThenIncluded(base: nat, t: int)
    requires t > 0
    ensures var up := ComputeTax(base, Some(t), Some("EXCLUDED"));
            ComputeTax(up.total, Some(t), Some("INCLUDED")) == up
  {
    var tax := RoundHalfUp(Product(base, t), 10_000);
    var total := base + tax;
    var den := 10_000 + t;
    ProductIsProduct(base, t);
    RoundingBounds(Product(base, t), 10_000);
    assert total * 10_000 - base * den == tax * 10_000 - base * t;
    RoundingIsUnique(total * 10_000, den, base);
  }

  /** A total from which the tax is extracted, to be added again to the net. */
  function Readded(total: nat, t: Positive): int {
    ComputeTax(ComputeTax(total, Some(t), Some("INCLUDED")).net.value, Some(t), Some("EXCLUDED")).total
  }

  /** The net, the tax and their product, as the two roundings bound them. */
  lemma ReaddedBounds(total: nat, t: Positive) returns (net: nat, tax: nat, product: int)
    ensures Readded(total, t) == net + tax
    ensures 0 - (10_000 + t) <= 2 * (total * 10_000 - net * 10_000 - product) < 10_000 + t
    ensures 0 - 10_000 <= 2 * (product - tax * 10_000) < 10_000
  {
    net := RoundHalfUp(total * 10_000, 10_000 + t);
    product := Product(net, t);
    tax := RoundHalfUp(product, 10_000);
    ProductIsProduct(net, t);
    RoundingBounds(total * 10_000, 10_000 + t);
    RoundingBounds(product, 10_000);
    Weigh(net, t);
  }

  /** At 200%, the net is within a third of a cent of a third of the total. */
  lemma ReaddedAtTwoHundredPercent(total: nat)
    ensures -1 <= Readded(total, 20_000) - total <= 1
  {
    var net, tax, product := ReaddedBounds(total, 20_000);
    var exact := RoundHalfUp(total * 10_000, 30_000);
    RoundingBounds(total * 10_000, 30_000);
    ProductIsProduct(exact, 20_000);
    RoundingIsUnique(20_000 * exact, 10_000, 2 * exact);
  }

  /** Extracting the tax and adding it back misses by at most 1 + rate / 2 cents, and by at most one cent up to 200%. */
  lemma IncludedThenExcluded(total: nat, t: Positive)
    ensures 0 - 20_000 - t <= 20_000 * (Readded(total, t) - total) <= 20_000 + t
    ensures t <= 20_000 ==> -1 <= Readded(total, t) - total <= 1
  {
    var net, tax, product := ReaddedBounds(total, t);
    if t == 20_000 {
      ReaddedAtTwoHundredPercent(total);
    }
  }

  /** Some multiple of s lands within s / 2 of 5 000. */
  lemma AMultipleLands(s: Positive) returns (net: nat)
    ensures 10_000 - s < 2 * (net * s) <= 10_000 + s
  {
    if s > 10_000 {
      net := 0;
    } else {
      var q := Quotient(10_000 - s, 2 * s);
      QuotientBounds(10_000 - s, 2 * s);
      net := q + 1;
      Doubled(q, s);
    }
  }

  lemma Doubled(q: nat, s: nat)
    ensures 2 * ((q + 1) * s) == q * (2 * s) + 2 * s
  {
  }

  /** A net and its tax at a rate of 200% and s more: the remainder of the tax is the multiple of s. */
  lemma NetAtHighRate(net: nat, s: Positive)
    ensures net * (20_000 + s) == 20_000 * net + net * s
    ensures net * (30_000 + s) == 30_000 * net + net * s
  {
  }

  /** A net and a tax, as the extraction and the addition round to them. */
  lemma ReaddedIs(total: nat, t: Positive, net: nat, tax: nat)
    requires 0 - (10_000 + t) <= 2 * (total * 10_000 - net * (10_000 + t)) < 10_000 + t
    requires 0 - 10_000 <= 2 * (net * t - tax * 10_000) < 10_000
    ensures Readded(total, t) == net + tax
  {
    ProductIsProduct(net, t);
    RoundingIsUnique(total * 10_000, 10_000 + t, net);
    RoundingIsUnique(net * t, 10_000, tax);
  }

  /** A rate above 200% has a total that comes back two cents off. */
  lemma MissesByTwo(t: Positive) returns (total: nat)
    requires t > 20_000
    ensures Readded(total, t) - total == 2 || Readded(total, t) - total == -2
  {
    var net := AMultipleLands(t - 20_000);
    NetAtHighRate(net, t - 20_000);
    if net * (t - 20_000) < 5_000 {
      total := 3 * net + 2;
      ReaddedIs(total, t, net, 2 * net);
    } else {
      total := 3 * net - 1;
      ReaddedIs(total, t, net, 2 * net + 1);
    }
  }

  /** The round trip is within one cent for every total exactly at the rates up to 200%. */
  lemma OneCentUpToTwoHundredPercent(t: Positive)
    ensures (forall total: nat :: -1 <= Readded(total, t) - total <= 1) <==> t <= 20_000
  {
    if t <= 20_000 {
      forall total: nat
        ensures -1 <= Readded(total, t) - total <= 1
      {
        IncludedThenExcluded(total, t);
      }
    } else {
      var total := MissesByTwo(t);
    }
  }

  function Negate(b: Breakdown): Breakdown {
    Breakdown(
      if b.net.Some? then Some(-b.net.value) else None,
      if b.tax.Some? then Some(-b.tax.value) else None,
      -b.total)
  }
}
