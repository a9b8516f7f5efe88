/** Sums over finite columns of integers: the arithmetic behind every aggregate query of the ledger. */
module Totals {

  /** A table that keeps its entries, and may gain some at the end. */
  ghost predicate Grows<T>(before: seq<T>, after: seq<T>) {
    |before| <= |after| && forall i {:trigger after[i]} :: 0 <= i < |before| ==> after[i] == before[i]
  }

  function Total(xs: seq<int>): int {
    if xs == [] then 0 else Total(xs[..|xs| - 1]) + xs[|xs| - 1]
  }

  lemma TotalAppend(xs: seq<int>, x: int)
    ensures Total(xs + [x]) == Total(xs) + x
  {
    assert (xs + [x])[..|xs|] == xs;
  }

  lemma {:induction false} TotalConcat(xs: seq<int>, ys: seq<int>)
    ensures Total(xs + ys) == Total(xs) + Total(ys)
  {
    if ys == [] {
      assert xs + ys == xs;
    } else {
      var last := |ys| - 1;
      assert xs + ys == (xs + ys[..last]) + [ys[last]];
      TotalAppend(xs + ys[..last], ys[last]);
      TotalConcat(xs, ys[..last]);
    }
  }

  /** Adding two columns entry by entry adds their totals. */
  lemma {:induction false} TotalPlus(xs: seq<int>, ys: seq<int>, zs: seq<int>)
    requires |xs| == |ys| == |zs|
    requires forall i :: 0 <= i < |zs| ==> zs[i] == xs[i] + ys[i]
    ensures Total(zs) == Total(xs) + Total(ys)
  {
    if zs != [] {
      var last := |zs| - 1;
      TotalPlus(xs[..last], ys[..last], zs[..last]);
    }
  }

  /** Changing one entry changes the total by the difference. */
  lemma {:induction false} TotalUpdate(xs: seq<int>, k: nat, v: int)
    requires k < |xs|
    ensures Total(xs[k := v]) == Total(xs) - xs[k] + v
  {
    var last := |xs| - 1;
    if k == last {
      assert xs[k := v][..last] == xs[..last];
    } else {
      assert xs[k := v][..last] == xs[..last][k := v];
      TotalUpdate(xs[..last], k, v);
    }
  }

  lemma {:induction false} TotalZero(xs: seq<int>)
    requires forall i :: 0 <= i < |xs| ==> xs[i] == 0
    ensures Total(xs) == 0
  {
    if xs != [] {
      TotalZero(xs[..|xs| - 1]);
    }
  }

  /** A column with a single entry that may differ from zero totals to that entry. */
  lemma TotalSingle(xs: seq<int>, k: nat)
    requires k < |xs|
    requires forall i :: 0 <= i < |xs| && i != k ==> xs[i] == 0
    ensures Total(xs) == xs[k]
  {
    TotalUpdate(xs, k, 0);
    TotalZero(xs[k := 0]);
  }

  lemma {:induction false} TotalNonNegative(xs: seq<int>)
    requires forall i :: 0 <= i < |xs| ==> xs[i] >= 0
    ensures Total(xs) >= 0
  {
    if xs != [] {
      TotalNonNegative(xs[..|xs| - 1]);
    }
  }

  /** Entries of zero at the end do not count. */
  lemma TotalPadded(xs: seq<int>, ys: seq<int>)
    requires |xs| <= |ys|
    requires forall i :: 0 <= i < |xs| ==> ys[i] == xs[i]
    requires forall i :: |xs| <= i < |ys| ==> ys[i] == 0
    ensures Total(ys) == Total(xs)
  {
    assert ys == xs + ys[|xs|..];
    TotalConcat(xs, ys[|xs|..]);
    TotalZero(ys[|xs|..]);
  }

  /** A column that holds the entries of another one at distinct places, and zeros elsewhere, has its total. */
  lemma {:induction false} TotalScattered(xs: seq<int>, places: seq<nat>, ys: seq<int>)
    requires |places| == |ys|
    requires forall k :: 0 <= k < |places| ==> places[k] < |xs| && xs[places[k]] == ys[k]
    requires forall j, k :: 0 <= j < k < |places| ==> places[j] != places[k]
    requires forall i :: 0 <= i < |xs| && i !in places ==> xs[i] == 0
    ensures Total(xs) == Total(ys)
    decreases |places|
  {
    if places == [] {
      TotalZero(xs);
    } else {
      var last := |places| - 1;
      var rest := xs[places[last] := 0];
      forall i | 0 <= i < |rest| && i !in places[..last]
        ensures rest[i] == 0
      {
        assert places == places[..last] + [places[last]];
      }
      TotalScattered(rest, places[..last], ys[..last]);
      TotalUpdate(xs, places[last], 0);
    }
  }
}
