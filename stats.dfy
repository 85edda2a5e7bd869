/**
 * `calculate_stats` of the backend: lowest, highest and mean price over the
 * offers whose price is positive, in US dollars; all zero when there is none.
 */
module PriceStatistics {
  import opened Catalog
  import opened Filtering

  const Currency := "USD"

  /** `[item.price for item in items if item.price > 0]`, in order. */
  function PositivePrices(items: seq<ProductItem>): (ps: seq<real>)
    ensures |ps| <= |items|
    ensures forall k :: 0 <= k < |ps| ==> ps[k] > 0.0
    ensures forall i :: 0 <= i < |items| && items[i].price > 0.0 ==> items[i].price in ps
  {
    if items == [] then []
    else
      var rest := PositivePrices(items[1..]);
      assert forall i :: 1 <= i < |items| ==> items[i] == items[1..][i - 1];
      if items[0].price > 0.0 then [items[0].price] + rest else rest
  }

  /** The test of the comprehension: the offer's price is positive. */
  predicate HasPositivePrice(item: ProductItem) { item.price > 0.0 }

  function PriceOf(item: ProductItem): real { item.price }

  /** `PositivePrices` is the generic filter-and-map with the comprehension's test and projection. */
  lemma {:induction false} PositivePricesIsFilterMap(items: seq<ProductItem>)
    ensures PositivePrices(items) == FilterMap(items, HasPositivePrice, PriceOf)
  {
    if items != [] {
      PositivePricesIsFilterMap(items[1..]);
      assert items == [items[0]] + items[1..];
      FilterMapCons(items[0], items[1..], HasPositivePrice, PriceOf);
    }
  }

  /**
   * One entry per offer with a positive price, in the offers' order: entry
   * `k` is the price of the `k`-th such offer. So a price shared by several
   * offers is listed once for each of them.
   */
  lemma PositivePricesOncePerOffer(items: seq<ProductItem>)
    ensures |PositivePrices(items)| == |Positions(items, HasPositivePrice)|
    ensures forall k :: 0 <= k < |PositivePrices(items)| ==>
              PositivePrices(items)[k] == items[Positions(items, HasPositivePrice)[k]].price
  {
    PositivePricesIsFilterMap(items);
    FilterMapAtPositions(items, HasPositivePrice, PriceOf);
  }

  /** Every positive price listed is the price of some offer. */
  lemma {:induction false} PositivePricesAreOfferPrices(items: seq<ProductItem>)
    ensures forall k :: 0 <= k < |PositivePrices(items)| ==>
              exists i :: 0 <= i < |items| && items[i].price == PositivePrices(items)[k]
  {
    if items != [] {
      PositivePricesAreOfferPrices(items[1..]);
      assert forall i :: 1 <= i < |items| ==> items[i] == items[1..][i - 1];
    }
  }

  /** Python's `min` over a non-empty list. */
  function MinOf(s: seq<real>): (m: real)
    requires |s| > 0
    ensures m in s
    ensures forall k :: 0 <= k < |s| ==> m <= s[k]
  {
    if |s| == 1 then s[0]
    else
      var t := MinOf(s[1..]);
      if s[0] <= t then s[0] else t
  }

  /** Python's `max` over a non-empty list. */
  function MaxOf(s: seq<real>): (m: real)
    requires |s| > 0
    ensures m in s
    ensures forall k :: 0 <= k < |s| ==> s[k] <= m
  {
    if |s| == 1 then s[0]
    else
      var t := MaxOf(s[1..]);
      if s[0] >= t then s[0] else t
  }

  function Sum(s: seq<real>): real
  {
    if s == [] then 0.0 else s[0] + Sum(s[1..])
  }

  /** `sum(prices) / len(prices)`, exactly. */
  function Mean(s: seq<real>): real
    requires |s| > 0
  {
    Sum(s) / |s| as real
  }

  /** `m` is the average of `s`: `m` taken `|s|` times adds up to the sum of `s`. */
  predicate IsMeanOf(m: real, s: seq<real>)
  {
    m * |s| as real == Sum(s)
  }

  /** `Mean` is the average: `sum / len` times `len` is the sum. */
  lemma MeanTimesCount(s: seq<real>)
    requires |s| > 0
    ensures IsMeanOf(Mean(s), s)
  {
  }

  /** What the statistics of a non-empty list of positive prices are made of. */
  lemma NonEmptyStats(items: seq<ProductItem>)
    requires PositivePrices(items) != []
    ensures exists i :: 0 <= i < |items| && 0.0 < items[i].price == MinOf(PositivePrices(items))
    ensures exists i :: 0 <= i < |items| && 0.0 < items[i].price == MaxOf(PositivePrices(items))
    ensures forall i :: 0 <= i < |items| && items[i].price > 0.0 ==>
              MinOf(PositivePrices(items)) <= items[i].price <= MaxOf(PositivePrices(items))
  {
    var ps := PositivePrices(items);
    PositivePricesAreOfferPrices(items);
    var lo, hi := MinOf(ps), MaxOf(ps);
    var k :| 0 <= k < |ps| && ps[k] == lo;
    var m :| 0 <= m < |ps| && ps[m] == hi;
    forall i | 0 <= i < |items| && items[i].price > 0.0
      ensures lo <= items[i].price <= hi
    {
      var j :| 0 <= j < |ps| && ps[j] == items[i].price;
    }
  }

  /** A non-empty list has only one average, so `IsMeanOf` pins the value down. */
  lemma MeanIsDetermined(m: real, s: seq<real>)
    requires |s| > 0 && IsMeanOf(m, s)
    ensures m == Mean(s)
  {
    var n := |s| as real;
    assert m * n == Sum(s);
    assert Sum(s) / n == m * n / n;
  }

  const ZeroStats := PriceStats(0.0, 0.0, 0.0, Currency)

  /** `calculate_stats(items)`. */
  function CalculateStats(items: seq<ProductItem>): (st: PriceStats)
    ensures st.currency == Currency
    ensures PositivePrices(items) == [] ==> st == ZeroStats
    ensures PositivePrices(items) != [] ==>
              (exists i :: 0 <= i < |items| && 0.0 < items[i].price == st.minPrice) &&
              (exists i :: 0 <= i < |items| && 0.0 < items[i].price == st.maxPrice) &&
              (forall i :: 0 <= i < |items| && items[i].price > 0.0 ==>
                 st.minPrice <= items[i].price <= st.maxPrice)
    ensures PositivePrices(items) != [] ==> IsMeanOf(st.avgPrice, PositivePrices(items))
  {
    if items == [] then ZeroStats
    else
      var prices := PositivePrices(items);
      if prices == [] then ZeroStats
      else
        NonEmptyStats(items);
        MeanTimesCount(prices);
        PriceStats(MinOf(prices), MaxOf(prices), Mean(prices), Currency)
  }

  lemma {:induction false} SumBounds(s: seq<real>, lo: real, hi: real)
    requires forall k :: 0 <= k < |s| ==> lo <= s[k] <= hi
    ensures |s| as real * lo <= Sum(s) <= |s| as real * hi
  {
    if s != [] {
      SumBounds(s[1..], lo, hi);
    }
  }

  /** The mean lies between any bounds of the values it averages. */
  lemma MeanWithinBounds(s: seq<real>, lo: real, hi: real)
    requires |s| > 0
    requires forall k :: 0 <= k < |s| ==> lo <= s[k] <= hi
    ensures lo <= Mean(s) <= hi
  {
    SumBounds(s, lo, hi);
    DivideBounds(lo, Sum(s), hi, |s| as real);
  }

  /** The mean lies between the lowest and the highest value it averages. */
  lemma MeanBetweenMinAndMax(s: seq<real>)
    requires |s| > 0
    ensures MinOf(s) <= Mean(s) <= MaxOf(s)
  {
    MeanWithinBounds(s, MinOf(s), MaxOf(s));
  }

  /** Dividing by a positive count keeps bounds: `n * lo <= x <= n * hi` gives `lo <= x / n <= hi`. */
  lemma DivideBounds(lo: real, x: real, hi: real, n: real)
    requires n > 0.0 && n * lo <= x <= n * hi
    ensures lo <= x / n <= hi
  {
    var m := x / n;
    assert x == n * m;
  }

  /** The statistics are ordered: min <= avg <= max, and all three are 0 or positive. */
  lemma StatsOrdered(items: seq<ProductItem>)
    ensures 0.0 <= CalculateStats(items).minPrice
    ensures CalculateStats(items).minPrice <= CalculateStats(items).avgPrice <= CalculateStats(items).maxPrice
  {
    var prices := PositivePrices(items);
    if items != [] && prices != [] {
      MeanBetweenMinAndMax(prices);
    }
  }

  /** The list of positive prices of an all-positive list is its list of prices. */
  lemma {:induction false} PositivePricesOfPositive(items: seq<ProductItem>)
    requires forall i :: 0 <= i < |items| ==> items[i].price > 0.0
    ensures |PositivePrices(items)| == |items|
    ensures forall i :: 0 <= i < |items| ==> PositivePrices(items)[i] == items[i].price
  {
    if items != [] {
      PositivePricesOfPositive(items[1..]);
    }
  }

  /** On an ascending list the minimum is the first value and the maximum the last. */
  lemma ExtremesOfAscending(s: seq<real>)
    requires |s| > 0
    requires forall i, j :: 0 <= i < j < |s| ==> s[i] <= s[j]
    ensures MinOf(s) == s[0] && MaxOf(s) == s[|s| - 1]
  {
    var lo, hi := MinOf(s), MaxOf(s);
    var i :| 0 <= i < |s| && s[i] == lo;
    var j :| 0 <= j < |s| && s[j] == hi;
    assert s[0] <= s[i];
    assert s[j] <= s[|s| - 1];
  }

  /**
   * On offers sorted ascending with positive prices, as the search returns
   * them, the lowest price is the first offer's and the highest the last's.
   */
  lemma StatsOfSortedOffers(items: seq<ProductItem>)
    requires SortedByPrice(items) && |items| > 0
    requires forall i :: 0 <= i < |items| ==> items[i].price > 0.0
    ensures CalculateStats(items).minPrice == items[0].price
    ensures CalculateStats(items).maxPrice == items[|items| - 1].price
  {
    PositivePricesOfPositive(items);
    var prices := PositivePrices(items);
    ExtremesOfAscending(prices);
  }

  /** A price shared by two offers is counted twice: prices 1, 1 and 4 average to 2, not 2.5. */
  lemma RepeatedPricesWeighTheAverage(items: seq<ProductItem>)
    requires |items| == 3
    requires items[0].price == 1.0 && items[1].price == 1.0 && items[2].price == 4.0
    ensures CalculateStats(items).avgPrice == 2.0
  {
    PositivePricesOfPositive(items);
    var ps := PositivePrices(items);
    assert ps == [1.0, 1.0, 4.0];
    assert ps[1..][1..] == [4.0];
    assert Sum([4.0]) == 4.0;
    assert Sum(ps) == 6.0;
  }
}
