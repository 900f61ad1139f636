/**
 * The two comparable-sales heuristics of `PropertyValuator`: a threshold on the number of
 * comparables, then the median of their prices (column 6), exactly as reals.
 */
module Valuation {
  import opened Records
  import opened Store

  // ---------------------------------------------------------------- median

  predicate Sorted(s: seq<int>) {
    forall i, j :: 0 <= i < j < |s| ==> s[i] <= s[j]
  }

  /** `x` put into the sorted `s` before the first larger element. */
  function InsertSorted(x: int, s: seq<int>): (r: seq<int>)
    requires Sorted(s)
    ensures Sorted(r) && multiset(r) == multiset(s) + multiset{x}
    ensures |r| == |s| + 1 && (r[0] == x || (s != [] && r[0] == s[0]))
  {
    if s == [] || x <= s[0] then
      ConsSorted(x, s);
      [x] + s
    else
      var rest := InsertSorted(x, s[1..]);
      ConsSorted(s[0], rest);
      SplitHead(s);
      [s[0]] + rest
  }

  /** A value no larger than the head of a sorted sequence can go in front of it. */
  lemma ConsSorted(a: int, t: seq<int>)
    requires Sorted(t) && (t == [] || a <= t[0])
    ensures Sorted([a] + t)
  {
    var r := [a] + t;
    forall i, j | 0 <= i < j < |r|
      ensures r[i] <= r[j]
    {
      assert r[j] == t[j - 1];
      if i > 0 {
        assert r[i] == t[i - 1];
      }
    }
  }

  /** A non-empty sequence is its head followed by its tail, also as multisets. */
  lemma SplitHead(s: seq<int>)
    requires s != []
    ensures multiset(s) == multiset{s[0]} + multiset(s[1..])
  {
    assert s == [s[0]] + s[1..];
  }

  /** The values in ascending order. */
  function SortValues(s: seq<int>): (r: seq<int>)
    ensures Sorted(r) && multiset(r) == multiset(s)
  {
    if s == [] then []
    else
      SplitHead(s);
      InsertSorted(s[0], SortValues(s[1..]))
  }

  /** A sorted arrangement of a multiset is unique. */
  lemma {:induction false} SortedUnique(a: seq<int>, b: seq<int>)
    requires Sorted(a) && Sorted(b) && multiset(a) == multiset(b)
    ensures a == b
    decreases |a|
  {
    if a != [] {
      assert |b| == |multiset(b)| == |multiset(a)| == |a|;
      HeadIsLeast(a, b[0]);
      HeadIsLeast(b, a[0]);
      assert a[0] == b[0];
      SplitHead(a);
      SplitHead(b);
      assert multiset(a[1..]) == multiset(a) - multiset{a[0]};
      assert multiset(b[1..]) == multiset(b) - multiset{b[0]};
      SortedUnique(a[1..], b[1..]);
    }
  }

  /** The head of a sorted sequence is at most each of its values. */
  lemma HeadIsLeast(a: seq<int>, x: int)
    requires Sorted(a) && x in multiset(a)
    ensures a[0] <= x
  {
    var i :| 0 <= i < |a| && a[i] == x;
  }

  /** `np.median`: the middle sorted value, or the mean of the two middle ones for an even count. */
  function Median(s: seq<int>): (m: real)
    requires |s| > 0
  {
    MiddleOf(SortValues(s))
  }

  /** The middle value of `t`, or the mean of its two middle values for an even count. */
  function MiddleOf(t: seq<int>): real
    requires |t| > 0
  {
    var n := |t|;
    if n % 2 == 1 then t[n / 2] as real else (t[n / 2 - 1] + t[n / 2]) as real / 2.0
  }

  /**
   * The median splits the sorted values in two halves: the lower half lies at or below it,
   * the upper half at or above it.
   */
  lemma MedianSplitsSorted(s: seq<int>)
    requires |s| > 0
    ensures var t := SortValues(s);
      && (forall i :: 0 <= i < (|t| + 1) / 2 ==> t[i] as real <= Median(s))
      && (forall i :: |t| / 2 <= i < |t| ==> Median(s) <= t[i] as real)
  {
    MiddleSplitsSorted(SortValues(s));
  }

  /** The middle of sorted values splits them in two halves. */
  lemma MiddleSplitsSorted(t: seq<int>)
    requires |t| > 0 && Sorted(t)
    ensures forall i :: 0 <= i < (|t| + 1) / 2 ==> t[i] as real <= MiddleOf(t)
    ensures forall i :: |t| / 2 <= i < |t| ==> MiddleOf(t) <= t[i] as real
  {
    var n := |t|;
    var m := MiddleOf(t);
    var low, high := t[(n + 1) / 2 - 1], t[n / 2];
    MiddleBetweenMiddles(t);
    forall i | 0 <= i < (n + 1) / 2
      ensures t[i] as real <= m
    {
      assert t[i] <= low;
    }
    forall i | n / 2 <= i < n
      ensures m <= t[i] as real
    {
      assert high <= t[i];
    }
  }

  /** The middle of sorted values lies between the two middle ones (the same one for an odd count). */
  lemma MiddleBetweenMiddles(t: seq<int>)
    requires |t| > 0 && Sorted(t)
    ensures t[(|t| + 1) / 2 - 1] as real <= MiddleOf(t) <= t[|t| / 2] as real
  {
    var n := |t|;
    if n % 2 == 1 {
      assert (n + 1) / 2 - 1 == n / 2;
    } else {
      assert t[n / 2 - 1] <= t[n / 2];
    }
  }

  /** The median lies between the smallest and the largest value. */
  lemma MedianBounds(s: seq<int>)
    requires |s| > 0
    ensures exists i :: 0 <= i < |s| && s[i] as real <= Median(s)
    ensures exists j :: 0 <= j < |s| && Median(s) <= s[j] as real
  {
    var t := SortValues(s);
    MedianSplitsSorted(s);
    assert t[0] as real <= Median(s) && Median(s) <= t[|t| - 1] as real;
    assert t[0] in multiset(s) && t[|t| - 1] in multiset(s) by {
      assert t[0] in multiset(t) && t[|t| - 1] in multiset(t);
    }
  }

  /** The median does not depend on the order of the values. */
  lemma MedianOrderIndependent(a: seq<int>, b: seq<int>)
    requires |a| > 0 && multiset(a) == multiset(b)
    ensures |b| > 0 && Median(a) == Median(b)
  {
    assert |b| == |multiset(b)| == |multiset(a)| == |a|;
    SortedUnique(SortValues(a), SortValues(b));
  }

  // ---------------------------------------------------------------- valuators

  /** What the valuators ask the store for, in `query_k_nearest_properties`' terms. */
  datatype ComparablesRequest = ComparablesRequest(
    address: string, areaName: string, k: int, mode: int, propertyType: int,
    bedrooms: int, bathrooms: int, parking: int, rangePercentage: int)

  /** `prop[6]`: the value in the price column of a row tuple, which is the row's price. */
  function PriceOf(row: StoredRow): (price: int)
    ensures price == row.price
  {
    PriceIsColumnSix(row);
    Columns(row)[PriceColumn].i
  }

  /** `[prop[6] for prop in rows]`: the price of each row, in row order. */
  function Prices(rows: seq<StoredRow>): (prices: seq<int>)
    ensures |prices| == |rows|
  {
    if rows == [] then [] else [PriceOf(rows[0])] + Prices(rows[1..])
  }

  /** The capitalisation rate of the income approach, 5%. */
  const CapRate: real := 0.05

  /** `income_based_valuation`: ten nearest rentals, no price band, at least three of them. */
  function IncomeRequest(address: string, areaName: string, propertyType: int,
                         bedrooms: int, bathrooms: int, parking: int): (req: ComparablesRequest)
    ensures req.k == 10 && req.mode == 0 && req.rangePercentage == -1
    ensures req.address == address && req.areaName == areaName && req.propertyType == propertyType
    ensures req.bedrooms == bedrooms && req.bathrooms == bathrooms && req.parking == parking
  {
    ComparablesRequest(address, areaName, 10, 0, propertyType, bedrooms, bathrooms, parking, -1)
  }

  /** `comparison_based_valuation`: twenty nearest sales, no price band, at least five of them. */
  function ComparisonRequest(address: string, areaName: string, propertyType: int,
                             bedrooms: int, bathrooms: int, parking: int): (req: ComparablesRequest)
    ensures req.k == 20 && req.mode == 1 && req.rangePercentage == -1
    ensures req.address == address && req.areaName == areaName && req.propertyType == propertyType
    ensures req.bedrooms == bedrooms && req.bathrooms == bathrooms && req.parking == parking
  {
    ComparablesRequest(address, areaName, 20, 1, propertyType, bedrooms, bathrooms, parking, -1)
  }

  /**
   * `income_based_valuation` on the comparables the source returns: `None` for no result or
   * fewer than three rows, else the median weekly rent times 12 over the 5% rate.
   */
  function IncomeBasedValuation(source: ComparablesRequest -> Option<seq<StoredRow>>,
                                address: string, areaName: string, propertyType: int,
                                bedrooms: int, bathrooms: int, parking: int): (v: Option<real>)
    ensures var rows := source(IncomeRequest(address, areaName, propertyType, bedrooms, bathrooms, parking));
      && (v.Some? <==> rows.Some? && |rows.value| >= 3)
      && (v.Some? ==> v.value == 240.0 * Median(Prices(rows.value)))
  {
    var rentals := source(IncomeRequest(address, areaName, propertyType, bedrooms, bathrooms, parking));
    if rentals.None? || |rentals.value| < 3 then None
    else
      var medianRental := Median(Prices(rentals.value));
      Some((medianRental * 12.0) / CapRate)
  }

  /**
   * `comparison_based_valuation` on the comparables the source returns: `None` for no result
   * or fewer than five rows, else the median sale price.
   */
  function ComparisonBasedValuation(source: ComparablesRequest -> Option<seq<StoredRow>>,
                                    address: string, areaName: string, propertyType: int,
                                    bedrooms: int, bathrooms: int, parking: int): (v: Option<real>)
    ensures var rows := source(ComparisonRequest(address, areaName, propertyType, bedrooms, bathrooms, parking));
      && (v.Some? <==> rows.Some? && |rows.value| >= 5)
      && (v.Some? ==> v.value == Median(Prices(rows.value)))
      && (v.Some? ==> exists i :: 0 <= i < |rows.value| && rows.value[i].price as real <= v.value)
      && (v.Some? ==> exists j :: 0 <= j < |rows.value| && v.value <= rows.value[j].price as real)
  {
    var sold := source(ComparisonRequest(address, areaName, propertyType, bedrooms, bathrooms, parking));
    if sold.None? || |sold.value| < 5 then None
    else
      var prices := Prices(sold.value);
      MedianBounds(prices);
      PricesAreRowPrices(sold.value);
      Some(Median(prices))
  }

  /**
   * The order of the comparables does not change either valuation: two sources that return the
   * same rows, in any order, give the same values.
   */
  lemma ValuationsIgnoreRowOrder(source: ComparablesRequest -> Option<seq<StoredRow>>,
                                 other: ComparablesRequest -> Option<seq<StoredRow>>,
                                 address: string, areaName: string, propertyType: int,
                                 bedrooms: int, bathrooms: int, parking: int)
    requires forall req :: source(req).Some? <==> other(req).Some?
    requires forall req :: source(req).Some? && other(req).Some? ==>
      multiset(source(req).value) == multiset(other(req).value)
    ensures IncomeBasedValuation(source, address, areaName, propertyType, bedrooms, bathrooms, parking)
            == IncomeBasedValuation(other, address, areaName, propertyType, bedrooms, bathrooms, parking)
    ensures ComparisonBasedValuation(source, address, areaName, propertyType, bedrooms, bathrooms, parking)
            == ComparisonBasedValuation(other, address, areaName, propertyType, bedrooms, bathrooms, parking)
  {
    IncomeIgnoresRowOrder(source, other, address, areaName, propertyType, bedrooms, bathrooms, parking);
    ComparisonIgnoresRowOrder(source, other, address, areaName, propertyType, bedrooms, bathrooms, parking);
  }

  /** Sources that return the same rentals, in any order, give the same income valuation. */
  lemma IncomeIgnoresRowOrder(source: ComparablesRequest -> Option<seq<StoredRow>>,
                              other: ComparablesRequest -> Option<seq<StoredRow>>,
                              address: string, areaName: string, propertyType: int,
                              bedrooms: int, bathrooms: int, parking: int)
    requires var req := IncomeRequest(address, areaName, propertyType, bedrooms, bathrooms, parking);
      && (source(req).Some? <==> other(req).Some?)
      && (source(req).Some? && other(req).Some? ==> multiset(source(req).value) == multiset(other(req).value))
    ensures IncomeBasedValuation(source, address, areaName, propertyType, bedrooms, bathrooms, parking)
            == IncomeBasedValuation(other, address, areaName, propertyType, bedrooms, bathrooms, parking)
  {
    var req := IncomeRequest(address, areaName, propertyType, bedrooms, bathrooms, parking);
    SameMedianPrice(source, other, req);
    var v := IncomeBasedValuation(source, address, areaName, propertyType, bedrooms, bathrooms, parking);
    var w := IncomeBasedValuation(other, address, areaName, propertyType, bedrooms, bathrooms, parking);
    assert v.Some? <==> w.Some?;
    if v.Some? {
      assert v.value == 240.0 * Median(Prices(source(req).value)) == 240.0 * Median(Prices(other(req).value)) == w.value;
    }
  }

  /** Sources that return the same sales, in any order, give the same comparison valuation. */
  lemma ComparisonIgnoresRowOrder(source: ComparablesRequest -> Option<seq<StoredRow>>,
                                  other: ComparablesRequest -> Option<seq<StoredRow>>,
                                  address: string, areaName: string, propertyType: int,
                                  bedrooms: int, bathrooms: int, parking: int)
    requires var req := ComparisonRequest(address, areaName, propertyType, bedrooms, bathrooms, parking);
      && (source(req).Some? <==> other(req).Some?)
      && (source(req).Some? && other(req).Some? ==> multiset(source(req).value) == multiset(other(req).value))
    ensures ComparisonBasedValuation(source, address, areaName, propertyType, bedrooms, bathrooms, parking)
            == ComparisonBasedValuation(other, address, areaName, propertyType, bedrooms, bathrooms, parking)
  {
    var req := ComparisonRequest(address, areaName, propertyType, bedrooms, bathrooms, parking);
    SameMedianPrice(source, other, req);
    var v := ComparisonBasedValuation(source, address, areaName, propertyType, bedrooms, bathrooms, parking);
    var w := ComparisonBasedValuation(other, address, areaName, propertyType, bedrooms, bathrooms, parking);
    assert v.Some? <==> w.Some?;
    if v.Some? {
      assert v.value == Median(Prices(source(req).value)) == Median(Prices(other(req).value)) == w.value;
    }
  }

  /** Sources that return the same rows for a request, in any order, agree on their count and median price. */
  lemma SameMedianPrice(source: ComparablesRequest -> Option<seq<StoredRow>>,
                        other: ComparablesRequest -> Option<seq<StoredRow>>, req: ComparablesRequest)
    requires source(req).Some? <==> other(req).Some?
    requires source(req).Some? && other(req).Some? ==> multiset(source(req).value) == multiset(other(req).value)
    ensures source(req).Some? ==> |source(req).value| == |other(req).value|
    ensures source(req).Some? && |source(req).value| > 0 ==>
      Median(Prices(source(req).value)) == Median(Prices(other(req).value))
  {
    if source(req).Some? {
      var rows, reordered := source(req).value, other(req).value;
      assert |rows| == |multiset(rows)| == |multiset(reordered)| == |reordered|;
      if |rows| > 0 {
        PricesPermute(rows, reordered);
        MedianOrderIndependent(Prices(rows), Prices(reordered));
      }
    }
  }

  /** Reordering rows reorders their prices. */
  lemma {:induction false} PricesPermute(rows: seq<StoredRow>, reordered: seq<StoredRow>)
    requires multiset(rows) == multiset(reordered)
    ensures multiset(Prices(rows)) == multiset(Prices(reordered))
    decreases |rows|
  {
    if rows == [] {
      assert |reordered| == |multiset(reordered)| == 0;
    } else {
      var x := rows[0];
      assert x in multiset(reordered) by {
        assert x in multiset(rows);
      }
      var j :| 0 <= j < |reordered| && reordered[j] == x;
      var tail, before, after := rows[1..], reordered[..j], reordered[j + 1..];
      assert reordered == before + ([x] + after);
      assert rows == [x] + tail;
      assert multiset(tail) == multiset(rows) - multiset{x};
      assert multiset(before + after) == multiset(reordered) - multiset{x};
      PricesPermute(tail, before + after);
      PricesDropOne([], x, tail);
      PricesDropOne(before, x, after);
      assert [] + ([x] + tail) == rows && [] + tail == tail;
    }
  }

  /** Taking one row out of a sequence takes its price out of the prices. */
  lemma PricesDropOne(before: seq<StoredRow>, x: StoredRow, after: seq<StoredRow>)
    ensures multiset(Prices(before + ([x] + after))) == multiset(Prices(before + after)) + multiset{x.price}
  {
    PricesAppend(before, [x] + after);
    PricesAppend([x], after);
    PricesAppend(before, after);
    assert Prices([x]) == [x.price];
    var px, mb, ma := multiset{x.price}, multiset(Prices(before)), multiset(Prices(after));
    assert multiset(Prices(before + after)) == mb + ma;
    assert multiset(Prices(before + ([x] + after))) == mb + (px + ma);
  }

  /** Prices of a concatenation are the concatenation of prices. */
  lemma {:induction false} PricesAppend(a: seq<StoredRow>, b: seq<StoredRow>)
    ensures Prices(a + b) == Prices(a) + Prices(b)
    decreases |a|
  {
    if a == [] {
      assert a + b == b;
    } else {
      assert (a + b)[1..] == a[1..] + b;
      PricesAppend(a[1..], b);
    }
  }

  /** The price column of each row is that row's price. */
  lemma {:induction false} PricesAreRowPrices(rows: seq<StoredRow>)
    ensures forall i :: 0 <= i < |rows| ==> Prices(rows)[i] == rows[i].price
  {
    if rows != [] {
      PricesAreRowPrices(rows[1..]);
    }
  }
}
