/**
 * The report of deals/views.py (`ReportView`): narrow the stored deals by
 * the report criteria, then summarise profit and products sold.
 */
module Report {
  import opened Options
  import opened Deals

  // ---------------------------------------------------------------------
  // Subsequences
  // ---------------------------------------------------------------------

  /** `r` is `s` with some elements dropped and the rest left in order. */
  predicate IsSubsequence<T(==)>(r: seq<T>, s: seq<T>)
    decreases |s|
  {
    r == [] || (s != [] && ((r[0] == s[0] && IsSubsequence(r[1..], s[1..])) || IsSubsequence(r, s[1..])))
  }

  lemma {:induction false} SubsequenceReflexive<T>(s: seq<T>)
    ensures IsSubsequence(s, s)
    decreases |s|
  {
    if s != [] {
      SubsequenceReflexive(s[1..]);
    }
  }

  lemma {:induction false} SubsequenceTransitive<T>(a: seq<T>, b: seq<T>, c: seq<T>)
    requires IsSubsequence(a, b) && IsSubsequence(b, c)
    ensures IsSubsequence(a, c)
    decreases |c|
  {
    if a != [] {
      if IsSubsequence(b, c[1..]) {
        SubsequenceTransitive(a, b, c[1..]);
      } else if a[0] == b[0] && IsSubsequence(a[1..], b[1..]) {
        SubsequenceTransitive(a[1..], b[1..], c[1..]);
      } else {
        SubsequenceTransitive(a, b[1..], c[1..]);
      }
    }
  }

  /** A subsequence as long as its sequence is that sequence. */
  lemma {:induction false} SubsequenceOfSameLength<T>(r: seq<T>, s: seq<T>)
    requires IsSubsequence(r, s)
    ensures |r| <= |s|
    ensures |r| == |s| ==> r == s
    decreases |s|
  {
    if r != [] {
      if r[0] == s[0] && IsSubsequence(r[1..], s[1..]) {
        SubsequenceOfSameLength(r[1..], s[1..]);
        if |r| == |s| {
          assert r == [r[0]] + r[1..];
          assert s == [s[0]] + s[1..];
        }
      } else {
        SubsequenceOfSameLength(r, s[1..]);
      }
    }
  }

  // ---------------------------------------------------------------------
  // Filter stage
  // ---------------------------------------------------------------------

  /**
   * The report form's cleaned data: optional inclusive date bounds and the
   * chosen managers; an empty list of managers means "every manager".
   */
  datatype Criteria = Criteria(startDate: Option<Day>, endDate: Option<Day>, managers: seq<string>)

  predicate NoCriteria(c: Criteria)
  {
    c.startDate.None? && c.endDate.None? && c.managers == []
  }

  /** A deal meets every bound the criteria give. */
  predicate Matches(c: Criteria, d: Deal)
  {
    && (c.startDate.Some? ==> d.dealDate >= c.startDate.value)
    && (c.endDate.Some? ==> d.dealDate <= c.endDate.value)
    && (c.managers != [] ==> d.manager in c.managers)
  }

  /** The three query lookups: `deal_date__gte`, `deal_date__lte`, `manager__in`. */
  datatype Lookup = DateFrom(day: Day) | DateUntil(day: Day) | ManagerIn(names: seq<string>)

  predicate Holds(l: Lookup, d: Deal)
  {
    match l
    case DateFrom(day) => d.dealDate >= day
    case DateUntil(day) => d.dealDate <= day
    case ManagerIn(names) => d.manager in names
  }

  /**
   * A queryset `filter`: keeps, in order, the deals the lookup holds for,
   * each as often as it occurs.
   */
  function Filter(s: seq<Deal>, l: Lookup): (r: seq<Deal>)
    ensures IsSubsequence(r, s)
    ensures forall d :: multiset(r)[d] == if Holds(l, d) then multiset(s)[d] else 0
  {
    if s == [] then []
    else
      var rest := Filter(s[1..], l);
      assert s == [s[0]] + s[1..];
      if Holds(l, s[0]) then [s[0]] + rest
      else
        assert rest != [] ==> rest[0] in multiset(rest);
        rest
  }

  /**
   * `r` is what filtering `s` by `c` must give: a subsequence of `s` that
   * keeps every occurrence of each matching deal and no other deal.
   */
  ghost predicate Selects(r: seq<Deal>, s: seq<Deal>, c: Criteria)
  {
    IsSubsequence(r, s) && forall d :: multiset(r)[d] == if Matches(c, d) then multiset(s)[d] else 0
  }

  /** Filtering by one more lookup narrows the criteria by that lookup. */
  lemma NarrowBy(r: seq<Deal>, s: seq<Deal>, c: Criteria, c': Criteria, l: Lookup)
    requires Selects(r, s, c)
    requires forall d :: Matches(c', d) <==> Matches(c, d) && Holds(l, d)
    ensures Selects(Filter(r, l), s, c')
  {
    SubsequenceTransitive(Filter(r, l), r, s);
  }

  /** What a correctly filtered report says about membership and about the trivial filters. */
  lemma SelectsConsequences(r: seq<Deal>, s: seq<Deal>, c: Criteria)
    requires Selects(r, s, c)
    ensures forall d :: d in r <==> d in s && Matches(c, d)
    ensures (forall d :: d in s ==> Matches(c, d)) ==> r == s
  {
    assert forall d :: d in r <==> multiset(r)[d] > 0;
    assert forall d :: d in s <==> multiset(s)[d] > 0;
    if forall d :: d in s ==> Matches(c, d) {
      assert multiset(r) == multiset(s);
      SubsequenceOfSameLength(r, s);
    }
  }

  /**
   * `get_filtered_deals`: start from every stored deal and narrow by each
   * bound that was given, in turn.
   */
  method GetFilteredDeals(all: seq<Deal>, c: Criteria) returns (deals: seq<Deal>)
    ensures IsSubsequence(deals, all)
    ensures forall d :: multiset(deals)[d] == if Matches(c, d) then multiset(all)[d] else 0
    ensures forall d :: d in deals <==> d in all && Matches(c, d)
    ensures (forall d :: d in all ==> Matches(c, d)) ==> deals == all
    ensures NoCriteria(c) ==> deals == all
    ensures c.managers != [] && (forall d :: d in all ==> d.manager !in c.managers) ==> deals == []
  {
    var byStart := Criteria(c.startDate, None, []);
    var byDates := Criteria(c.startDate, c.endDate, []);
    deals := all;
    SubsequenceReflexive(all);
    assert Selects(deals, all, Criteria(None, None, []));
    if c.startDate.Some? {
      NarrowBy(deals, all, Criteria(None, None, []), byStart, DateFrom(c.startDate.value));
      deals := Filter(deals, DateFrom(c.startDate.value));
    }
    assert Selects(deals, all, byStart);
    if c.endDate.Some? {
      NarrowBy(deals, all, byStart, byDates, DateUntil(c.endDate.value));
      deals := Filter(deals, DateUntil(c.endDate.value));
    }
    assert Selects(deals, all, byDates);
    if c.managers != [] {
      NarrowBy(deals, all, byDates, c, ManagerIn(c.managers));
      deals := Filter(deals, ManagerIn(c.managers));
    }
    assert Selects(deals, all, c);
    SelectsConsequences(deals, all, c);
  }

  // ---------------------------------------------------------------------
  // Profit summary
  // ---------------------------------------------------------------------

  /**
   * `Sum(column)` over a set of deals. SQL gives NULL for no rows; the model
   * gives 0 there, which is the value the view's `or 0` makes of the NULL total.
   */
  function ColumnSum(s: seq<Deal>, c: Component): real
  {
    if s == [] then 0.0 else ColumnSum(s[..|s| - 1], c) + Amount(s[|s| - 1], c)
  }

  /** The sum over the deals of each deal's `total_profit`. */
  function TotalProfitSum(s: seq<Deal>): real
  {
    if s == [] then 0.0 else TotalProfitSum(s[..|s| - 1]) + TotalProfit(s[|s| - 1])
  }

  /** Adding up the six column sums gives the sum of the deals' totals. */
  lemma {:induction false} ColumnSumsAddUpToTotalProfit(s: seq<Deal>)
    ensures ColumnSum(s, Reserve) + ColumnSum(s, Vsc) + ColumnSum(s, Gap)
          + ColumnSum(s, Tw) + ColumnSum(s, Tricare) + ColumnSum(s, Key) == TotalProfitSum(s)
  {
    if s != [] {
      ColumnSumsAddUpToTotalProfit(s[..|s| - 1]);
    }
  }

  /** The guarded division of the report: 0 when there is nothing to divide by. */
  function Average(total: real, count: nat): (avg: real)
    ensures count > 0 ==> avg * (count as real) == total
    ensures count == 0 ==> avg == 0.0
  {
    if count > 0 then total / (count as real) else 0.0
  }

  datatype ProfitSummary = ProfitSummary(totalProfit: real, totalDeals: nat, avgProfitPerCar: real)

  /** An average of a total between 0 and `bound` per item lies between 0 and `bound`. */
  lemma AverageWithin(total: real, count: nat, bound: real)
    requires 0.0 <= total <= bound * (count as real)
    requires 0.0 <= bound
    ensures 0.0 <= Average(total, count) <= bound
  {
  }

  /** `get_profit_summary`: total profit, deal count and profit per car. */
  function GetProfitSummary(deals: seq<Deal>): (r: ProfitSummary)
    ensures r.totalProfit == TotalProfitSum(deals)
    ensures r.totalDeals == |deals|
    ensures |deals| > 0 ==> r.avgProfitPerCar * (|deals| as real) == r.totalProfit
    ensures |deals| == 0 ==> r.totalProfit == 0.0 && r.avgProfitPerCar == 0.0
  {
    var total := ColumnSum(deals, Reserve) + ColumnSum(deals, Vsc) + ColumnSum(deals, Gap)
               + ColumnSum(deals, Tw) + ColumnSum(deals, Tricare) + ColumnSum(deals, Key);
    ColumnSumsAddUpToTotalProfit(deals);
    ProfitSummary(total, |deals|, Average(total, |deals|))
  }

  // ---------------------------------------------------------------------
  // Products summary
  // ---------------------------------------------------------------------

  /** A product counts as sold on a deal when its amount is positive. */
  predicate IsSold(d: Deal, c: Component)
  {
    Amount(d, c) > 0.0
  }

  /** The positions of the deals on which a product was sold. */
  ghost function SoldPositions(s: seq<Deal>, c: Component): set<nat>
  {
    set i: nat | i < |s| && IsSold(s[i], c)
  }

  /** `Count(Case(When(column__gt=0, then=1)))`: deals on which `c` was sold. */
  function CountSold(s: seq<Deal>, c: Component): (n: nat)
    ensures n <= |s|
  {
    if s == [] then 0
    else CountSold(s[..|s| - 1], c) + (if IsSold(s[|s| - 1], c) then 1 else 0)
  }

  /** The count is exactly the number of deals on which the product was sold. */
  lemma {:induction false} CountSoldCountsSoldDeals(s: seq<Deal>, c: Component)
    ensures CountSold(s, c) == |SoldPositions(s, c)|
  {
    if s != [] {
      var n := |s| - 1;
      var p := s[..n];
      CountSoldCountsSoldDeals(p, c);
      var before := SoldPositions(p, c);
      assert before == set i: nat | i < n && IsSold(s[i], c);
      if IsSold(s[n], c) {
        assert SoldPositions(s, c) == before + {n};
        assert n !in before;
      } else {
        assert SoldPositions(s, c) == before;
      }
    }
  }

  /** None of the deals has the product exactly when the count is 0. */
  lemma {:induction false} CountSoldZero(s: seq<Deal>, c: Component)
    ensures CountSold(s, c) == 0 <==> forall i :: 0 <= i < |s| ==> !IsSold(s[i], c)
  {
    if s != [] {
      var n := |s| - 1;
      CountSoldZero(s[..n], c);
      assert forall i :: 0 <= i < n ==> s[..n][i] == s[i];
    }
  }

  datatype ProductsSold = ProductsSold(vscSold: nat, gapSold: nat, twSold: nat, tricareSold: nat, keySold: nat)

  /** `sum(products_sold.values())`. */
  function TotalSold(p: ProductsSold): nat
  {
    p.vscSold + p.gapSold + p.twSold + p.tricareSold + p.keySold
  }

  /** How many of the five products were sold on one deal. */
  function ProductsOnDeal(d: Deal): nat
  {
    (if IsSold(d, Vsc) then 1 else 0) + (if IsSold(d, Gap) then 1 else 0) + (if IsSold(d, Tw) then 1 else 0)
    + (if IsSold(d, Tricare) then 1 else 0) + (if IsSold(d, Key) then 1 else 0)
  }

  /** The sum over the deals of the products sold on each. */
  function ProductsOnDeals(s: seq<Deal>): nat
  {
    if s == [] then 0 else ProductsOnDeals(s[..|s| - 1]) + ProductsOnDeal(s[|s| - 1])
  }

  datatype ProductsSummary = ProductsSummary(productsSold: ProductsSold, avgProductsSold: real)

  /** The per-product counts of a set of deals. */
  function CountProducts(s: seq<Deal>): ProductsSold
  {
    ProductsSold(CountSold(s, Vsc), CountSold(s, Gap), CountSold(s, Tw), CountSold(s, Tricare), CountSold(s, Key))
  }

  /** Summing the five counts is the same as summing each deal's number of products. */
  lemma {:induction false} CountsAddUpToProductsOnDeals(s: seq<Deal>)
    ensures TotalSold(CountProducts(s)) == ProductsOnDeals(s)
  {
    if s != [] {
      CountsAddUpToProductsOnDeals(s[..|s| - 1]);
    }
  }

  /** With no count above the number of deals, the average number of products lies in [0, 5]. */
  lemma AverageProductsWithin(sold: ProductsSold, count: nat)
    requires sold.vscSold <= count && sold.gapSold <= count && sold.twSold <= count
    requires sold.tricareSold <= count && sold.keySold <= count
    ensures 0.0 <= Average(TotalSold(sold) as real, count) <= 5.0
  {
    assert TotalSold(sold) <= 5 * count;
    assert (TotalSold(sold) as real) <= 5.0 * (count as real);
    AverageWithin(TotalSold(sold) as real, count, 5.0);
  }

  /**
   * `get_products_summary`: per-product sold counts and the average number
   * of products per deal, 0 when there are no deals.
   */
  function GetProductsSummary(deals: seq<Deal>): (r: ProductsSummary)
    ensures r.productsSold.vscSold == |SoldPositions(deals, Vsc)|
    ensures r.productsSold.gapSold == |SoldPositions(deals, Gap)|
    ensures r.productsSold.twSold == |SoldPositions(deals, Tw)|
    ensures r.productsSold.tricareSold == |SoldPositions(deals, Tricare)|
    ensures r.productsSold.keySold == |SoldPositions(deals, Key)|
    ensures TotalSold(r.productsSold) <= 5 * |deals|
    ensures TotalSold(r.productsSold) == ProductsOnDeals(deals)
    ensures r.avgProductsSold == Average(ProductsOnDeals(deals) as real, |deals|)
    ensures 0.0 <= r.avgProductsSold <= 5.0
  {
    var sold := CountProducts(deals);
    CountSoldCountsSoldDeals(deals, Vsc);
    CountSoldCountsSoldDeals(deals, Gap);
    CountSoldCountsSoldDeals(deals, Tw);
    CountSoldCountsSoldDeals(deals, Tricare);
    CountSoldCountsSoldDeals(deals, Key);
    CountsAddUpToProductsOnDeals(deals);
    AverageProductsWithin(sold, |deals|);
    ProductsSummary(sold, Average(TotalSold(sold) as real, |deals|))
  }

  // ---------------------------------------------------------------------
  // A worked example
  // ---------------------------------------------------------------------

  /** The example's first deal: reserve 100 and a 50 service contract, sold by Victor. */
  const VictorDeal: Deal := Deal(1, 0, "A100", "Doe", "Jane", true, 100.0, 50.0, 0.0, 0.0, 0.0, 0.0, "Victor")

  /** The example's second deal: reserve 200 only, sold by Kevin. */
  const KevinDeal: Deal := Deal(2, 0, "A200", "Roe", "John", true, 200.0, 0.0, 0.0, 0.0, 0.0, 0.0, "Kevin")

  lemma ProfitExample()
    ensures GetProfitSummary([VictorDeal, KevinDeal]) == ProfitSummary(350.0, 2, 175.0)
  {
    var s := [VictorDeal, KevinDeal];
    assert s[..1] == [VictorDeal];
    assert s[..1][..0] == [];
    var r := GetProfitSummary(s);
    assert TotalProfitSum([]) == 0.0;
    assert TotalProfitSum([VictorDeal]) == 150.0;
    assert TotalProfitSum(s) == TotalProfitSum(s[..1]) + TotalProfit(KevinDeal);
    assert r.avgProfitPerCar * 2.0 == 350.0;
  }

  lemma ProductsExample()
    ensures GetProductsSummary([VictorDeal, KevinDeal]) == ProductsSummary(ProductsSold(1, 0, 0, 0, 0), 0.5)
  {
    var s := [VictorDeal, KevinDeal];
    assert s[..1] == [VictorDeal];
    assert s[..1][..0] == [];
    assert CountSold([VictorDeal], Vsc) == 1;
    assert CountSold(s, Vsc) == CountSold(s[..1], Vsc);
    assert CountSold([VictorDeal], Gap) == 0;
    assert CountSold(s, Gap) == CountSold(s[..1], Gap);
    assert CountSold([VictorDeal], Tw) == 0;
    assert CountSold(s, Tw) == CountSold(s[..1], Tw);
    assert CountSold([VictorDeal], Tricare) == 0;
    assert CountSold(s, Tricare) == CountSold(s[..1], Tricare);
    assert CountSold([VictorDeal], Key) == 0;
    assert CountSold(s, Key) == CountSold(s[..1], Key);
  }

  /** Filtering the example by Victor keeps only his deal, whose profit is 150. */
  lemma ManagerFilterExample()
    ensures Filter([VictorDeal, KevinDeal], ManagerIn(["Victor"])) == [VictorDeal]
    ensures GetProfitSummary([VictorDeal]).totalProfit == 150.0
  {
    assert [VictorDeal, KevinDeal][1..] == [KevinDeal];
    assert [VictorDeal][..0] == [];
    assert TotalProfitSum([VictorDeal]) == TotalProfitSum([]) + TotalProfit(VictorDeal);
  }
}
