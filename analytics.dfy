/**
 * The read-only reports of `run_analytics` that compute something: the
 * per-product totals ("Top Products") and the overall KPI row.
 */
module Analytics {
  import opened Wrappers
  import opened Text
  import opened Orders
  import opened Grouping
  import Gold

  /** The grouping key of the product report. */
  function ProductOf(r: CleanOrder): string {
    r.product
  }

  /** `GROUP BY product` with `SUM(qty)` and `SUM(revenue)`, before ordering. */
  function ProductGroups(clean: seq<CleanOrder>): seq<Group<string>> {
    GroupBy(clean, ProductOf, StrLess)
  }

  lemma StrLessIsStrictTotalOrder()
    ensures StrictTotalOrder(StrLess)
  {
    forall a: string, b: string, c: string | StrLess(a, b) && StrLess(b, c) ensures StrLess(a, c) {
      StrLessTransitive(a, b, c);
    }
    forall a: string, b: string ensures a == b || StrLess(a, b) || StrLess(b, a) {
      StrLessTotal(a, b);
    }
  }

  predicate DescendingRevenue<K>(gs: seq<Group<K>>) {
    forall i, j :: 0 <= i < j < |gs| ==> gs[i].revenue >= gs[j].revenue
  }

  predicate DistinctKeys<K(==)>(gs: seq<Group<K>>) {
    forall i, j :: 0 <= i < j < |gs| ==> gs[i].key != gs[j].key
  }

  /** Puts `g` into revenue-descending `gs`, after the groups with at least its revenue. */
  function InsertByRevenue<K>(g: Group<K>, gs: seq<Group<K>>): (r: seq<Group<K>>)
    ensures |r| == |gs| + 1
  {
    if gs == [] || g.revenue > gs[0].revenue then [g] + gs
    else [gs[0]] + InsertByRevenue(g, gs[1..])
  }

  /** `ORDER BY revenue DESC` as an insertion sort; it keeps the number of rows. */
  function ByRevenueDesc<K>(gs: seq<Group<K>>): (r: seq<Group<K>>)
    ensures |r| == |gs|
  {
    if gs == [] then [] else InsertByRevenue(gs[0], ByRevenueDesc(gs[1..]))
  }

  lemma {:induction false} InsertByRevenuePermutes<K>(g: Group<K>, gs: seq<Group<K>>)
    ensures multiset(InsertByRevenue(g, gs)) == multiset(gs) + multiset{g}
  {
    if gs != [] && g.revenue <= gs[0].revenue {
      InsertByRevenuePermutes(g, gs[1..]);
      assert gs == [gs[0]] + gs[1..];
    }
  }

  lemma {:induction false} InsertByRevenueSorted<K>(g: Group<K>, gs: seq<Group<K>>)
    requires DescendingRevenue(gs)
    ensures DescendingRevenue(InsertByRevenue(g, gs))
  {
    if gs != [] && g.revenue <= gs[0].revenue {
      var rest := InsertByRevenue(g, gs[1..]);
      assert InsertByRevenue(g, gs) == [gs[0]] + rest;
      InsertByRevenueSorted(g, gs[1..]);
      InsertByRevenuePermutes(g, gs[1..]);
      forall i | 0 <= i < |rest| ensures gs[0].revenue >= rest[i].revenue {
        assert rest[i] in multiset(rest);
      }
    }
  }

  lemma {:induction false} InsertByRevenueDistinct<K>(g: Group<K>, gs: seq<Group<K>>)
    requires DistinctKeys(gs) && forall x :: x in gs ==> x.key != g.key
    ensures DistinctKeys(InsertByRevenue(g, gs))
  {
    if gs != [] && g.revenue <= gs[0].revenue {
      var rest := InsertByRevenue(g, gs[1..]);
      InsertByRevenueDistinct(g, gs[1..]);
      InsertByRevenuePermutes(g, gs[1..]);
      forall x | x in rest ensures x.key != gs[0].key {
        assert x in multiset(rest);
      }
    }
  }

  /** `ORDER BY revenue DESC` returns the same groups, each as often as before. */
  lemma {:induction false} ByRevenueDescPermutes<K>(gs: seq<Group<K>>)
    ensures multiset(ByRevenueDesc(gs)) == multiset(gs)
  {
    if gs != [] {
      ByRevenueDescPermutes(gs[1..]);
      assert gs == [gs[0]] + gs[1..];
      InsertByRevenuePermutes(gs[0], ByRevenueDesc(gs[1..]));
    }
  }

  /** `ORDER BY revenue DESC` lists the groups by non-increasing revenue. */
  lemma {:induction false} ByRevenueDescSorted<K>(gs: seq<Group<K>>)
    ensures DescendingRevenue(ByRevenueDesc(gs))
  {
    if gs != [] {
      ByRevenueDescSorted(gs[1..]);
      InsertByRevenueSorted(gs[0], ByRevenueDesc(gs[1..]));
    }
  }

  /** Groups with distinct keys stay distinct when reordered by revenue. */
  lemma {:induction false} ByRevenueDescDistinct<K>(gs: seq<Group<K>>)
    requires DistinctKeys(gs)
    ensures DistinctKeys(ByRevenueDesc(gs))
  {
    if gs != [] {
      var rest := ByRevenueDesc(gs[1..]);
      ByRevenueDescDistinct(gs[1..]);
      ByRevenueDescPermutes(gs[1..]);
      forall x | x in rest ensures x.key != gs[0].key {
        assert x in multiset(gs[1..]);
      }
      InsertByRevenueDistinct(gs[0], rest);
    }
  }

  /**
   * The "Top Products" report: the product groups by non-increasing revenue;
   * no more rows than silver rows, and at least one when there is a silver row.
   */
  function TopProducts(clean: seq<CleanOrder>): (r: seq<Group<string>>)
    ensures |r| <= |clean|
    ensures clean != [] ==> r != []
  {
    ByRevenueDesc(ProductGroups(clean))
  }

  /**
   * The report lists each product occurring in the silver rows exactly once,
   * with the quantity sum and revenue sum of that product's rows, by
   * non-increasing revenue.
   */
  lemma TopProductsCorrect(clean: seq<CleanOrder>)
    ensures var r := TopProducts(clean);
      && DescendingRevenue(r)
      && DistinctKeys(r)
      && Keys(r) == RowKeys(clean, ProductOf)
      && forall i :: 0 <= i < |r| ==>
           var m := Matching(clean, ProductOf, r[i].key);
           r[i].units == SumQty(m) && r[i].revenue == SumRevenue(m) && m != []
  {
    var gs := ProductGroups(clean);
    var r := TopProducts(clean);
    StrLessIsStrictTotalOrder();
    GroupByCorrect(clean, ProductOf, StrLess);
    assert DistinctKeys(gs);
    ByRevenueDescPermutes(gs);
    ByRevenueDescSorted(gs);
    ByRevenueDescDistinct(gs);
    forall x ensures x in r <==> x in gs {
      assert x in r <==> x in multiset(r);
      assert x in gs <==> x in multiset(gs);
    }
    forall i | 0 <= i < |r|
      ensures var m := Matching(clean, ProductOf, r[i].key);
        r[i].units == SumQty(m) && r[i].revenue == SumRevenue(m) && m != []
    {
      assert r[i] in gs;
    }
    forall k | k in Keys(r) ensures k in Keys(gs) {
      var i :| 0 <= i < |r| && r[i].key == k;
      assert r[i] in gs;
    }
    forall k | k in Keys(gs) ensures k in Keys(r) {
      var i :| 0 <= i < |gs| && gs[i].key == k;
      assert gs[i] in r;
    }
  }

  /**
   * The KPI row: `SUM(revenue)` and `COUNT(*)` over the silver rows. The query
   * has no GROUP BY, so there is always one row; `SUM` over no rows is NULL.
   */
  datatype Kpi = Kpi(totalRevenue: Option<int>, cleanOrders: nat)

  /**
   * The KPI row agrees with the other tables: its revenue is NULL exactly when
   * there are no silver rows, and otherwise the total of the gold rows' revenue
   * and of the product rows' revenue; its order count is the total of the gold
   * rows' order counts.
   */
  function KpiOf(clean: seq<CleanOrder>): (k: Kpi)
    ensures k.totalRevenue.None? <==> clean == []
    ensures k.totalRevenue.Some? ==> k.totalRevenue.value == TotalRevenue(Gold.SilverToGold(clean))
    ensures k.totalRevenue.Some? ==> k.totalRevenue.value == TotalRevenue(ProductGroups(clean))
    ensures k.cleanOrders == TotalCount(Gold.SilverToGold(clean))
  {
    GroupByTotals(clean, ProductOf, StrLess);
    Kpi(if clean == [] then None else Some(SumRevenue(clean)), |clean|)
  }
}
