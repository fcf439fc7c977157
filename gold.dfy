/**
 * The aggregation stage, `silver_to_gold`: the silver rows grouped by
 * (day, country) with `COUNT(*)`, `SUM(qty)` and `SUM(revenue)`, ordered by
 * day and then by country.
 */
module Gold {
  import opened Wrappers
  import opened Text
  import opened Orders
  import opened Grouping
  import Silver

  /** `GROUP BY 1, 2`: the day of the timestamp and the country. */
  datatype DayKey = DayKey(day: Date, country: Option<string>)

  /** A gold row: the key gives `day` and `country`; count, units and revenue give
      `order_count`, `units_sold` and `total_revenue`. */
  type DailyRevenue = Group<DayKey>

  /** Calendar order: by year, then month, then day of month. */
  predicate DateLess(a: Date, b: Date) {
    a.year < b.year || (a.year == b.year && (a.month < b.month || (a.month == b.month && a.day < b.day)))
  }

  /** `ORDER BY country` in ascending order, NULL after every value (DuckDB's default). */
  predicate CountryLess(a: Option<string>, b: Option<string>) {
    match a
    case None => false
    case Some(x) => b.None? || StrLess(x, b.value)
  }

  /** `ORDER BY 1, 2`: by day, and by country within a day. */
  function KeyLess(a: DayKey, b: DayKey): (r: bool)
    ensures r ==> a != b
    ensures a.day != b.day ==> (r <==> DateLess(a.day, b.day))
    ensures a.day == b.day ==> (r <==> CountryLess(a.country, b.country))
  {
    DateLess(a.day, b.day) || (a.day == b.day && CountryLess(a.country, b.country))
  }

  lemma KeyLessIsStrictTotalOrder()
    ensures StrictTotalOrder(KeyLess)
  {
    forall a: DayKey, b: DayKey, c: DayKey | KeyLess(a, b) && KeyLess(b, c) ensures KeyLess(a, c) {
      if a.day == b.day == c.day && a.country.Some? && b.country.Some? && c.country.Some? {
        StrLessTransitive(a.country.value, b.country.value, c.country.value);
      }
    }
    forall a: DayKey, b: DayKey ensures a == b || KeyLess(a, b) || KeyLess(b, a) {
      if a.country.Some? && b.country.Some? {
        StrLessTotal(a.country.value, b.country.value);
      }
    }
  }

  /** The grouping key of a silver row. */
  function DayKeyOf(r: CleanOrder): DayKey {
    DayKey(r.ts.date, r.country)
  }

  /** Two silver rows share a gold row exactly when they have the same date and country, whatever their time of day. */
  lemma DayKeyOfIgnoresTime(x: CleanOrder, y: CleanOrder)
    ensures DayKeyOf(x) == DayKeyOf(y) <==> x.ts.date == y.ts.date && x.country == y.country
  {
  }

  /**
   * `silver_to_gold`. The rows are strictly ascending by (day, country), so no
   * pair occurs twice; the pairs are exactly those occurring in the silver rows;
   * each row holds the count, quantity sum and revenue sum of the silver rows
   * with its pair, and at least one such row; and the totals over the gold rows
   * are the totals over the silver rows.
   */
  function SilverToGold(clean: seq<CleanOrder>): (gold: seq<DailyRevenue>)
    ensures StrictlySorted(gold, KeyLess)
    ensures Keys(gold) == RowKeys(clean, DayKeyOf)
    ensures forall i :: 0 <= i < |gold| ==>
      var m := Matching(clean, DayKeyOf, gold[i].key);
      gold[i] == Group(gold[i].key, |m|, SumQty(m), SumRevenue(m)) && gold[i].count >= 1
    ensures TotalCount(gold) == |clean|
    ensures TotalUnits(gold) == SumQty(clean)
    ensures TotalRevenue(gold) == SumRevenue(clean)
  {
    KeyLessIsStrictTotalOrder();
    GroupByCorrect(clean, DayKeyOf, KeyLess);
    GroupByTotals(clean, DayKeyOf, KeyLess);
    GroupBy(clean, DayKeyOf, KeyLess)
  }

  /** Bronze to gold: the two stages run one after the other. */
  function Pipeline(raws: seq<RawOrder>): seq<DailyRevenue> {
    SilverToGold(Silver.BronzeToSilver(raws))
  }

  /**
   * On the silver table every gold row has a present, non-blank, trimmed
   * country, and sold at least as many units as it counts orders.
   */
  lemma PipelineRows(raws: seq<RawOrder>)
    ensures forall g :: g in Pipeline(raws) ==>
      && g.key.country.Some? && g.key.country.value != "" && IsTrimmed(g.key.country.value)
      && g.units >= g.count >= 1
  {
    var clean := Silver.BronzeToSilver(raws);
    var gold := Pipeline(raws);
    KeyLessIsStrictTotalOrder();
    UnitsAtLeastCount(clean, DayKeyOf, KeyLess);
    forall g | g in gold
      ensures g.key.country.Some? && g.key.country.value != "" && IsTrimmed(g.key.country.value)
    {
      var i :| 0 <= i < |gold| && gold[i] == g;
      assert g.key in Keys(gold);
      var r :| r in clean && DayKeyOf(r) == g.key;
    }
  }

  /** The gold table does not depend on the order in which the silver rows are read. */
  lemma GoldIgnoresRowOrder(a: seq<CleanOrder>, b: seq<CleanOrder>)
    requires multiset(a) == multiset(b)
    ensures SilverToGold(a) == SilverToGold(b)
  {
    KeyLessIsStrictTotalOrder();
    GroupByPermutation(a, b, DayKeyOf, KeyLess);
  }
}
