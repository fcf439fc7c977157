/**
 * `create_bronze_data`: the fixed seven raw orders, with their deliberately
 * invalid rows (blank country, negative quantity, missing price), and the
 * results the pipeline computes from them. Prices are whole amounts.
 */
module Bronze {
  import opened Wrappers
  import opened Orders
  import opened Grouping
  import Silver
  import Gold
  import Analytics
  import Text

  /** `YYYY-MM-DD hh:mm:ss`, already parsed. */
  function At(year: int, month: int, day: int, h: nat, m: nat, s: nat): Timestamp {
    Timestamp(Date(year, month, day), h * 3600 + m * 60 + s)
  }

  /** The seven raw orders, with ids 1 to 7 in file order. */
  function BronzeRows(): (rows: seq<RawOrder>)
    ensures |rows| == 7
    ensures forall i :: 0 <= i < |rows| ==> rows[i].orderId == i + 1
  {
    [ RawOrder(1, At(2026, 1, 1, 10, 3, 0), Some("TR"), "Keyboard", 1, Some(1200)),
      RawOrder(2, At(2026, 1, 1, 11, 10, 0), Some("TR"), "Mouse", 2, Some(350)),
      RawOrder(3, At(2026, 1, 1, 12, 45, 0), Some(""), "Monitor", 1, Some(4200)),
      RawOrder(4, At(2026, 1, 2, 9, 15, 0), Some("DE"), "Monitor", -1, Some(4200)),
      RawOrder(5, At(2026, 1, 2, 14, 22, 0), Some("TR"), "Laptop", 1, None),
      RawOrder(6, At(2026, 1, 3, 8, 1, 0), Some("US"), "Keyboard", 3, Some(1100)),
      RawOrder(7, At(2026, 1, 3, 17, 40, 0), Some("TR"), "Monitor", 1, Some(4000)) ]
  }

  /** The silver table of the fixed data: orders 1, 2, 6 and 7. */
  function ExpectedSilver(): seq<CleanOrder> {
    [ CleanOrder(1, At(2026, 1, 1, 10, 3, 0), Some("TR"), "Keyboard", 1, 1200, 1200),
      CleanOrder(2, At(2026, 1, 1, 11, 10, 0), Some("TR"), "Mouse", 2, 350, 700),
      CleanOrder(6, At(2026, 1, 3, 8, 1, 0), Some("US"), "Keyboard", 3, 1100, 3300),
      CleanOrder(7, At(2026, 1, 3, 17, 40, 0), Some("TR"), "Monitor", 1, 4000, 4000) ]
  }

  /** The fixed data keeps orders 1, 2, 6 and 7, cleaned, in their original order. */
  lemma DemoSilver()
    ensures Silver.BronzeToSilver(BronzeRows()) == ExpectedSilver()
  {
    var raws, clean := BronzeRows(), ExpectedSilver();
    assert Silver.CleanRow(raws[0]) == Some(clean[0]);
    assert Silver.CleanRow(raws[1]) == Some(clean[1]);
    assert Silver.CleanRow(raws[2]) == None;
    assert Silver.CleanRow(raws[3]) == None;
    assert Silver.CleanRow(raws[4]) == None;
    assert Silver.CleanRow(raws[5]) == Some(clean[2]);
    assert Silver.CleanRow(raws[6]) == Some(clean[3]);
    assert raws[..1][..0] == [];
    assert Silver.BronzeToSilver(raws[..1]) == clean[..1];
    assert raws[..2][..1] == raws[..1];
    assert Silver.BronzeToSilver(raws[..2]) == clean[..2];
    assert raws[..3][..2] == raws[..2];
    assert Silver.BronzeToSilver(raws[..3]) == clean[..2];
    assert raws[..4][..3] == raws[..3];
    assert Silver.BronzeToSilver(raws[..4]) == clean[..2];
    assert raws[..5][..4] == raws[..4];
    assert Silver.BronzeToSilver(raws[..5]) == clean[..2];
    assert raws[..6][..5] == raws[..5];
    assert Silver.BronzeToSilver(raws[..6]) == clean[..3];
    assert raws[..6] == raws[..|raws| - 1];
  }

  /**
   * The fixed data yields three (day, country) groups, ascending:
   * (2026-01-01, TR) with 2 orders, 3 units and 1900 revenue,
   * (2026-01-03, TR) with 1, 1 and 4000, and (2026-01-03, US) with 1, 3 and 3300.
   */
  lemma DemoGold()
    ensures Gold.Pipeline(BronzeRows()) ==
      [ Group(Gold.DayKey(Date(2026, 1, 1), Some("TR")), 2, 3, 1900),
        Group(Gold.DayKey(Date(2026, 1, 3), Some("TR")), 1, 1, 4000),
        Group(Gold.DayKey(Date(2026, 1, 3), Some("US")), 1, 3, 3300) ]
  {
    DemoSilver();
    GoldOfExpectedSilver();
  }

  lemma GoldOfExpectedSilver()
    ensures GroupBy(ExpectedSilver(), Gold.DayKeyOf, Gold.KeyLess) ==
      [ Group(Gold.DayKey(Date(2026, 1, 1), Some("TR")), 2, 3, 1900),
        Group(Gold.DayKey(Date(2026, 1, 3), Some("TR")), 1, 1, 4000),
        Group(Gold.DayKey(Date(2026, 1, 3), Some("US")), 1, 3, 3300) ]
  {
    var c := ExpectedSilver();
    var key, less := Gold.DayKeyOf, Gold.KeyLess;
    var tr1, tr3, us3 := key(c[0]), key(c[3]), key(c[2]);
    assert tr1 == Gold.DayKey(Date(2026, 1, 1), Some("TR")) && tr1 == key(c[1]);
    assert tr3 == Gold.DayKey(Date(2026, 1, 3), Some("TR"));
    assert us3 == Gold.DayKey(Date(2026, 1, 3), Some("US"));
    assert !less(us3, tr3) && less(tr1, tr3);
    var g3 := [Group(tr3, 1, 1, 4000)];
    assert GroupBy([c[3]], key, less) == g3;
    var g2 := g3 + [Group(us3, 1, 3, 3300)];
    assert Insert(g3, us3, c[2], less) == g2;
    assert [c[2], c[3]][1..] == [c[3]];
    assert GroupBy([c[2], c[3]], key, less) == g2;
    var g1 := [Group(tr1, 1, 2, 700)] + g2;
    assert Insert(g2, tr1, c[1], less) == g1;
    assert [c[1], c[2], c[3]][1..] == [c[2], c[3]];
    assert GroupBy([c[1], c[2], c[3]], key, less) == g1;
    assert Insert(g1, tr1, c[0], less) == [Group(tr1, 2, 3, 1900)] + g2;
    assert c[1..] == [c[1], c[2], c[3]];
  }

  /** Keyboard (4 units, 4500), Monitor (1 unit, 4000), Mouse (2 units, 700), in that order. */
  lemma DemoTopProducts()
    ensures Analytics.TopProducts(Silver.BronzeToSilver(BronzeRows())) ==
      [ Group("Keyboard", 2, 4, 4500),
        Group("Monitor", 1, 1, 4000),
        Group("Mouse", 1, 2, 700) ]
  {
    DemoSilver();
    ProductsOfExpectedSilver();
  }

  lemma ProductsOfExpectedSilver()
    ensures Analytics.TopProducts(ExpectedSilver()) ==
      [ Group("Keyboard", 2, 4, 4500),
        Group("Monitor", 1, 1, 4000),
        Group("Mouse", 1, 2, 700) ]
  {
    var c := ExpectedSilver();
    var key, less := Analytics.ProductOf, Text.StrLess;
    assert less("Keyboard", "Monitor");
    assert !less("Mouse", "Keyboard") && !less("Mouse", "Monitor");
    var g3 := [Group("Monitor", 1, 1, 4000)];
    assert GroupBy([c[3]], key, less) == g3;
    var g2 := [Group("Keyboard", 1, 3, 3300)] + g3;
    assert Insert(g3, "Keyboard", c[2], less) == g2;
    assert [c[2], c[3]][1..] == [c[3]];
    assert GroupBy([c[2], c[3]], key, less) == g2;
    var g1 := g2 + [Group("Mouse", 1, 2, 700)];
    assert Insert(g3, "Mouse", c[1], less) == g3 + [Group("Mouse", 1, 2, 700)];
    assert Insert(g2, "Mouse", c[1], less) == g1;
    assert [c[1], c[2], c[3]][1..] == [c[2], c[3]];
    assert GroupBy([c[1], c[2], c[3]], key, less) == g1;
    var groups := [Group("Keyboard", 2, 4, 4500), Group("Monitor", 1, 1, 4000), Group("Mouse", 1, 2, 700)];
    assert Insert(g1, "Keyboard", c[0], less) == groups;
    assert c[1..] == [c[1], c[2], c[3]];
    assert Analytics.ProductGroups(c) == groups;
    assert Analytics.ByRevenueDesc(groups[2..]) == groups[2..];
    assert groups[1..][1..] == groups[2..];
    assert Analytics.ByRevenueDesc(groups[1..]) == groups[1..];
  }

  /** The KPI row of the fixed data: 9200 revenue over 4 clean orders. */
  lemma DemoKpi()
    ensures Analytics.KpiOf(Silver.BronzeToSilver(BronzeRows())) == Analytics.Kpi(Some(9200), 4)
  {
    DemoSilver();
  }
}
