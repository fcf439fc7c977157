/**
 * The records that flow through the pipeline. Raw records are the typed rows
 * of the bronze CSV; clean records are the rows of the silver table. Money is
 * an integer amount (the floating-point DOUBLE of the queries is not modelled).
 */
module Orders {
  import opened Wrappers

  /** A calendar date, the result of `CAST(date_trunc('day', ts) AS DATE)`. */
  datatype Date = Date(year: int, month: int, day: int)

  /** An already parsed timestamp: its calendar date and the time within that day. */
  datatype Timestamp = Timestamp(date: Date, secondOfDay: nat)

  /** A bronze row: the country may be NULL or blank, the price may be NULL, qty may be <= 0. */
  datatype RawOrder = RawOrder(
    orderId: int,
    ts: Timestamp,
    country: Option<string>,
    product: string,
    qty: int,
    unitPrice: Option<int>)

  /**
   * A silver row, with the columns of `orders_clean`. `country` is the output
   * of `NULLIF(TRIM(country), '')` and so keeps its nullable type.
   */
  datatype CleanOrder = CleanOrder(
    orderId: int,
    ts: Timestamp,
    country: Option<string>,
    product: string,
    qty: int,
    unitPrice: int,
    revenue: int)

  /**
   * `SUM(qty)` over a non-empty list of rows. Over no rows SQL's `SUM` is NULL
   * while this gives 0, the neutral value the totals below need; every group
   * the queries sum over is non-empty.
   */
  function SumQty(rows: seq<CleanOrder>): int {
    if rows == [] then 0 else rows[0].qty + SumQty(rows[1..])
  }

  /** `SUM(revenue)` over a non-empty list of rows; 0 for no rows, as for `SumQty`. */
  function SumRevenue(rows: seq<CleanOrder>): int {
    if rows == [] then 0 else rows[0].revenue + SumRevenue(rows[1..])
  }

  lemma {:induction false} SumsOfConcat(a: seq<CleanOrder>, b: seq<CleanOrder>)
    ensures SumQty(a + b) == SumQty(a) + SumQty(b)
    ensures SumRevenue(a + b) == SumRevenue(a) + SumRevenue(b)
  {
    if a == [] {
      assert a + b == b;
    } else {
      assert (a + b)[1..] == a[1..] + b;
      SumsOfConcat(a[1..], b);
    }
  }
}
