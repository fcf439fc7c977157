/**
 * The cleaning stage, `bronze_to_silver`: one SELECT ... WHERE over the raw
 * rows. The WHERE clause is evaluated under SQL's three-valued logic, and a
 * row is kept only when it evaluates to TRUE; kept rows are projected, never
 * repaired.
 */
module Silver {
  import opened Wrappers
  import opened Text
  import opened Orders

  /** A SQL truth value: UNKNOWN is what a comparison with NULL yields. */
  datatype Truth = True | False | Unknown

  function FromBool(b: bool): Truth {
    if b then True else False
  }

  /** SQL `AND`: FALSE wins over UNKNOWN, TRUE needs both sides TRUE. */
  function And(a: Truth, b: Truth): (r: Truth)
    ensures r == True <==> a == True && b == True
    ensures r == False <==> a == False || b == False
  {
    if a == False || b == False then False
    else if a == True && b == True then True
    else Unknown
  }

  /**
   * `TRIM(x)`, which is NULL exactly when `x` is; otherwise it has no space at
   * either end, and it is empty exactly when `x` is all spaces.
   */
  function TrimNullable(x: Option<string>): (r: Option<string>)
    ensures r.None? <==> x.None?
    ensures r.Some? ==> IsTrimmed(r.value) && |r.value| <= |x.value|
    ensures r.Some? ==> (r.value == [] <==> AllSpaces(x.value))
  {
    match x
    case None => None
    case Some(s) => TrimEmptyIffBlank(s); Some(Trim(s))
  }

  /** `NULLIF(x, '')`: NULL for NULL and for the empty string, `x` otherwise. */
  function NullIfEmpty(x: Option<string>): (r: Option<string>)
    ensures r.None? <==> x.None? || x.value == []
    ensures r.Some? ==> r == x
  {
    if x == Some("") then None else x
  }

  /** `x <> ''`, UNKNOWN when `x` is NULL. */
  function NotEmpty(x: Option<string>): Truth {
    match x
    case None => Unknown
    case Some(s) => FromBool(s != "")
  }

  /** The acceptance rule in plain two-valued terms, NULL country included. */
  predicate IsValid(raw: RawOrder) {
    && raw.qty > 0
    && raw.unitPrice.Some?
    && raw.country.Some?
    && !AllSpaces(raw.country.value)
  }

  /**
   * `qty > 0 AND unit_price IS NOT NULL AND TRIM(country) <> ''`. Under
   * three-valued logic it is TRUE exactly for valid rows, and UNKNOWN exactly
   * when the other tests pass and the country is NULL.
   */
  function Where(raw: RawOrder): (r: Truth)
    ensures r == True <==> IsValid(raw)
    ensures r == Unknown <==> raw.qty > 0 && raw.unitPrice.Some? && raw.country.None?
  {
    And(And(FromBool(raw.qty > 0), FromBool(raw.unitPrice.Some?)), NotEmpty(TrimNullable(raw.country)))
  }

  /** What every silver row satisfies. */
  predicate WellFormed(c: CleanOrder) {
    && c.qty > 0
    && c.country.Some?
    && c.country.value != ""
    && IsTrimmed(c.country.value)
    && IsTrimmed(c.product)
    && c.revenue == c.qty * c.unitPrice
  }

  /**
   * One raw row through the SELECT list and the WHERE clause: `None` when the
   * row is dropped. A kept row carries the raw id, timestamp, qty and price,
   * the trimmed country and product, and revenue = qty * unit_price.
   */
  function CleanRow(raw: RawOrder): (r: Option<CleanOrder>)
    ensures r.Some? <==> IsValid(raw)
    ensures r.Some? ==> && r.value.orderId == raw.orderId
                        && r.value.ts == raw.ts
                        && r.value.qty == raw.qty
                        && Some(r.value.unitPrice) == raw.unitPrice
                        && r.value.country == Some(Trim(raw.country.value))
                        && r.value.product == Trim(raw.product)
                        && r.value.revenue == raw.qty * raw.unitPrice.value
    ensures r.Some? ==> WellFormed(r.value)
  {
    if Where(raw) == True then
      Some(CleanOrder(
        raw.orderId,
        raw.ts,
        NullIfEmpty(TrimNullable(raw.country)),
        Trim(raw.product),
        raw.qty,
        raw.unitPrice.value,
        raw.qty * raw.unitPrice.value))
    else
      None
  }

  /** `bronze_to_silver`: the kept rows, projected, in their original order. */
  function BronzeToSilver(raws: seq<RawOrder>): (clean: seq<CleanOrder>)
    ensures |clean| <= |raws|
    ensures forall c :: c in clean ==> WellFormed(c)
  {
    if raws == [] then []
    else
      var prefix := BronzeToSilver(raws[..|raws| - 1]);
      match CleanRow(raws[|raws| - 1])
      case Some(c) => prefix + [c]
      case None => prefix
  }

  /**
   * The positions of the kept raw rows, ascending: each position is a valid
   * row, and every valid row's position is listed.
   */
  function KeptIndices(raws: seq<RawOrder>): (idx: seq<nat>)
    ensures forall j :: 0 <= j < |idx| ==> idx[j] < |raws| && IsValid(raws[idx[j]])
    ensures forall j, k :: 0 <= j < k < |idx| ==> idx[j] < idx[k]
    ensures forall i :: 0 <= i < |raws| && IsValid(raws[i]) ==> i in idx
  {
    if raws == [] then []
    else
      var n := |raws| - 1;
      var prefix := KeptIndices(raws[..n]);
      assert forall j :: 0 <= j < |prefix| ==> raws[prefix[j]] == raws[..n][prefix[j]];
      if IsValid(raws[n]) then prefix + [n] else prefix
  }

  /**
   * The silver table is exactly the cleaned images of the kept raw rows, in
   * order: clean row j comes from raw row KeptIndices(raws)[j] and from no
   * other, so nothing is invented, merged, reordered or repaired.
   */
  lemma {:induction false} SilverIsImageOfKeptRows(raws: seq<RawOrder>)
    ensures |BronzeToSilver(raws)| == |KeptIndices(raws)|
    ensures forall j :: 0 <= j < |KeptIndices(raws)| ==>
      CleanRow(raws[KeptIndices(raws)[j]]) == Some(BronzeToSilver(raws)[j])
  {
    if raws != [] {
      var n := |raws| - 1;
      SilverIsImageOfKeptRows(raws[..n]);
      var idx := KeptIndices(raws[..n]);
      assert forall j :: 0 <= j < |idx| ==> raws[idx[j]] == raws[..n][idx[j]];
    }
  }

  /** A clean row occurs in the silver table exactly when some raw row cleans to it. */
  lemma {:induction false} SilverMembership(raws: seq<RawOrder>, c: CleanOrder)
    ensures c in BronzeToSilver(raws) <==> exists i :: 0 <= i < |raws| && CleanRow(raws[i]) == Some(c)
  {
    if raws != [] {
      var n := |raws| - 1;
      var prefix := raws[..n];
      SilverMembership(prefix, c);
      assert forall i :: 0 <= i < n ==> prefix[i] == raws[i];
      if c in BronzeToSilver(raws) && c !in BronzeToSilver(prefix) {
        assert CleanRow(raws[n]) == Some(c);
      }
    }
  }

  /** A silver row written back as a raw row. */
  function ToRaw(c: CleanOrder): RawOrder {
    RawOrder(c.orderId, c.ts, c.country, c.product, c.qty, Some(c.unitPrice))
  }

  /** Silver rows written back as raw rows, in order. */
  function ToRaws(clean: seq<CleanOrder>): (raws: seq<RawOrder>)
    ensures |raws| == |clean|
  {
    if clean == [] then [] else ToRaws(clean[..|clean| - 1]) + [ToRaw(clean[|clean| - 1])]
  }

  /** Cleaning a row that is already clean gives that row back. */
  lemma CleanRowOfClean(c: CleanOrder)
    requires WellFormed(c)
    ensures CleanRow(ToRaw(c)) == Some(c)
  {
    TrimKeepsTrimmed(c.country.value);
    TrimKeepsTrimmed(c.product);
  }

  /** Cleaning rows that are already clean gives them back, all of them, in order. */
  lemma {:induction false} CleanOfCleanRows(clean: seq<CleanOrder>)
    requires forall c :: c in clean ==> WellFormed(c)
    ensures BronzeToSilver(ToRaws(clean)) == clean
  {
    if clean != [] {
      var n := |clean| - 1;
      var raws := ToRaws(clean);
      assert forall c :: c in clean[..n] ==> c in clean;
      CleanOfCleanRows(clean[..n]);
      assert raws[..n] == ToRaws(clean[..n]) && raws[n] == ToRaw(clean[n]);
      CleanRowOfClean(clean[n]);
      assert BronzeToSilver(raws) == BronzeToSilver(raws[..n]) + [clean[n]];
      assert clean == clean[..n] + [clean[n]];
    }
  }

  /** Running the cleaning stage on its own output changes nothing. */
  lemma SilverIdempotent(raws: seq<RawOrder>)
    ensures BronzeToSilver(ToRaws(BronzeToSilver(raws))) == BronzeToSilver(raws)
  {
    CleanOfCleanRows(BronzeToSilver(raws));
  }
}
