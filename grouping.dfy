/**
 * `GROUP BY key ... ORDER BY key` with `COUNT(*)`, `SUM(qty)` and
 * `SUM(revenue)`, for any key and any strict total order on keys. The groups
 * are built by inserting the rows one by one into a list kept strictly sorted
 * by key; the lemmas show the result is the one the SQL describes.
 */
module Grouping {
  import opened Wrappers
  import opened Orders

  /** One output row of the grouping: its key, `COUNT(*)`, `SUM(qty)` and `SUM(revenue)`. */
  datatype Group<K> = Group(key: K, count: nat, units: int, revenue: int)

  ghost predicate StrictTotalOrder<K(!new)>(less: (K, K) -> bool) {
    && (forall a :: !less(a, a))
    && (forall a, b, c :: less(a, b) && less(b, c) ==> less(a, c))
    && (forall a, b :: a == b || less(a, b) || less(b, a))
  }

  /** Keys strictly ascending: the order asked for, and no key twice. */
  predicate StrictlySorted<K>(gs: seq<Group<K>>, less: (K, K) -> bool) {
    forall i, j :: 0 <= i < j < |gs| ==> less(gs[i].key, gs[j].key)
  }

  // ---------------------------------------------------------------------------
  // What the SQL means: the rows of a group, and the group they make.

  /** The rows whose key is `k`, in their order: the rows of group `k`. */
  function Matching<K(==)>(rows: seq<CleanOrder>, key: CleanOrder -> K, k: K): seq<CleanOrder> {
    if rows == [] then []
    else (if key(rows[0]) == k then [rows[0]] else []) + Matching(rows[1..], key, k)
  }

  /** The rows of group `k` are exactly the rows with key `k`. */
  lemma {:induction false} MatchingIsFilter<K>(rows: seq<CleanOrder>, key: CleanOrder -> K, k: K)
    ensures forall r :: r in Matching(rows, key, k) <==> r in rows && key(r) == k
  {
    if rows != [] {
      MatchingIsFilter(rows[1..], key, k);
      assert rows == [rows[0]] + rows[1..];
    }
  }

  /** The output row for key `k`, or `None` when no row has that key. */
  function GroupOf<K(==)>(rows: seq<CleanOrder>, key: CleanOrder -> K, k: K): Option<Group<K>> {
    var m := Matching(rows, key, k);
    if m == [] then None else Some(Group(k, |m|, SumQty(m), SumRevenue(m)))
  }

  /** The set of keys occurring among the rows. */
  function RowKeys<K>(rows: seq<CleanOrder>, key: CleanOrder -> K): set<K> {
    set r | r in rows :: key(r)
  }

  // ---------------------------------------------------------------------------
  // The grouping itself.

  /** The group in `gs` with key `k`, if any. */
  function Find<K(==)>(gs: seq<Group<K>>, k: K): (r: Option<Group<K>>)
    ensures r.Some? ==> r.value in gs && r.value.key == k
    ensures r.None? <==> forall i :: 0 <= i < |gs| ==> gs[i].key != k
  {
    if gs == [] then None
    else if gs[0].key == k then Some(gs[0])
    else Find(gs[1..], k)
  }

  /** Group `g` (or a new group, when there is none) with row `r` added to it. */
  function AddRow<K>(g: Option<Group<K>>, k: K, r: CleanOrder): Group<K> {
    match g
    case None => Group(k, 1, r.qty, r.revenue)
    case Some(g) => Group(k, g.count + 1, r.qty + g.units, r.revenue + g.revenue)
  }

  /** Adds row `r` with key `k` to the sorted groups `gs`: at most one new group. */
  function Insert<K(==)>(gs: seq<Group<K>>, k: K, r: CleanOrder, less: (K, K) -> bool): (groups: seq<Group<K>>)
    ensures |gs| <= |groups| <= |gs| + 1
  {
    if gs == [] then [AddRow(None, k, r)]
    else if gs[0].key == k then [AddRow(Some(gs[0]), k, r)] + gs[1..]
    else if less(k, gs[0].key) then [AddRow(None, k, r)] + gs
    else [gs[0]] + Insert(gs[1..], k, r, less)
  }

  /** `GROUP BY key ORDER BY key` over `rows`: no more groups than rows, and some group when there is a row. */
  function GroupBy<K(==)>(rows: seq<CleanOrder>, key: CleanOrder -> K, less: (K, K) -> bool): (groups: seq<Group<K>>)
    ensures |groups| <= |rows|
    ensures rows != [] ==> groups != []
  {
    if rows == [] then []
    else Insert(GroupBy(rows[1..], key, less), key(rows[0]), rows[0], less)
  }

  // ---------------------------------------------------------------------------
  // Insertion keeps the list sorted and updates exactly one group.

  ghost predicate Below<K>(x: K, gs: seq<Group<K>>, less: (K, K) -> bool) {
    forall i :: 0 <= i < |gs| ==> less(x, gs[i].key)
  }

  lemma {:induction false} InsertBelow<K(!new)>(gs: seq<Group<K>>, k: K, r: CleanOrder, less: (K, K) -> bool, x: K)
    requires Below(x, gs, less) && less(x, k)
    ensures Below(x, Insert(gs, k, r, less), less)
  {
    if gs != [] && gs[0].key != k && !less(k, gs[0].key) {
      InsertBelow(gs[1..], k, r, less, x);
    }
  }

  lemma {:induction false} InsertFind<K(!new)>(gs: seq<Group<K>>, k: K, r: CleanOrder, less: (K, K) -> bool)
    requires StrictTotalOrder(less) && StrictlySorted(gs, less)
    ensures StrictlySorted(Insert(gs, k, r, less), less)
    ensures forall k' :: Find(Insert(gs, k, r, less), k') == (if k' == k then Some(AddRow(Find(gs, k), k, r)) else Find(gs, k'))
  {
    var ins := Insert(gs, k, r, less);
    if gs == [] {
    } else if gs[0].key == k {
      assert ins[1..] == gs[1..];
    } else if less(k, gs[0].key) {
      assert ins[1..] == gs;
      assert Find(gs, k) == None;
    } else {
      var tail := Insert(gs[1..], k, r, less);
      InsertFind(gs[1..], k, r, less);
      assert Below(gs[0].key, gs[1..], less);
      InsertBelow(gs[1..], k, r, less, gs[0].key);
      assert ins[1..] == tail;
    }
  }

  /**
   * The grouping is ordered strictly by key, and the group it holds for any
   * key `k` is exactly the SQL group of `k`: absent when no row has key `k`,
   * otherwise the count, quantity sum and revenue sum of those rows.
   */
  lemma {:induction false} GroupByFind<K(!new)>(rows: seq<CleanOrder>, key: CleanOrder -> K, less: (K, K) -> bool)
    requires StrictTotalOrder(less)
    ensures StrictlySorted(GroupBy(rows, key, less), less)
    ensures forall k :: Find(GroupBy(rows, key, less), k) == GroupOf(rows, key, k)
  {
    if rows != [] {
      var rest := GroupBy(rows[1..], key, less);
      GroupByFind(rows[1..], key, less);
      InsertFind(rest, key(rows[0]), rows[0], less);
      forall k ensures Find(GroupBy(rows, key, less), k) == GroupOf(rows, key, k) {
        assert rows == [rows[0]] + rows[1..];
        GroupOfCons(rows[0], rows[1..], key, k);
      }
    }
  }

  /** In a strictly sorted list, the group found for a key is the one at its position. */
  lemma {:induction false} FindInSorted<K(!new)>(gs: seq<Group<K>>, less: (K, K) -> bool, i: nat)
    requires StrictTotalOrder(less) && StrictlySorted(gs, less) && i < |gs|
    ensures Find(gs, gs[i].key) == Some(gs[i])
  {
    if i > 0 {
      FindInSorted(gs[1..], less, i - 1);
      assert gs[1..][i - 1] == gs[i];
    }
  }

  /** The keys of a list of groups. */
  function Keys<K>(gs: seq<Group<K>>): set<K> {
    set i | 0 <= i < |gs| :: gs[i].key
  }

  /** Each group is the count and sums of the rows carrying its key, and counts at least one row. */
  lemma GroupByGroups<K(!new)>(rows: seq<CleanOrder>, key: CleanOrder -> K, less: (K, K) -> bool)
    requires StrictTotalOrder(less)
    ensures var gs := GroupBy(rows, key, less);
      forall i :: 0 <= i < |gs| ==>
        var m := Matching(rows, key, gs[i].key);
        gs[i] == Group(gs[i].key, |m|, SumQty(m), SumRevenue(m)) && gs[i].count >= 1
  {
    var gs := GroupBy(rows, key, less);
    GroupByFind(rows, key, less);
    forall i | 0 <= i < |gs|
      ensures var m := Matching(rows, key, gs[i].key);
        gs[i] == Group(gs[i].key, |m|, SumQty(m), SumRevenue(m)) && gs[i].count >= 1
    {
      FindInSorted(gs, less, i);
    }
  }

  /** The keys of the groups are exactly the keys occurring among the rows. */
  lemma GroupByKeys<K(!new)>(rows: seq<CleanOrder>, key: CleanOrder -> K, less: (K, K) -> bool)
    requires StrictTotalOrder(less)
    ensures Keys(GroupBy(rows, key, less)) == RowKeys(rows, key)
  {
    var gs := GroupBy(rows, key, less);
    GroupByFind(rows, key, less);
    forall k | k in RowKeys(rows, key) ensures k in Keys(gs) {
      var r :| r in rows && key(r) == k;
      MatchingIsFilter(rows, key, k);
      assert r in Matching(rows, key, k);
      var g := Find(gs, k).value;
      var i :| 0 <= i < |gs| && gs[i] == g;
    }
    forall k | k in Keys(gs) ensures k in RowKeys(rows, key) {
      var i :| 0 <= i < |gs| && gs[i].key == k;
      assert Find(gs, k).Some?;
      var m := Matching(rows, key, k);
      MatchingIsFilter(rows, key, k);
      assert m[0] in m;
    }
  }

  /**
   * The result of `GROUP BY key ORDER BY key`: strictly ascending by key, so
   * one group per key; its keys are exactly the keys occurring among the rows;
   * and each group is the count and sums of the rows carrying its key, and
   * counts at least one row.
   */
  lemma GroupByCorrect<K(!new)>(rows: seq<CleanOrder>, key: CleanOrder -> K, less: (K, K) -> bool)
    requires StrictTotalOrder(less)
    ensures var gs := GroupBy(rows, key, less);
      && StrictlySorted(gs, less)
      && Keys(gs) == RowKeys(rows, key)
      && forall i :: 0 <= i < |gs| ==>
           var m := Matching(rows, key, gs[i].key);
           gs[i] == Group(gs[i].key, |m|, SumQty(m), SumRevenue(m)) && gs[i].count >= 1
  {
    GroupByFind(rows, key, less);
    GroupByGroups(rows, key, less);
    GroupByKeys(rows, key, less);
  }

  // ---------------------------------------------------------------------------
  // Conservation: the groups account for every row exactly once.

  function TotalCount<K>(gs: seq<Group<K>>): int {
    if gs == [] then 0 else gs[0].count + TotalCount(gs[1..])
  }

  function TotalUnits<K>(gs: seq<Group<K>>): int {
    if gs == [] then 0 else gs[0].units + TotalUnits(gs[1..])
  }

  function TotalRevenue<K>(gs: seq<Group<K>>): int {
    if gs == [] then 0 else gs[0].revenue + TotalRevenue(gs[1..])
  }

  lemma {:induction false} InsertTotals<K>(gs: seq<Group<K>>, k: K, r: CleanOrder, less: (K, K) -> bool)
    ensures TotalCount(Insert(gs, k, r, less)) == TotalCount(gs) + 1
    ensures TotalUnits(Insert(gs, k, r, less)) == TotalUnits(gs) + r.qty
    ensures TotalRevenue(Insert(gs, k, r, less)) == TotalRevenue(gs) + r.revenue
  {
    var ins := Insert(gs, k, r, less);
    if gs == [] {
    } else if gs[0].key == k {
      assert ins[1..] == gs[1..];
    } else if less(k, gs[0].key) {
      assert ins[1..] == gs;
    } else {
      InsertTotals(gs[1..], k, r, less);
      assert ins[1..] == Insert(gs[1..], k, r, less);
    }
  }

  /**
   * Summed over all groups, the counts give the number of rows, and the
   * quantity and revenue sums give the totals over all rows.
   */
  lemma {:induction false} GroupByTotals<K>(rows: seq<CleanOrder>, key: CleanOrder -> K, less: (K, K) -> bool)
    ensures TotalCount(GroupBy(rows, key, less)) == |rows|
    ensures TotalUnits(GroupBy(rows, key, less)) == SumQty(rows)
    ensures TotalRevenue(GroupBy(rows, key, less)) == SumRevenue(rows)
  {
    if rows != [] {
      GroupByTotals(rows[1..], key, less);
      InsertTotals(GroupBy(rows[1..], key, less), key(rows[0]), rows[0], less);
    }
  }

  /** When every quantity is at least 1, a sum of quantities is at least the number of rows. */
  lemma {:induction false} SumQtyAtLeastCount(rows: seq<CleanOrder>)
    requires forall r :: r in rows ==> r.qty > 0
    ensures SumQty(rows) >= |rows|
  {
    if rows != [] {
      assert forall r :: r in rows[1..] ==> r in rows;
      SumQtyAtLeastCount(rows[1..]);
    }
  }

  /** With positive quantities only, every group sold at least as many units as it has rows. */
  lemma UnitsAtLeastCount<K(!new)>(rows: seq<CleanOrder>, key: CleanOrder -> K, less: (K, K) -> bool)
    requires StrictTotalOrder(less)
    requires forall r :: r in rows ==> r.qty > 0
    ensures forall g :: g in GroupBy(rows, key, less) ==> g.units >= g.count >= 1
  {
    var gs := GroupBy(rows, key, less);
    GroupByCorrect(rows, key, less);
    forall g | g in gs ensures g.units >= g.count >= 1 {
      var i :| 0 <= i < |gs| && gs[i] == g;
      MatchingIsFilter(rows, key, g.key);
      SumQtyAtLeastCount(Matching(rows, key, g.key));
    }
  }

  // ---------------------------------------------------------------------------
  // The grouping is the only sorted list with the SQL groups, so it does not
  // depend on the order in which the rows arrive.

  lemma {:induction false} SortedLookupDetermines<K(!new)>(gs: seq<Group<K>>, hs: seq<Group<K>>, less: (K, K) -> bool)
    requires StrictTotalOrder(less) && StrictlySorted(gs, less) && StrictlySorted(hs, less)
    requires forall k :: Find(gs, k) == Find(hs, k)
    ensures gs == hs
  {
    if gs != [] {
      FindInSorted(gs, less, 0);
    }
    if hs != [] {
      FindInSorted(hs, less, 0);
    }
    if gs != [] && hs != [] {
      var i :| 0 <= i < |gs| && gs[i] == hs[0];
      var j :| 0 <= j < |hs| && hs[j] == gs[0];
      assert gs[0] == hs[0];
      forall k ensures Find(gs[1..], k) == Find(hs[1..], k) {
        if k == gs[0].key {
          assert Below(k, gs[1..], less);
          assert Below(k, hs[1..], less);
          assert Find(gs[1..], k) == None;
          assert Find(hs[1..], k) == None;
        } else {
          assert Find(gs, k) == Find(gs[1..], k);
          assert Find(hs, k) == Find(hs[1..], k);
        }
      }
      SortedLookupDetermines(gs[1..], hs[1..], less);
      assert gs == [gs[0]] + gs[1..] && hs == [hs[0]] + hs[1..];
    }
  }

  /**
   * Any strictly sorted list of groups holding, for every key, the SQL group
   * of that key is the grouping: the result is fully determined.
   */
  lemma GroupByUnique<K(!new)>(rows: seq<CleanOrder>, key: CleanOrder -> K, less: (K, K) -> bool, hs: seq<Group<K>>)
    requires StrictTotalOrder(less) && StrictlySorted(hs, less)
    requires forall k :: Find(hs, k) == GroupOf(rows, key, k)
    ensures hs == GroupBy(rows, key, less)
  {
    GroupByFind(rows, key, less);
    SortedLookupDetermines(hs, GroupBy(rows, key, less), less);
  }

  lemma {:induction false} MatchingOfConcat<K>(a: seq<CleanOrder>, b: seq<CleanOrder>, key: CleanOrder -> K, k: K)
    ensures Matching(a + b, key, k) == Matching(a, key, k) + Matching(b, key, k)
  {
    if a == [] {
      assert a + b == b;
    } else {
      var head := if key(a[0]) == k then [a[0]] else [];
      assert (a + b)[0] == a[0];
      assert (a + b)[1..] == a[1..] + b;
      MatchingOfConcat(a[1..], b, key, k);
      calc {
        Matching(a + b, key, k);
        head + Matching(a[1..] + b, key, k);
        head + (Matching(a[1..], key, k) + Matching(b, key, k));
        (head + Matching(a[1..], key, k)) + Matching(b, key, k);
        Matching(a, key, k) + Matching(b, key, k);
      }
    }
  }

  /** Adding a row in front changes only the group of that row's key, by that row. */
  lemma GroupOfCons<K>(x: CleanOrder, rest: seq<CleanOrder>, key: CleanOrder -> K, k: K)
    ensures GroupOf([x] + rest, key, k) ==
      (if key(x) == k then Some(AddRow(GroupOf(rest, key, k), k, x)) else GroupOf(rest, key, k))
  {
    var m := Matching(rest, key, k);
    assert ([x] + rest)[1..] == rest;
    if key(x) == k {
      assert Matching([x] + rest, key, k) == [x] + m;
      assert ([x] + m)[1..] == m;
      assert SumQty([x] + m) == x.qty + SumQty(m);
      assert SumRevenue([x] + m) == x.revenue + SumRevenue(m);
    } else {
      assert Matching([x] + rest, key, k) == m;
    }
  }

  /** Moving one row to the front changes no group. */
  lemma GroupOfMoveFront<K>(pre: seq<CleanOrder>, x: CleanOrder, post: seq<CleanOrder>, key: CleanOrder -> K, k: K)
    ensures GroupOf(pre + [x] + post, key, k) == GroupOf([x] + (pre + post), key, k)
  {
    var mPre, mx, mPost := Matching(pre, key, k), Matching([x], key, k), Matching(post, key, k);
    MatchingOfConcat(pre + [x], post, key, k);
    MatchingOfConcat(pre, [x], key, k);
    MatchingOfConcat([x], pre + post, key, k);
    MatchingOfConcat(pre, post, key, k);
    var ma := Matching(pre + [x] + post, key, k);
    var mb := Matching([x] + (pre + post), key, k);
    assert ma == (mPre + mx) + mPost;
    assert mb == mx + (mPre + mPost);
    SumsOfConcat(mPre + mx, mPost);
    SumsOfConcat(mPre, mx);
    SumsOfConcat(mx, mPre + mPost);
    SumsOfConcat(mPre, mPost);
    assert |ma| == |mb| && SumQty(ma) == SumQty(mb) && SumRevenue(ma) == SumRevenue(mb);
  }

  /** Taking one occurrence of the same row out of two rearrangements leaves rearrangements. */
  lemma RemoveFromPermutation(a: seq<CleanOrder>, b: seq<CleanOrder>, j: nat)
    requires multiset(a) == multiset(b) && a != [] && j < |b| && b[j] == a[0]
    ensures multiset(a[1..]) == multiset(b[..j] + b[j + 1..])
  {
    var pre, post := b[..j], b[j + 1..];
    assert b == pre + [a[0]] + post;
    assert a == [a[0]] + a[1..];
    forall y ensures multiset(a[1..])[y] == multiset(pre + post)[y] {
      assert multiset(a)[y] == multiset(a[1..])[y] + multiset{a[0]}[y];
      assert multiset(b)[y] == multiset(pre)[y] + multiset{a[0]}[y] + multiset(post)[y];
    }
    assert multiset(a[1..]) == multiset(pre + post);
  }

  /** Two row lists whose first row of one sits at position j of the other, and that agree without it, agree. */
  lemma GroupOfWithout<K>(a: seq<CleanOrder>, b: seq<CleanOrder>, j: nat, key: CleanOrder -> K, k: K)
    requires a != [] && j < |b| && b[j] == a[0]
    requires GroupOf(a[1..], key, k) == GroupOf(b[..j] + b[j + 1..], key, k)
    ensures GroupOf(a, key, k) == GroupOf(b, key, k)
  {
    var x, rest := a[0], b[..j] + b[j + 1..];
    calc {
      GroupOf(b, key, k);
      == { assert b == b[..j] + [x] + b[j + 1..]; GroupOfMoveFront(b[..j], x, b[j + 1..], key, k); }
      GroupOf([x] + rest, key, k);
      == { GroupOfCons(x, rest, key, k); GroupOfCons(x, a[1..], key, k); }
      GroupOf([x] + a[1..], key, k);
      == { assert a == [x] + a[1..]; }
      GroupOf(a, key, k);
    }
  }

  /** Rearranging the rows leaves each key's count and sums unchanged. */
  lemma {:induction false} GroupOfPermutation<K>(a: seq<CleanOrder>, b: seq<CleanOrder>, key: CleanOrder -> K, k: K)
    requires multiset(a) == multiset(b)
    ensures GroupOf(a, key, k) == GroupOf(b, key, k)
  {
    if a == [] {
      assert |b| == |multiset(b)| == |multiset(a)| == 0;
    } else {
      assert a[0] in multiset(b) by {
        assert a[0] in a;
      }
      var j :| 0 <= j < |b| && b[j] == a[0];
      RemoveFromPermutation(a, b, j);
      GroupOfPermutation(a[1..], b[..j] + b[j + 1..], key, k);
      GroupOfWithout(a, b, j, key, k);
    }
  }

  /**
   * The grouping depends only on which rows there are, not on their order:
   * reading the same rows in any order gives the same result.
   */
  lemma GroupByPermutation<K(!new)>(a: seq<CleanOrder>, b: seq<CleanOrder>, key: CleanOrder -> K, less: (K, K) -> bool)
    requires StrictTotalOrder(less)
    requires multiset(a) == multiset(b)
    ensures GroupBy(a, key, less) == GroupBy(b, key, less)
  {
    GroupByFind(a, key, less);
    GroupByFind(b, key, less);
    forall k ensures Find(GroupBy(a, key, less), k) == GroupOf(b, key, k) {
      GroupOfPermutation(a, b, key, k);
    }
    GroupByUnique(b, key, less, GroupBy(a, key, less));
  }
}
