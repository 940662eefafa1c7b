/**
 * Group-wise reductions: `groupby(key)[value].sum()`, `value_counts().sort_index()` on a
 * categorical column and the two-key `pivot_table(..., aggfunc='sum')`.
 * Rows are reduced to (key, value) pairs; a missing key is `None` and is dropped, as
 * `groupby` drops missing keys.
 */
module Grouping {
  import opened Wrappers
  import opened Seqs

  /** The sum of the values whose key is `k`: one group of a group sum. */
  function SumFor<K(==)>(rows: seq<(Option<K>, int)>, k: K): int {
    if rows == [] then 0
    else (if rows[0].0 == Some(k) then rows[0].1 else 0) + SumFor(rows[1..], k)
  }

  /** The sum of the values whose key is not missing. */
  function PresentTotal<K>(rows: seq<(Option<K>, int)>): int {
    if rows == [] then 0
    else (if rows[0].0.Some? then rows[0].1 else 0) + PresentTotal(rows[1..])
  }

  /** The first components of a sequence of pairs: the index of a series, or the key column of keyed rows. */
  function SeriesKeys<K>(r: seq<(K, int)>): (ks: seq<K>)
    ensures |ks| == |r| && forall i :: 0 <= i < |r| ==> ks[i] == r[i].0
  {
    seq(|r|, i requires 0 <= i < |r| => r[i].0)
  }

  /** The sum of the values of a series. */
  function SeriesTotal<K>(r: seq<(K, int)>): int {
    if r == [] then 0 else r[0].1 + SeriesTotal(r[1..])
  }

  /** One entry per key of `ks`, in that order, holding that key's group sum. */
  function Tabulate<K(==)>(ks: seq<K>, rows: seq<(Option<K>, int)>): (r: seq<(K, int)>)
    ensures |r| == |ks|
  {
    if ks == [] then [] else [(ks[0], SumFor(rows, ks[0]))] + Tabulate(ks[1..], rows)
  }

  lemma {:induction false} TabulateAt<K>(ks: seq<K>, rows: seq<(Option<K>, int)>, i: int)
    requires 0 <= i < |ks|
    ensures Tabulate(ks, rows)[i] == (ks[i], SumFor(rows, ks[i]))
  {
    if i > 0 {
      TabulateAt(ks[1..], rows, i - 1);
    }
  }

  lemma TabulateShape<K>(ks: seq<K>, rows: seq<(Option<K>, int)>)
    ensures SeriesKeys(Tabulate(ks, rows)) == ks
    ensures forall i :: 0 <= i < |ks| ==> Tabulate(ks, rows)[i].1 == SumFor(rows, ks[i])
  {
    forall i | 0 <= i < |ks|
      ensures Tabulate(ks, rows)[i] == (ks[i], SumFor(rows, ks[i]))
    {
      TabulateAt(ks, rows, i);
    }
  }

  /** The totals of a tabulation split over the first pair and the rest. */
  lemma {:induction false} TabulateSplit<K>(ks: seq<K>, x: (Option<K>, int), rest: seq<(Option<K>, int)>)
    ensures SeriesTotal(Tabulate(ks, [x] + rest)) == SeriesTotal(Tabulate(ks, [x])) + SeriesTotal(Tabulate(ks, rest))
  {
    if ks != [] {
      TabulateSplit(ks[1..], x, rest);
      assert ([x] + rest)[1..] == rest;
      assert [x][1..] == [];
      assert SumFor([x] + rest, ks[0]) == SumFor([x], ks[0]) + SumFor(rest, ks[0]);
      SeriesTotalCons((ks[0], SumFor([x] + rest, ks[0])), Tabulate(ks[1..], [x] + rest));
      SeriesTotalCons((ks[0], SumFor([x], ks[0])), Tabulate(ks[1..], [x]));
      SeriesTotalCons((ks[0], SumFor(rest, ks[0])), Tabulate(ks[1..], rest));
    }
  }

  lemma SeriesTotalCons<K>(e: (K, int), r: seq<(K, int)>)
    ensures SeriesTotal([e] + r) == e.1 + SeriesTotal(r)
  {
    assert ([e] + r)[1..] == r;
  }

  /** A single pair lands in its own key's group and in no other. */
  lemma {:induction false} TabulateOne<K>(ks: seq<K>, x: (Option<K>, int))
    requires Distinct(ks)
    ensures SeriesTotal(Tabulate(ks, [x])) == if x.0.Some? && x.0.value in ks then x.1 else 0
  {
    if ks != [] {
      TabulateOne(ks[1..], x);
      assert [x][1..] == [];
      SeriesTotalCons((ks[0], SumFor([x], ks[0])), Tabulate(ks[1..], [x]));
      assert x.0.Some? && x.0.value in ks <==> x.0 == Some(ks[0]) || (x.0.Some? && x.0.value in ks[1..]);
      assert SumFor([x], ks[0]) == if x.0 == Some(ks[0]) then x.1 else 0;
      if x.0 == Some(ks[0]) {
        forall j | 0 <= j < |ks[1..]|
          ensures ks[1..][j] != ks[0]
        {
          assert ks[1..][j] == ks[j + 1];
        }
        assert x.0.value !in ks[1..];
      }
    }
  }

  /**
   * Partition: when the keys `ks` are distinct and cover every present key, the group sums
   * over `ks` add up to the total of the present values.
   */
  lemma {:induction false} PartitionTotal<K>(ks: seq<K>, rows: seq<(Option<K>, int)>)
    requires Distinct(ks)
    requires forall i :: 0 <= i < |rows| && rows[i].0.Some? ==> rows[i].0.value in ks
    ensures SeriesTotal(Tabulate(ks, rows)) == PresentTotal(rows)
  {
    if rows == [] {
      TabulateZero(ks);
    } else {
      assert rows == [rows[0]] + rows[1..];
      TabulateSplit(ks, rows[0], rows[1..]);
      TabulateOne(ks, rows[0]);
      PartitionTotal(ks, rows[1..]);
    }
  }

  lemma {:induction false} TabulateZero<K>(ks: seq<K>)
    ensures SeriesTotal(Tabulate(ks, [])) == 0
  {
    if ks != [] {
      TabulateZero(ks[1..]);
    }
  }

  /** `x` inserted into a strictly increasing sequence of keys. */
  function InsertKey(x: int, s: seq<int>): (r: seq<int>)
    requires StrictlyIncreasing(s)
    ensures StrictlyIncreasing(r)
    ensures forall y :: y in r <==> y == x || y in s
  {
    if s == [] then [x]
    else if x < s[0] then
      assert forall y :: y in s ==> x < y by {
        forall y | y in s ensures x < y { var i :| 0 <= i < |s| && s[i] == y; assert s[0] <= s[i]; }
      }
      ConsIncreasing(x, s);
      [x] + s
    else if x == s[0] then s
    else
      var t := InsertKey(x, s[1..]);
      assert forall y :: y in s[1..] ==> s[0] < y by {
        forall y | y in s[1..] ensures s[0] < y { var i :| 0 <= i < |s[1..]| && s[1..][i] == y; assert s[1..][i] == s[i + 1]; }
      }
      ConsIncreasing(s[0], t);
      [s[0]] + t
  }

  /** The distinct present keys, ascending: the index of a group sum over integer keys. */
  function SortedKeys(keys: seq<Option<int>>): (r: seq<int>)
    ensures StrictlyIncreasing(r)
    ensures forall k :: k in r <==> Some(k) in keys
  {
    if keys == [] then []
    else
      var rest := SortedKeys(keys[1..]);
      assert keys == [keys[0]] + keys[1..];
      match keys[0]
      case None => rest
      case Some(k) => InsertKey(k, rest)
  }

  /** `groupby(key)[value].sum()` over integer keys. */
  function GroupSum(rows: seq<(Option<int>, int)>): seq<(int, int)> {
    Tabulate(SortedKeys(SeriesKeys(rows)), rows)
  }

  /**
   * The group sum holds exactly the present keys, ascending; each value is the sum over the
   * rows with that key; the values add up to the present total; no rows give no entries.
   */
  lemma GroupSumSpec(rows: seq<(Option<int>, int)>)
    ensures StrictlyIncreasing(SeriesKeys(GroupSum(rows)))
    ensures forall k :: k in SeriesKeys(GroupSum(rows)) <==> exists i :: 0 <= i < |rows| && rows[i].0 == Some(k)
    ensures forall i :: 0 <= i < |GroupSum(rows)| ==> GroupSum(rows)[i].1 == SumFor(rows, GroupSum(rows)[i].0)
    ensures SeriesTotal(GroupSum(rows)) == PresentTotal(rows)
    ensures GroupSum(rows) == [] <==> forall i :: 0 <= i < |rows| ==> rows[i].0.None?
  {
    GroupSumKeys(rows);
    GroupSumValues(rows);
    GroupSumTotal(rows);
    if GroupSum(rows) == [] {
      assert SeriesKeys(GroupSum(rows)) == [];
    } else {
      assert GroupSum(rows)[0].0 in SeriesKeys(GroupSum(rows));
    }
  }

  /** The keys of a group sum: strictly increasing, and exactly the keys present. */
  lemma GroupSumKeys(rows: seq<(Option<int>, int)>)
    ensures StrictlyIncreasing(SeriesKeys(GroupSum(rows)))
    ensures forall k :: k in SeriesKeys(GroupSum(rows)) <==> exists i :: 0 <= i < |rows| && rows[i].0 == Some(k)
  {
    var ks := SortedKeys(SeriesKeys(rows));
    TabulateShape(ks, rows);
    forall k
      ensures k in ks <==> exists i :: 0 <= i < |rows| && rows[i].0 == Some(k)
    {
      if k in ks {
        var i :| 0 <= i < |rows| && SeriesKeys(rows)[i] == Some(k);
      }
      if exists i :: 0 <= i < |rows| && rows[i].0 == Some(k) {
        var i :| 0 <= i < |rows| && rows[i].0 == Some(k);
        assert SeriesKeys(rows)[i] == Some(k);
      }
    }
  }

  /** Each value of a group sum is the sum over the rows with its key. */
  lemma GroupSumValues(rows: seq<(Option<int>, int)>)
    ensures forall i :: 0 <= i < |GroupSum(rows)| ==> GroupSum(rows)[i].1 == SumFor(rows, GroupSum(rows)[i].0)
  {
    TabulateShape(SortedKeys(SeriesKeys(rows)), rows);
  }

  /** The values of a group sum add up to the total over the rows with a key. */
  lemma GroupSumTotal(rows: seq<(Option<int>, int)>)
    ensures SeriesTotal(GroupSum(rows)) == PresentTotal(rows)
  {
    var ks := SortedKeys(SeriesKeys(rows));
    forall i | 0 <= i < |rows| && rows[i].0.Some?
      ensures rows[i].0.value in ks
    {
      assert SeriesKeys(rows)[i] == rows[i].0;
    }
    StrictlyIncreasingIsDistinct(ks);
    PartitionTotal(ks, rows);
  }

  /** How many cells of a categorical column hold label `l`. */
  function CountOf<L(==)>(col: seq<Option<L>>, l: L): nat {
    if col == [] then 0 else (if col[0] == Some(l) then 1 else 0) + CountOf(col[1..], l)
  }

  /** How many cells of a categorical column hold a label at all. */
  function LabelledCount<L>(col: seq<Option<L>>): nat {
    if col == [] then 0 else (if col[0].Some? then 1 else 0) + LabelledCount(col[1..])
  }

  /** Each cell paired with a value of 1, so that counting is summing. */
  function Ones<L>(col: seq<Option<L>>): (r: seq<(Option<L>, int)>)
    ensures |r| == |col| && forall i :: 0 <= i < |col| ==> r[i] == (col[i], 1)
  {
    seq(|col|, i requires 0 <= i < |col| => (col[i], 1))
  }

  /**
   * `value_counts().sort_index()` on a categorical column: one entry per declared label, in
   * declaration order, including labels no cell holds; missing cells are not counted.
   */
  function BucketCounts<L(==)>(col: seq<Option<L>>, labels: seq<L>): seq<(L, int)> {
    Tabulate(labels, Ones(col))
  }

  lemma {:induction false} CountIsSum<L>(col: seq<Option<L>>, l: L)
    ensures SumFor(Ones(col), l) == CountOf(col, l)
  {
    if col != [] {
      assert Ones(col)[1..] == Ones(col[1..]);
      CountIsSum(col[1..], l);
    }
  }

  lemma {:induction false} LabelledIsSum<L>(col: seq<Option<L>>)
    ensures PresentTotal(Ones(col)) == LabelledCount(col)
  {
    if col != [] {
      assert Ones(col)[1..] == Ones(col[1..]);
      LabelledIsSum(col[1..]);
    }
  }

  /** The counts list every declared label in order, with the number of cells holding it. */
  lemma BucketCountsSpec<L>(col: seq<Option<L>>, labels: seq<L>)
    ensures SeriesKeys(BucketCounts(col, labels)) == labels
    ensures forall i :: 0 <= i < |labels| ==> BucketCounts(col, labels)[i].1 == CountOf(col, labels[i])
  {
    TabulateShape(labels, Ones(col));
    forall l | l in labels
      ensures SumFor(Ones(col), l) == CountOf(col, l)
    {
      CountIsSum(col, l);
    }
  }

  /** When the labels are distinct and cover every labelled cell, the counts add up to the labelled cells. */
  lemma BucketCountsTotal<L>(col: seq<Option<L>>, labels: seq<L>)
    requires Distinct(labels)
    requires forall i :: 0 <= i < |col| && col[i].Some? ==> col[i].value in labels
    ensures SeriesTotal(BucketCounts(col, labels)) == LabelledCount(col)
  {
    PartitionTotal(labels, Ones(col));
    LabelledIsSum(col);
  }

  /**
   * A two-key table: `index` and `columns` are the distinct row and column keys, ascending;
   * `cells[i][j]` is missing when no row has that pair of keys.
   */
  datatype PivotTable = PivotTable(index: seq<int>, columns: seq<int>, cells: seq<seq<Option<int>>>)

  /** The group sum of the rows keyed (h, w), or missing when there are none. */
  function PivotCell(rows: seq<(int, int, int)>, h: int, w: int): Option<int> {
    if rows == [] then None
    else
      var rest := PivotCell(rows[1..], h, w);
      if rows[0].0 == h && rows[0].1 == w then Some(rows[0].2 + (if rest.Some? then rest.value else 0))
      else rest
  }

  /** The cells of row key `h`, one per column key of `ws`. */
  function PivotRow(rows: seq<(int, int, int)>, h: int, ws: seq<int>): (r: seq<Option<int>>)
    ensures |r| == |ws|
  {
    if ws == [] then [] else [PivotCell(rows, h, ws[0])] + PivotRow(rows, h, ws[1..])
  }

  /** The distinct first keys of the rows, ascending. */
  function RowKeys(rows: seq<(int, int, int)>): seq<int> {
    SortedKeys(seq(|rows|, i requires 0 <= i < |rows| => Some(rows[i].0)))
  }

  /** The distinct second keys of the rows, ascending. */
  function ColumnKeys(rows: seq<(int, int, int)>): seq<int> {
    SortedKeys(seq(|rows|, i requires 0 <= i < |rows| => Some(rows[i].1)))
  }

  /** `pivot_table(index=first key, columns=second key, values=third, aggfunc='sum')`. */
  function PivotSum(rows: seq<(int, int, int)>): PivotTable {
    var index := RowKeys(rows);
    var columns := ColumnKeys(rows);
    PivotTable(index, columns, seq(|index|, i requires 0 <= i < |index| => PivotRow(rows, index[i], columns)))
  }

  /** The rows of first key `h`, keyed by their second key; the other rows have a missing key. */
  function Slice(rows: seq<(int, int, int)>, h: int): (r: seq<(Option<int>, int)>)
    ensures |r| == |rows|
    ensures forall i :: 0 <= i < |rows| ==> r[i] == (if rows[i].0 == h then Some(rows[i].1) else None, rows[i].2)
  {
    seq(|rows|, i requires 0 <= i < |rows| => (if rows[i].0 == h then Some(rows[i].1) else None, rows[i].2))
  }

  /** The rows keyed by their first key alone. */
  function FirstKeyPairs(rows: seq<(int, int, int)>): (r: seq<(Option<int>, int)>)
    ensures |r| == |rows|
    ensures forall i :: 0 <= i < |rows| ==> r[i] == (Some(rows[i].0), rows[i].2)
  {
    seq(|rows|, i requires 0 <= i < |rows| => (Some(rows[i].0), rows[i].2))
  }

  function OrZero(c: Option<int>): int {
    if c.Some? then c.value else 0
  }

  /** The sum of the present cells of a row. */
  function RowTotal(cs: seq<Option<int>>): int {
    if cs == [] then 0 else OrZero(cs[0]) + RowTotal(cs[1..])
  }

  /**
   * A cell is present exactly when some row has both keys, and then it holds the sum of the
   * values of those rows; a missing cell stands for an empty group, not for a zero sum.
   */
  lemma {:induction false} PivotCellSpec(rows: seq<(int, int, int)>, h: int, w: int)
    ensures PivotCell(rows, h, w).Some? <==> exists i :: 0 <= i < |rows| && rows[i].0 == h && rows[i].1 == w
    ensures OrZero(PivotCell(rows, h, w)) == SumFor(Slice(rows, h), w)
  {
    if rows != [] {
      PivotCellSpec(rows[1..], h, w);
      assert Slice(rows, h)[1..] == Slice(rows[1..], h);
      if exists i :: 0 <= i < |rows| && rows[i].0 == h && rows[i].1 == w {
        var i :| 0 <= i < |rows| && rows[i].0 == h && rows[i].1 == w;
        if i > 0 {
          assert rows[1..][i - 1] == rows[i];
        }
      }
      if exists i :: 0 <= i < |rows[1..]| && rows[1..][i].0 == h && rows[1..][i].1 == w {
        var i :| 0 <= i < |rows[1..]| && rows[1..][i].0 == h && rows[1..][i].1 == w;
        assert rows[i + 1] == rows[1..][i];
      }
    }
  }

  lemma {:induction false} PivotRowTotalIsTabulation(rows: seq<(int, int, int)>, h: int, ws: seq<int>)
    ensures RowTotal(PivotRow(rows, h, ws)) == SeriesTotal(Tabulate(ws, Slice(rows, h)))
  {
    if ws != [] {
      PivotRowTotalIsTabulation(rows, h, ws[1..]);
      PivotCellSpec(rows, h, ws[0]);
      assert PivotRow(rows, h, ws)[1..] == PivotRow(rows, h, ws[1..]);
      SeriesTotalCons((ws[0], SumFor(Slice(rows, h), ws[0])), Tabulate(ws[1..], Slice(rows, h)));
    }
  }

  lemma {:induction false} SliceTotal(rows: seq<(int, int, int)>, h: int)
    ensures PresentTotal(Slice(rows, h)) == SumFor(FirstKeyPairs(rows), h)
  {
    if rows != [] {
      assert Slice(rows, h)[1..] == Slice(rows[1..], h);
      assert FirstKeyPairs(rows)[1..] == FirstKeyPairs(rows[1..]);
      SliceTotal(rows[1..], h);
    }
  }

  /** The pivot's index is the distinct first keys present, ascending. */
  lemma PivotIndexSpec(rows: seq<(int, int, int)>)
    ensures StrictlyIncreasing(PivotSum(rows).index)
    ensures forall h :: h in PivotSum(rows).index <==> exists i :: 0 <= i < |rows| && rows[i].0 == h
  {
    var hs := seq(|rows|, i requires 0 <= i < |rows| => Some(rows[i].0));
    assert PivotSum(rows).index == SortedKeys(hs);
    forall h
      ensures h in SortedKeys(hs) <==> exists i :: 0 <= i < |rows| && rows[i].0 == h
    {
      if exists i :: 0 <= i < |rows| && rows[i].0 == h {
        var i :| 0 <= i < |rows| && rows[i].0 == h;
        assert hs[i] == Some(h);
      }
    }
  }

  /** The pivot's columns are the distinct second keys present, ascending. */
  lemma PivotColumnsSpec(rows: seq<(int, int, int)>)
    ensures StrictlyIncreasing(PivotSum(rows).columns)
    ensures forall w :: w in PivotSum(rows).columns <==> exists i :: 0 <= i < |rows| && rows[i].1 == w
  {
    var ws := seq(|rows|, i requires 0 <= i < |rows| => Some(rows[i].1));
    assert PivotSum(rows).columns == SortedKeys(ws);
    forall w
      ensures w in SortedKeys(ws) <==> exists i :: 0 <= i < |rows| && rows[i].1 == w
    {
      if exists i :: 0 <= i < |rows| && rows[i].1 == w {
        var i :| 0 <= i < |rows| && rows[i].1 == w;
        assert ws[i] == Some(w);
      }
    }
  }

  /** The pivot has one row per index key and one cell per column key, as `PivotCellSpec` says. */
  lemma PivotCellsSpec(rows: seq<(int, int, int)>)
    ensures |PivotSum(rows).cells| == |PivotSum(rows).index|
    ensures forall i, j :: 0 <= i < |PivotSum(rows).index| && 0 <= j < |PivotSum(rows).columns| ==>
              j < |PivotSum(rows).cells[i]| &&
              PivotSum(rows).cells[i][j] == PivotCell(rows, PivotSum(rows).index[i], PivotSum(rows).columns[j])
  {
    var p := PivotSum(rows);
    forall i, j | 0 <= i < |p.index| && 0 <= j < |p.columns|
      ensures j < |p.cells[i]| && p.cells[i][j] == PivotCell(rows, p.index[i], p.columns[j])
    {
      assert p.cells[i] == PivotRow(rows, p.index[i], p.columns);
      PivotRowAt(rows, p.index[i], p.columns, j);
    }
  }

  /** The present cells of each pivot row add up to that row key's group sum over the first key. */
  lemma PivotRowTotals(rows: seq<(int, int, int)>)
    ensures |PivotSum(rows).cells| == |PivotSum(rows).index|
    ensures forall i :: 0 <= i < |PivotSum(rows).index| ==>
              RowTotal(PivotSum(rows).cells[i]) == SumFor(FirstKeyPairs(rows), PivotSum(rows).index[i])
  {
    var p := PivotSum(rows);
    PivotColumnsSpec(rows);
    StrictlyIncreasingIsDistinct(p.columns);
    forall i | 0 <= i < |p.index|
      ensures RowTotal(p.cells[i]) == SumFor(FirstKeyPairs(rows), p.index[i])
    {
      var h := p.index[i];
      assert p.cells[i] == PivotRow(rows, h, p.columns);
      RowTotalOfSlice(rows, h, p.columns);
    }
  }

  /** A row's present cells, over every second key present, add up to its group sum. */
  lemma RowTotalOfSlice(rows: seq<(int, int, int)>, h: int, ws: seq<int>)
    requires Distinct(ws)
    requires forall w :: w in ws <==> exists i :: 0 <= i < |rows| && rows[i].1 == w
    ensures RowTotal(PivotRow(rows, h, ws)) == SumFor(FirstKeyPairs(rows), h)
  {
    PivotRowTotalIsTabulation(rows, h, ws);
    forall k | 0 <= k < |rows| && Slice(rows, h)[k].0.Some?
      ensures Slice(rows, h)[k].0.value in ws
    {
      assert Slice(rows, h)[k].0.value == rows[k].1;
    }
    PartitionTotal(ws, Slice(rows, h));
    SliceTotal(rows, h);
  }

  lemma {:induction false} PivotRowAt(rows: seq<(int, int, int)>, h: int, ws: seq<int>, j: int)
    requires 0 <= j < |ws|
    ensures PivotRow(rows, h, ws)[j] == PivotCell(rows, h, ws[j])
  {
    if j > 0 {
      PivotRowAt(rows, h, ws[1..], j - 1);
    }
  }
}
