/**
 * The dashboard's data flow: normalise both tables, filter the daily table, reduce it to the
 * monthly and seasonal series, reduce the unfiltered hourly table to the hourly series and
 * the hour-by-weather pivot, bucket the hourly table and count each bucketing.
 */
module Dashboard {
  import opened Wrappers
  import opened Seqs
  import opened Calendar
  import opened Schema
  import opened Filtering
  import opened Grouping
  import opened Binning
  import opened Quantiles

  // ---- Daily series ----

  /** The daily table keyed by month. */
  function MonthPairs(rows: seq<DayRow>): (r: seq<(Option<int>, int)>)
    ensures |r| == |rows| && forall i :: 0 <= i < |rows| ==> r[i] == (rows[i].month, rows[i].cnt)
  {
    seq(|rows|, i requires 0 <= i < |rows| => (rows[i].month, rows[i].cnt))
  }

  /** The total `cnt` of a table of daily rows. */
  function DayTotal(rows: seq<DayRow>): int {
    if rows == [] then 0 else rows[0].cnt + DayTotal(rows[1..])
  }

  lemma {:induction false} MonthPairsTotal(rows: seq<DayRow>)
    requires forall i :: 0 <= i < |rows| ==> rows[i].month.Some?
    ensures PresentTotal(MonthPairs(rows)) == DayTotal(rows)
  {
    if rows != [] {
      assert MonthPairs(rows)[1..] == MonthPairs(rows[1..]);
      MonthPairsTotal(rows[1..]);
    }
  }

  /** `groupby('month')['cnt'].sum()`. */
  function MonthlyTrend(rows: seq<DayRow>): seq<(int, int)> {
    GroupSum(MonthPairs(rows))
  }

  /**
   * The monthly series holds each month present once, ascending, with the sum of `cnt` over
   * the rows of that month; its values add up to the total `cnt` of the rows with a month.
   */
  lemma MonthlyTrendSpec(rows: seq<DayRow>)
    ensures StrictlyIncreasing(SeriesKeys(MonthlyTrend(rows)))
    ensures forall m :: m in SeriesKeys(MonthlyTrend(rows)) <==> exists i :: 0 <= i < |rows| && rows[i].month == Some(m)
    ensures forall i :: 0 <= i < |MonthlyTrend(rows)| ==>
              MonthlyTrend(rows)[i].1 == SumFor(MonthPairs(rows), MonthlyTrend(rows)[i].0)
    ensures SeriesTotal(MonthlyTrend(rows)) == PresentTotal(MonthPairs(rows))
    ensures (forall i :: 0 <= i < |rows| ==> rows[i].month.Some?) ==> SeriesTotal(MonthlyTrend(rows)) == DayTotal(rows)
    ensures rows == [] ==> MonthlyTrend(rows) == []
  {
    var pairs := MonthPairs(rows);
    GroupSumSpec(pairs);
    if forall i :: 0 <= i < |rows| ==> rows[i].month.Some? {
      MonthPairsTotal(rows);
    }
    forall m
      ensures (exists i :: 0 <= i < |pairs| && pairs[i].0 == Some(m)) <==> exists i :: 0 <= i < |rows| && rows[i].month == Some(m)
    {
      if exists i :: 0 <= i < |rows| && rows[i].month == Some(m) {
        var i :| 0 <= i < |rows| && rows[i].month == Some(m);
        assert pairs[i].0 == Some(m);
      }
    }
  }

  /** Position of each season label in alphabetical order. */
  function AlphaRank(s: Season): int {
    match s
    case Fall => 0
    case Spring => 1
    case Summer => 2
    case Winter => 3
  }

  function SeasonOfRank(k: int): Season {
    if k == 0 then Fall else if k == 1 then Spring else if k == 2 then Summer else Winter
  }

  /** Lexicographic order on strings, as Python compares the label strings. */
  predicate StrLess(a: string, b: string) {
    if a == [] then b != []
    else b != [] && (a[0] < b[0] || (a[0] == b[0] && StrLess(a[1..], b[1..])))
  }

  /** Alphabetical rank order is the order of the label strings: Fall, Spring, Summer, Winter. */
  lemma AlphaRankIsNameOrder(a: Season, b: Season)
    ensures AlphaRank(a) < AlphaRank(b) <==> StrLess(SeasonName(a), SeasonName(b))
  {
    assert StrLess("Fall", "Spring") && StrLess("Spring", "Summer") && StrLess("Summer", "Winter");
    assert StrLess("Fall", "Summer") && StrLess("Fall", "Winter") && StrLess("Spring", "Winter");
    assert !StrLess("Spring", "Fall") && !StrLess("Summer", "Spring") && !StrLess("Winter", "Summer");
    assert !StrLess("Summer", "Fall") && !StrLess("Winter", "Fall") && !StrLess("Winter", "Spring");
    assert !StrLess("Fall", "Fall") && !StrLess("Spring", "Spring");
    assert !StrLess("Summer", "Summer") && !StrLess("Winter", "Winter");
  }

  /** The daily table keyed by season label; rows whose season is not a label have no key. */
  function SeasonPairs(rows: seq<DayRow>): (r: seq<(Option<Season>, int)>)
    ensures |r| == |rows|
    ensures forall i :: 0 <= i < |rows| ==>
              r[i] == (if rows[i].season.Label? then Some(rows[i].season.season) else None, rows[i].cnt)
  {
    seq(|rows|, i requires 0 <= i < |rows| =>
      (if rows[i].season.Label? then Some(rows[i].season.season) else None, rows[i].cnt))
  }

  /** The daily table keyed by the alphabetical rank of its season label. */
  function SeasonRankPairs(rows: seq<DayRow>): (r: seq<(Option<int>, int)>)
    ensures |r| == |rows|
    ensures forall i :: 0 <= i < |rows| ==>
              r[i] == (if rows[i].season.Label? then Some(AlphaRank(rows[i].season.season)) else None, rows[i].cnt)
  {
    seq(|rows|, i requires 0 <= i < |rows| =>
      (if rows[i].season.Label? then Some(AlphaRank(rows[i].season.season)) else None, rows[i].cnt))
  }

  function Relabel(g: seq<(int, int)>): (r: seq<(Season, int)>)
    ensures |r| == |g|
  {
    if g == [] then [] else [(SeasonOfRank(g[0].0), g[0].1)] + Relabel(g[1..])
  }

  /**
   * `groupby('season')['cnt'].sum()`: the grouping key is the label string, so the seasons
   * come out in alphabetical order; missing seasons are dropped.
   */
  function SeasonTrend(rows: seq<DayRow>): seq<(Season, int)> {
    Relabel(GroupSum(SeasonRankPairs(rows)))
  }

  lemma {:induction false} RelabelAt(g: seq<(int, int)>, i: int)
    requires 0 <= i < |g|
    ensures Relabel(g)[i] == (SeasonOfRank(g[i].0), g[i].1)
  {
    if i > 0 {
      RelabelAt(g[1..], i - 1);
    }
  }

  lemma {:induction false} RelabelTotal(g: seq<(int, int)>)
    ensures SeriesTotal(Relabel(g)) == SeriesTotal(g)
  {
    if g != [] {
      RelabelTotal(g[1..]);
      SeriesTotalCons((SeasonOfRank(g[0].0), g[0].1), Relabel(g[1..]));
    }
  }

  lemma {:induction false} SeasonRankSum(rows: seq<DayRow>, s: Season)
    ensures SumFor(SeasonRankPairs(rows), AlphaRank(s)) == SumFor(SeasonPairs(rows), s)
  {
    if rows != [] {
      assert SeasonRankPairs(rows)[1..] == SeasonRankPairs(rows[1..]);
      assert SeasonPairs(rows)[1..] == SeasonPairs(rows[1..]);
      SeasonRankSum(rows[1..], s);
    }
  }

  lemma {:induction false} SeasonPairsTotal(rows: seq<DayRow>)
    requires forall i :: 0 <= i < |rows| ==> rows[i].season.Label?
    ensures PresentTotal(SeasonPairs(rows)) == DayTotal(rows)
  {
    if rows != [] {
      assert SeasonPairs(rows)[1..] == SeasonPairs(rows[1..]);
      SeasonPairsTotal(rows[1..]);
    }
  }

  lemma {:induction false} SeasonRankTotal(rows: seq<DayRow>)
    ensures PresentTotal(SeasonRankPairs(rows)) == PresentTotal(SeasonPairs(rows))
  {
    if rows != [] {
      assert SeasonRankPairs(rows)[1..] == SeasonRankPairs(rows[1..]);
      assert SeasonPairs(rows)[1..] == SeasonPairs(rows[1..]);
      SeasonRankTotal(rows[1..]);
    }
  }

  /** Each entry of the seasonal series is the relabelled entry of the grouping by rank. */
  lemma SeasonTrendAt(rows: seq<DayRow>, i: int)
    requires 0 <= i < |SeasonTrend(rows)|
    ensures var g := GroupSum(SeasonRankPairs(rows));
            i < |g| && SeasonTrend(rows)[i] == (SeasonOfRank(g[i].0), g[i].1) &&
            AlphaRank(SeasonTrend(rows)[i].0) == g[i].0
  {
    var pairs := SeasonRankPairs(rows);
    var g := GroupSum(pairs);
    GroupSumKeys(pairs);
    assert g[i].0 in SeriesKeys(g);
    var k :| 0 <= k < |pairs| && pairs[k].0 == Some(g[i].0);
    RelabelAt(g, i);
  }

  /** The seasonal series lists its seasons in strictly alphabetical order of their labels. */
  lemma SeasonTrendOrder(rows: seq<DayRow>)
    ensures forall i, j :: 0 <= i < j < |SeasonTrend(rows)| ==>
              StrLess(SeasonName(SeasonTrend(rows)[i].0), SeasonName(SeasonTrend(rows)[j].0))
  {
    var g := GroupSum(SeasonRankPairs(rows));
    var r := SeasonTrend(rows);
    GroupSumKeys(SeasonRankPairs(rows));
    forall i, j | 0 <= i < j < |r|
      ensures StrLess(SeasonName(r[i].0), SeasonName(r[j].0))
    {
      SeasonTrendAt(rows, i);
      SeasonTrendAt(rows, j);
      assert SeriesKeys(g)[i] < SeriesKeys(g)[j];
      AlphaRankIsNameOrder(r[i].0, r[j].0);
    }
  }

  lemma SeasonPresentListed(rows: seq<DayRow>, s: Season, i: int)
    requires 0 <= i < |rows| && rows[i].season == Label(s)
    ensures s in SeriesKeys(SeasonTrend(rows))
  {
    var pairs := SeasonRankPairs(rows);
    var g := GroupSum(pairs);
    GroupSumKeys(pairs);
    assert pairs[i].0 == Some(AlphaRank(s));
    assert AlphaRank(s) in SeriesKeys(g);
    var j :| 0 <= j < |g| && g[j].0 == AlphaRank(s);
    SeasonTrendAt(rows, j);
    assert SeriesKeys(SeasonTrend(rows))[j] == s;
  }

  lemma SeasonListedPresent(rows: seq<DayRow>, s: Season) returns (k: int)
    requires s in SeriesKeys(SeasonTrend(rows))
    ensures 0 <= k < |rows| && rows[k].season == Label(s)
  {
    var pairs := SeasonRankPairs(rows);
    var g := GroupSum(pairs);
    var r := SeasonTrend(rows);
    GroupSumKeys(pairs);
    var j :| 0 <= j < |r| && r[j].0 == s;
    SeasonTrendAt(rows, j);
    assert g[j].0 in SeriesKeys(g);
    k :| 0 <= k < |pairs| && pairs[k].0 == Some(g[j].0);
  }

  /** A season appears in the seasonal series exactly when some row carries its label. */
  lemma SeasonTrendKeys(rows: seq<DayRow>)
    ensures forall s :: s in SeriesKeys(SeasonTrend(rows)) <==> exists i :: 0 <= i < |rows| && rows[i].season == Label(s)
  {
    forall s
      ensures s in SeriesKeys(SeasonTrend(rows)) <==> exists i :: 0 <= i < |rows| && rows[i].season == Label(s)
    {
      if exists i :: 0 <= i < |rows| && rows[i].season == Label(s) {
        var i :| 0 <= i < |rows| && rows[i].season == Label(s);
        SeasonPresentListed(rows, s, i);
      }
      if s in SeriesKeys(SeasonTrend(rows)) {
        var k := SeasonListedPresent(rows, s);
      }
    }
  }

  /**
   * Each season's value is the sum of `cnt` over the rows with that label, and the values add
   * up to the total `cnt` of the rows that have a season label.
   */
  lemma SeasonTrendValues(rows: seq<DayRow>)
    ensures forall i :: 0 <= i < |SeasonTrend(rows)| ==>
              SeasonTrend(rows)[i].1 == SumFor(SeasonPairs(rows), SeasonTrend(rows)[i].0)
    ensures SeriesTotal(SeasonTrend(rows)) == PresentTotal(SeasonPairs(rows))
    ensures (forall i :: 0 <= i < |rows| ==> rows[i].season.Label?) ==> SeriesTotal(SeasonTrend(rows)) == DayTotal(rows)
    ensures rows == [] ==> SeasonTrend(rows) == []
  {
    var pairs := SeasonRankPairs(rows);
    var g := GroupSum(pairs);
    var r := SeasonTrend(rows);
    GroupSumValues(pairs);
    GroupSumTotal(pairs);
    if forall i :: 0 <= i < |rows| ==> rows[i].season.Label? {
      SeasonPairsTotal(rows);
    }
    forall i | 0 <= i < |r|
      ensures r[i].1 == SumFor(SeasonPairs(rows), r[i].0)
    {
      SeasonTrendAt(rows, i);
      SeasonRankSum(rows, r[i].0);
    }
    RelabelTotal(g);
    SeasonRankTotal(rows);
  }

  /**
   * Two spring days in January and February, left unfiltered by the sidebar's default
   * choices, give one point per month and a single spring bar holding both days.
   */
  lemma TwoDayExample(a: DayRow, b: DayRow)
    requires a == DayRow(Ymd(2011, 1, 1), Code(1), 1, 100, None)
    requires b == DayRow(Ymd(2011, 2, 1), Code(1), 2, 200, None)
    ensures var rows := [NormaliseDay(a), NormaliseDay(b)];
            MonthlyTrend(Filter(rows, DefaultSpec(rows))) == [(1, 100), (2, 200)] &&
            SeasonTrend(Filter(rows, DefaultSpec(rows))) == [(Spring, 300)]
  {
    var rows := [NormaliseDay(a), NormaliseDay(b)];
    FilterDefaultIsIdentity(rows);
    assert rows[0].month == Some(1) && rows[1].month == Some(2);
    assert rows[0].season == Label(Spring) && rows[1].season == Label(Spring);
    assert MonthPairs(rows) == [(Some(1), 100), (Some(2), 200)];
    assert SeasonRankPairs(rows) == [(Some(1), 100), (Some(1), 200)];
    GroupTwoKeys(MonthPairs(rows));
    GroupOneKey(SeasonRankPairs(rows));
    assert SeasonOfRank(1) == Spring;
  }

  lemma GroupTwoKeys(p: seq<(Option<int>, int)>)
    requires p == [(Some(1), 100), (Some(2), 200)]
    ensures GroupSum(p) == [(1, 100), (2, 200)]
  {
    var ks := SeriesKeys(p);
    assert ks == [Some(1), Some(2)];
    assert ks[1..] == [Some(2)];
    assert SortedKeys(ks[1..]) == [2] by {
      assert ks[1..][1..] == [];
    }
    assert SortedKeys(ks) == InsertKey(1, [2]);
    assert SortedKeys(ks) == [1, 2];
    assert p[1..] == [(Some(2), 200)] && p[1..][1..] == [];
    assert SumFor(p[1..], 1) == 0;
    assert SumFor(p[1..], 2) == 200;
    assert SumFor(p, 1) == 100 && SumFor(p, 2) == 200;
    TabulateShape([1, 2], p);
  }

  lemma GroupOneKey(p: seq<(Option<int>, int)>)
    requires p == [(Some(1), 100), (Some(1), 200)]
    ensures GroupSum(p) == [(1, 300)]
  {
    var ks := SeriesKeys(p);
    assert ks == [Some(1), Some(1)];
    assert ks[1..] == [Some(1)];
    assert SortedKeys(ks[1..]) == [1] by {
      assert ks[1..][1..] == [];
    }
    assert SortedKeys(ks) == InsertKey(1, [1]);
    assert SortedKeys(ks) == [1];
    assert SumFor(p, 1) == 300 by {
      assert p[1..] == [(Some(1), 200)] && p[1..][1..] == [];
      assert SumFor(p[1..], 1) == 200;
    }
    TabulateShape([1], p);
  }

  // ---- Hourly series ----

  /** The hourly table keyed by hour. */
  function HourPairs(rows: seq<HourRow>): (r: seq<(Option<int>, int)>)
    ensures |r| == |rows| && forall i :: 0 <= i < |rows| ==> r[i] == (Some(rows[i].hr), rows[i].cnt)
  {
    seq(|rows|, i requires 0 <= i < |rows| => (Some(rows[i].hr), rows[i].cnt))
  }

  /** `groupby('hr')['cnt'].sum()` over the unfiltered hourly table. */
  function HourlyTrend(rows: seq<HourRow>): seq<(int, int)> {
    GroupSum(HourPairs(rows))
  }

  /** The total `cnt` of a table of hourly rows. */
  function TotalCount(rows: seq<HourRow>): int {
    if rows == [] then 0 else rows[0].cnt + TotalCount(rows[1..])
  }

  lemma {:induction false} HourPairsTotal(rows: seq<HourRow>)
    ensures PresentTotal(HourPairs(rows)) == TotalCount(rows)
  {
    if rows != [] {
      assert HourPairs(rows)[1..] == HourPairs(rows[1..]);
      HourPairsTotal(rows[1..]);
    }
  }

  /**
   * The hourly series holds each hour present once, ascending, with the sum of `cnt` over the
   * rows of that hour; its values add up to the total `cnt` of the table.
   */
  lemma HourlyTrendSpec(rows: seq<HourRow>)
    ensures StrictlyIncreasing(SeriesKeys(HourlyTrend(rows)))
    ensures forall h :: h in SeriesKeys(HourlyTrend(rows)) <==> exists i :: 0 <= i < |rows| && rows[i].hr == h
    ensures forall i :: 0 <= i < |HourlyTrend(rows)| ==>
              HourlyTrend(rows)[i].1 == SumFor(HourPairs(rows), HourlyTrend(rows)[i].0)
    ensures SeriesTotal(HourlyTrend(rows)) == TotalCount(rows)
    ensures HourlyTrend(rows) == [] <==> rows == []
  {
    var pairs := HourPairs(rows);
    GroupSumSpec(pairs);
    HourPairsTotal(rows);
    forall h
      ensures (exists i :: 0 <= i < |pairs| && pairs[i].0 == Some(h)) <==> exists i :: 0 <= i < |rows| && rows[i].hr == h
    {
      if exists i :: 0 <= i < |rows| && rows[i].hr == h {
        var i :| 0 <= i < |rows| && rows[i].hr == h;
        assert pairs[i].0 == Some(h);
      }
    }
    if rows != [] {
      assert pairs[0].0.Some?;
    }
  }

  /** The hourly table as (hour, weather code, count) triples. */
  function HourWeatherTriples(rows: seq<HourRow>): (r: seq<(int, int, int)>)
    ensures |r| == |rows| && forall i :: 0 <= i < |rows| ==> r[i] == (rows[i].hr, rows[i].weathersit, rows[i].cnt)
  {
    seq(|rows|, i requires 0 <= i < |rows| => (rows[i].hr, rows[i].weathersit, rows[i].cnt))
  }

  /** `pivot_table(index='hr', columns='weathersit', values='cnt', aggfunc='sum')`. */
  function WeatherHourPivot(rows: seq<HourRow>): PivotTable {
    PivotSum(HourWeatherTriples(rows))
  }

  /** The total `cnt` of the rows with hour `h` and weather code `w`. */
  function CellTotal(rows: seq<HourRow>, h: int, w: int): int {
    if rows == [] then 0
    else (if rows[0].hr == h && rows[0].weathersit == w then rows[0].cnt else 0) + CellTotal(rows[1..], h, w)
  }

  lemma {:induction false} SliceIsCellTotal(rows: seq<HourRow>, h: int, w: int)
    ensures SumFor(Slice(HourWeatherTriples(rows), h), w) == CellTotal(rows, h, w)
  {
    if rows != [] {
      assert Slice(HourWeatherTriples(rows), h)[1..] == Slice(HourWeatherTriples(rows[1..]), h);
      SliceIsCellTotal(rows[1..], h, w);
    }
  }

  /** Some hourly row has hour `h` and weather code `w`. */
  predicate HasHourWeather(rows: seq<HourRow>, h: int, w: int) {
    exists k :: 0 <= k < |rows| && rows[k].hr == h && rows[k].weathersit == w
  }

  /** The pivot's columns are exactly the weather codes that occur, ascending. */
  lemma WeatherHourPivotColumns(rows: seq<HourRow>)
    ensures StrictlyIncreasing(WeatherHourPivot(rows).columns)
    ensures forall w :: w in WeatherHourPivot(rows).columns <==> exists k :: 0 <= k < |rows| && rows[k].weathersit == w
  {
    var t := HourWeatherTriples(rows);
    PivotColumnsSpec(t);
    forall w
      ensures w in PivotSum(t).columns <==> exists k :: 0 <= k < |rows| && rows[k].weathersit == w
    {
      if exists k :: 0 <= k < |rows| && rows[k].weathersit == w {
        var k :| 0 <= k < |rows| && rows[k].weathersit == w;
        assert t[k].1 == w;
      }
    }
  }

  /**
   * Pivot cell (h, w) is present exactly when some row has hour `h` and weather code `w`, and
   * then holds the total `cnt` of those rows.
   */
  lemma WeatherHourPivotCells(rows: seq<HourRow>)
    ensures var p := WeatherHourPivot(rows);
            |p.cells| == |p.index| &&
            forall i, j :: 0 <= i < |p.index| && 0 <= j < |p.columns| ==>
              j < |p.cells[i]| &&
              (p.cells[i][j].Some? <==> HasHourWeather(rows, p.index[i], p.columns[j])) &&
              (p.cells[i][j].Some? ==> p.cells[i][j].value == CellTotal(rows, p.index[i], p.columns[j]))
  {
    var t := HourWeatherTriples(rows);
    var p := PivotSum(t);
    PivotCellsSpec(t);
    forall i, j | 0 <= i < |p.index| && 0 <= j < |p.columns|
      ensures (p.cells[i][j].Some? <==> HasHourWeather(rows, p.index[i], p.columns[j])) &&
              (p.cells[i][j].Some? ==> p.cells[i][j].value == CellTotal(rows, p.index[i], p.columns[j]))
    {
      HourWeatherCell(rows, p.index[i], p.columns[j]);
    }
  }

  /** One pivot cell, read back in terms of the hourly rows. */
  lemma HourWeatherCell(rows: seq<HourRow>, h: int, w: int)
    ensures PivotCell(HourWeatherTriples(rows), h, w).Some? <==> HasHourWeather(rows, h, w)
    ensures OrZero(PivotCell(HourWeatherTriples(rows), h, w)) == CellTotal(rows, h, w)
  {
    var t := HourWeatherTriples(rows);
    PivotCellSpec(t, h, w);
    SliceIsCellTotal(rows, h, w);
    if exists k :: 0 <= k < |t| && t[k].0 == h && t[k].1 == w {
      var k :| 0 <= k < |t| && t[k].0 == h && t[k].1 == w;
      assert rows[k].hr == h && rows[k].weathersit == w;
    }
    if HasHourWeather(rows, h, w) {
      var k :| 0 <= k < |rows| && rows[k].hr == h && rows[k].weathersit == w;
      assert t[k].0 == h && t[k].1 == w;
    }
  }

  /**
   * The pivot's rows are the hours of the hourly series, and each pivot row's present cells
   * add up to that hour's value in the hourly series.
   */
  lemma WeatherHourPivotRows(rows: seq<HourRow>)
    ensures WeatherHourPivot(rows).index == SeriesKeys(HourlyTrend(rows))
    ensures |WeatherHourPivot(rows).cells| == |HourlyTrend(rows)|
    ensures forall i :: 0 <= i < |HourlyTrend(rows)| ==>
              RowTotal(WeatherHourPivot(rows).cells[i]) == HourlyTrend(rows)[i].1
  {
    var t := HourWeatherTriples(rows);
    var p := WeatherHourPivot(rows);
    var ks := SortedKeys(SeriesKeys(HourPairs(rows)));
    PivotRowTotals(t);
    assert FirstKeyPairs(t) == HourPairs(rows);
    assert seq(|t|, i requires 0 <= i < |t| => Some(t[i].0)) == SeriesKeys(HourPairs(rows));
    assert p.index == RowKeys(t) == ks;
    TabulateShape(ks, HourPairs(rows));
  }

  // ---- Bucket counts ----

  /** How many of `vs` lie in `[lo, hi)`. */
  function InRange(vs: seq<real>, lo: real, hi: real): nat {
    if vs == [] then 0 else (if lo <= vs[0] < hi then 1 else 0) + InRange(vs[1..], lo, hi)
  }

  lemma {:induction false} InRangeAll(vs: seq<real>, lo: real, hi: real)
    requires forall i :: 0 <= i < |vs| ==> lo <= vs[i] < hi
    ensures InRange(vs, lo, hi) == |vs|
  {
    if vs != [] {
      InRangeAll(vs[1..], lo, hi);
    }
  }

  lemma {:induction false} CountMatchesRange<L>(col: seq<Option<L>>, vs: seq<real>, l: L, lo: real, hi: real)
    requires |col| == |vs|
    requires forall i :: 0 <= i < |col| ==> (col[i] == Some(l) <==> lo <= vs[i] < hi)
    ensures CountOf(col, l) == InRange(vs, lo, hi)
  {
    if col != [] {
      CountMatchesRange(col[1..], vs[1..], l, lo, hi);
    }
  }

  lemma {:induction false} LabelledMatchesRange<L>(col: seq<Option<L>>, vs: seq<real>, lo: real, hi: real)
    requires |col| == |vs|
    requires forall i :: 0 <= i < |col| ==> (col[i].Some? <==> lo <= vs[i] < hi)
    ensures LabelledCount(col) == InRange(vs, lo, hi)
  {
    if col != [] {
      LabelledMatchesRange(col[1..], vs[1..], lo, hi);
    }
  }

  lemma BinnedCell<L>(c: Option<L>, v: real, edges: seq<real>, labels: seq<L>)
    requires NonDecreasing(edges) && |edges| == |labels| + 1 && Distinct(labels)
    requires c == Bin(edges, labels, v)
    ensures forall j :: 0 <= j < |labels| ==> (c == Some(labels[j]) <==> edges[j] <= v < edges[j + 1])
    ensures c.Some? <==> edges[0] <= v < edges[|labels|]
    ensures c.Some? ==> c.value in labels
  {
    BinIndexSpec(edges, v);
    forall j | 0 <= j < |labels|
      ensures c == Some(labels[j]) <==> edges[j] <= v < edges[j + 1]
    {
      if edges[j] <= v < edges[j + 1] {
        assert BinIndex(edges, v) == Some(j);
      }
      if c == Some(labels[j]) {
        var k := BinIndex(edges, v).value;
        assert labels[k] == labels[j];
        assert k == j;
      }
    }
    if c.Some? {
      var k := BinIndex(edges, v).value;
      assert k < |labels| && c == Some(labels[k]);
      assert labels[k] in labels;
    }
  }

  lemma BinnedCountAt<L>(col: seq<Option<L>>, vs: seq<real>, edges: seq<real>, labels: seq<L>, j: int)
    requires |col| == |vs| && NonDecreasing(edges) && |edges| == |labels| + 1 && Distinct(labels)
    requires forall i :: 0 <= i < |col| ==> col[i] == Bin(edges, labels, vs[i])
    requires 0 <= j < |labels|
    ensures CountOf(col, labels[j]) == InRange(vs, edges[j], edges[j + 1])
  {
    forall i | 0 <= i < |col|
      ensures col[i] == Some(labels[j]) <==> edges[j] <= vs[i] < edges[j + 1]
    {
      BinnedCell(col[i], vs[i], edges, labels);
    }
    CountMatchesRange(col, vs, labels[j], edges[j], edges[j + 1]);
  }

  /**
   * Counting a column binned by `edges`: label `j` is counted once per value in
   * `[edges[j], edges[j + 1])`, and the counts add up to the values in the whole range.
   */
  lemma BinnedCounts<L>(col: seq<Option<L>>, vs: seq<real>, edges: seq<real>, labels: seq<L>)
    requires |col| == |vs| && NonDecreasing(edges) && |edges| == |labels| + 1 && Distinct(labels)
    requires forall i :: 0 <= i < |col| ==> col[i] == Bin(edges, labels, vs[i])
    ensures SeriesKeys(BucketCounts(col, labels)) == labels
    ensures forall j :: 0 <= j < |labels| ==> BucketCounts(col, labels)[j].1 == InRange(vs, edges[j], edges[j + 1])
    ensures SeriesTotal(BucketCounts(col, labels)) == InRange(vs, edges[0], edges[|labels|])
  {
    BucketCountsSpec(col, labels);
    forall i | 0 <= i < |col|
      ensures col[i].Some? <==> edges[0] <= vs[i] < edges[|labels|]
      ensures col[i].Some? ==> col[i].value in labels
    {
      BinnedCell(col[i], vs[i], edges, labels);
    }
    BucketCountsTotal(col, labels);
    forall j | 0 <= j < |labels|
      ensures CountOf(col, labels[j]) == InRange(vs, edges[j], edges[j + 1])
    {
      BinnedCountAt(col, vs, edges, labels, j);
    }
    LabelledMatchesRange(col, vs, edges[0], edges[|labels|]);
  }

  function HourValues(rows: seq<HourRow>): (vs: seq<real>)
    ensures |vs| == |rows| && forall i :: 0 <= i < |rows| ==> vs[i] == rows[i].hr as real
  {
    seq(|rows|, i requires 0 <= i < |rows| => rows[i].hr as real)
  }

  function TempValues(rows: seq<HourRow>): (vs: seq<real>)
    ensures |vs| == |rows| && forall i :: 0 <= i < |rows| ==> vs[i] == rows[i].temp
  {
    seq(|rows|, i requires 0 <= i < |rows| => rows[i].temp)
  }

  function TimeColumn(rows: seq<HourRow>): (c: seq<Option<TimeOfDay>>)
    ensures |c| == |rows| && forall i :: 0 <= i < |rows| ==> c[i] == rows[i].timeBin
  {
    seq(|rows|, i requires 0 <= i < |rows| => rows[i].timeBin)
  }

  function RentalBinColumn(rows: seq<HourRow>): (c: seq<Option<RentalLevel>>)
    ensures |c| == |rows| && forall i :: 0 <= i < |rows| ==> c[i] == rows[i].rentalBin
  {
    seq(|rows|, i requires 0 <= i < |rows| => rows[i].rentalBin)
  }

  function TempColumn(rows: seq<HourRow>): (c: seq<Option<TempBand>>)
    ensures |c| == |rows| && forall i :: 0 <= i < |rows| ==> c[i] == rows[i].tempBin
  {
    seq(|rows|, i requires 0 <= i < |rows| => rows[i].tempBin)
  }

  /** `time_bin.value_counts().sort_index()` */
  function TimeCounts(rows: seq<HourRow>): seq<(TimeOfDay, int)> {
    BucketCounts(TimeColumn(rows), TimeLabels)
  }

  /** `rental_bin.value_counts().sort_index()` */
  function RentalCounts(rows: seq<HourRow>): seq<(RentalLevel, int)> {
    BucketCounts(RentalBinColumn(rows), RentalLabels)
  }

  /** `temp_bin.value_counts().sort_index()` */
  function TempCounts(rows: seq<HourRow>): seq<(TempBand, int)> {
    BucketCounts(TempColumn(rows), TempLabels)
  }

  /**
   * Once each row's time bucket is assigned from its hour, the four quarters of the day are
   * counted in order, each with the number of rows whose hour falls in it, and the counts add
   * up to the rows with an hour in 0..23.
   */
  lemma TimeCountsSpec(rows: seq<HourRow>)
    requires forall i :: 0 <= i < |rows| ==> rows[i].timeBin == TimeBin(rows[i].hr)
    ensures SeriesKeys(TimeCounts(rows)) == TimeLabels
    ensures TimeCounts(rows)[0].1 == InRange(HourValues(rows), 0.0, 6.0)
    ensures TimeCounts(rows)[1].1 == InRange(HourValues(rows), 6.0, 12.0)
    ensures TimeCounts(rows)[2].1 == InRange(HourValues(rows), 12.0, 18.0)
    ensures TimeCounts(rows)[3].1 == InRange(HourValues(rows), 18.0, 24.0)
    ensures SeriesTotal(TimeCounts(rows)) == InRange(HourValues(rows), 0.0, 24.0)
    ensures (forall i :: 0 <= i < |rows| ==> 0 <= rows[i].hr < 24) ==> SeriesTotal(TimeCounts(rows)) == |rows|
  {
    TimeEdgesSorted();
    BinnedCounts(TimeColumn(rows), HourValues(rows), TimeEdges, TimeLabels);
    assert TimeCounts(rows)[0].1 == InRange(HourValues(rows), TimeEdges[0], TimeEdges[1]);
    assert TimeCounts(rows)[1].1 == InRange(HourValues(rows), TimeEdges[1], TimeEdges[2]);
    assert TimeCounts(rows)[2].1 == InRange(HourValues(rows), TimeEdges[2], TimeEdges[3]);
    assert TimeCounts(rows)[3].1 == InRange(HourValues(rows), TimeEdges[3], TimeEdges[4]);
    if forall i :: 0 <= i < |rows| ==> 0 <= rows[i].hr < 24 {
      InRangeAll(HourValues(rows), 0.0, 24.0);
    }
  }

  /**
   * Once each row's temperature bucket is assigned, the three bands are counted in order, each
   * with the number of rows whose temperature lies in it; the counts add up to the rows with a
   * temperature in `[0, 1)`, so a temperature of exactly 1.0 is not counted.
   */
  lemma TempCountsSpec(rows: seq<HourRow>)
    requires forall i :: 0 <= i < |rows| ==> rows[i].tempBin == TempBin(rows[i].temp)
    ensures SeriesKeys(TempCounts(rows)) == TempLabels
    ensures forall j :: 0 <= j < 3 ==> TempCounts(rows)[j].1 == InRange(TempValues(rows), TempEdges[j], TempEdges[j + 1])
    ensures SeriesTotal(TempCounts(rows)) == InRange(TempValues(rows), 0.0, 1.0)
  {
    TempEdgesSorted();
    BinnedCounts(TempColumn(rows), TempValues(rows), TempEdges, TempLabels);
  }

  /**
   * Once the rental bucket column is assigned from a successful `cut`, the three levels are
   * counted in order, each with the number of rows whose count lies between its edges; the
   * counts add up to the rows whose count is below the maximum.
   */
  lemma RentalCountsSpec(rows: seq<HourRow>)
    requires RentalColumn(Counts(rows)).Ok?
    requires forall i :: 0 <= i < |rows| ==> RentalColumn(Counts(rows)).value[i] == rows[i].rentalBin
    ensures SeriesKeys(RentalCounts(rows)) == RentalLabels
    ensures forall j :: 0 <= j < 3 ==>
              RentalCounts(rows)[j].1 == InRange(AsReals(Counts(rows)), RentalEdges(Counts(rows))[j], RentalEdges(Counts(rows))[j + 1])
    ensures SeriesTotal(RentalCounts(rows)) == InRange(AsReals(Counts(rows)), Min(Counts(rows)) as real, Max(Counts(rows)) as real)
  {
    var cnts := Counts(rows);
    RentalEdgesOrdered(cnts);
    RentalLabelsDistinct();
    forall i | 0 <= i < |rows|
      ensures RentalBinColumn(rows)[i] == Bin(RentalEdges(cnts), RentalLabels, AsReals(cnts)[i])
    {
      RentalCell(cnts, i);
    }
    BinnedCounts(RentalBinColumn(rows), AsReals(cnts), RentalEdges(cnts), RentalLabels);
  }

  // ---- The whole page ----

  /** The three bucket-count charts, drawn only when every bucketing succeeded. */
  datatype Buckets = Buckets(time: seq<(TimeOfDay, int)>, rental: seq<(RentalLevel, int)>, temp: seq<(TempBand, int)>)

  /** Every series the page draws, in page order. */
  datatype Charts = Charts(monthly: seq<(int, int)>, seasonal: seq<(Season, int)>, pivot: PivotTable,
                           hourly: seq<(int, int)>, buckets: Result<Buckets, CutError>)

  function NormaliseHourTable(rows: seq<HourRow>): (r: seq<HourRow>)
    ensures |r| == |rows| && forall i :: 0 <= i < |rows| ==> r[i] == NormaliseHour(rows[i])
  {
    seq(|rows|, i requires 0 <= i < |rows| => NormaliseHour(rows[i]))
  }

  /**
   * One rendering of the page for the sidebar choices `spec`: both tables are normalised in
   * place, only the daily table is filtered, the hourly table gains its bucket columns in
   * order, and a failing rental `cut` stops the page after the time column is assigned.
   */
  method Run(day: array<DayRow>, hour: array<HourRow>, spec: FilterSpec) returns (charts: Charts)
    modifies day, hour
    ensures forall i :: 0 <= i < day.Length ==> day[i] == NormaliseDay(old(day[i]))
    ensures charts.monthly == MonthlyTrend(Filter(day[..], spec))
    ensures charts.seasonal == SeasonTrend(Filter(day[..], spec))
    ensures charts.pivot == WeatherHourPivot(NormaliseHourTable(old(hour[..])))
    ensures charts.hourly == HourlyTrend(NormaliseHourTable(old(hour[..])))
    ensures forall i :: 0 <= i < hour.Length ==>
              hour[i].timeBin == TimeBin(old(hour[i]).hr) &&
              hour[i] == NormaliseHour(old(hour[i])).(timeBin := hour[i].timeBin, rentalBin := hour[i].rentalBin, tempBin := hour[i].tempBin)
    ensures RentalColumn(Counts(old(hour[..]))).Err? ==>
              charts.buckets == Err(RentalColumn(Counts(old(hour[..]))).error) &&
              forall i :: 0 <= i < hour.Length ==> hour[i].rentalBin == old(hour[i]).rentalBin && hour[i].tempBin == old(hour[i]).tempBin
    ensures RentalColumn(Counts(old(hour[..]))).Ok? ==>
              (forall i :: 0 <= i < hour.Length ==>
                 hour[i].rentalBin == RentalColumn(Counts(old(hour[..]))).value[i] && hour[i].tempBin == TempBin(old(hour[i]).temp)) &&
              charts.buckets == Ok(Buckets(TimeCounts(hour[..]), RentalCounts(hour[..]), TempCounts(hour[..])))
  {
    ghost var cnts := Counts(hour[..]);
    NormaliseDays(day);
    NormaliseHours(hour);
    var filtered := Filter(day[..], spec);
    var monthly := MonthlyTrend(filtered);
    var seasonal := SeasonTrend(filtered);
    assert hour[..] == NormaliseHourTable(old(hour[..]));
    var pivot := WeatherHourPivot(hour[..]);
    var hourly := HourlyTrend(hour[..]);
    AssignTimeBins(hour);
    assert Counts(hour[..]) == cnts;
    var err := AssignRentalBins(hour);
    if err.Some? {
      charts := Charts(monthly, seasonal, pivot, hourly, Err(err.value));
      return;
    }
    AssignTempBins(hour);
    var rows := hour[..];
    charts := Charts(monthly, seasonal, pivot, hourly, Ok(Buckets(TimeCounts(rows), RentalCounts(rows), TempCounts(rows))));
  }
}
