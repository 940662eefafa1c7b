/**
 * The binning engine: `cut(values, bins, labels, right=False)` and the three bucketings of
 * the hourly table (time of day, rental count, temperature).
 */
module Binning {
  import opened Wrappers
  import opened Seqs
  import opened Schema
  import opened Quantiles

  predicate NonDecreasing(e: seq<real>) {
    forall i, j :: 0 <= i <= j < |e| ==> e[i] <= e[j]
  }

  predicate Increasing(e: seq<real>) {
    forall i, j :: 0 <= i < j < |e| ==> e[i] < e[j]
  }

  /** `searchsorted(v, side="right")`: the number of leading edges that are at most `v`. */
  function SearchRight(edges: seq<real>, v: real): (k: nat)
    ensures k <= |edges|
  {
    if edges == [] || v < edges[0] then 0 else 1 + SearchRight(edges[1..], v)
  }

  /** On sorted edges, the edges counted are exactly those at most `v`. */
  lemma {:induction false} SearchRightSpec(edges: seq<real>, v: real)
    requires NonDecreasing(edges)
    ensures forall i :: 0 <= i < |edges| ==> (i < SearchRight(edges, v) <==> edges[i] <= v)
  {
    if edges != [] && edges[0] <= v {
      SearchRightSpec(edges[1..], v);
      forall i | 1 <= i < |edges|
        ensures edges[i] == edges[1..][i - 1]
      {
      }
    }
  }

  /**
   * The interval `cut(..., right=False)` puts `v` in: one past the edges at most `v`, or none
   * when `v` is below the first edge or at or above the last.
   */
  function BinIndex(edges: seq<real>, v: real): (r: Option<nat>)
    ensures r.Some? ==> r.value + 1 < |edges|
  {
    var k := SearchRight(edges, v);
    if k == 0 || k == |edges| then None else Some(k - 1)
  }

  /** Half-open intervals: `v` is in interval `i` exactly when `edges[i] <= v < edges[i + 1]`. */
  lemma BinIndexSpec(edges: seq<real>, v: real)
    requires NonDecreasing(edges)
    ensures forall i: nat :: BinIndex(edges, v) == Some(i) <==> i + 1 < |edges| && edges[i] <= v < edges[i + 1]
    ensures BinIndex(edges, v).None? <==> |edges| == 0 || v < edges[0] || edges[|edges| - 1] <= v
  {
    SearchRightSpec(edges, v);
    var k := SearchRight(edges, v);
    forall i: nat | i + 1 < |edges| && edges[i] <= v < edges[i + 1]
      ensures k == i + 1
    {
    }
    if 0 < k < |edges| {
      assert edges[k - 1] <= v < edges[k];
    }
    if |edges| > 0 && edges[0] <= v && v < edges[|edges| - 1] {
      assert 0 < k;
      assert k < |edges|;
    }
  }

  /** The label `cut` gives one value, or none. */
  function Bin<L>(edges: seq<real>, labels: seq<L>, v: real): Option<L>
    requires |edges| == |labels| + 1
  {
    match BinIndex(edges, v)
    case None => None
    case Some(i) => Some(labels[i])
  }

  /**
   * With sorted edges and distinct labels, `v` gets label `i` exactly when
   * `edges[i] <= v < edges[i + 1]`, and no label exactly when it lies outside
   * `[edges[0], edges[last])`.
   */
  lemma BinSpec<L>(edges: seq<real>, labels: seq<L>, v: real)
    requires NonDecreasing(edges) && |edges| == |labels| + 1 && Distinct(labels)
    ensures forall i :: 0 <= i < |labels| ==> (Bin(edges, labels, v) == Some(labels[i]) <==> edges[i] <= v < edges[i + 1])
    ensures Bin(edges, labels, v).None? <==> v < edges[0] || edges[|labels|] <= v
  {
    BinIndexSpec(edges, v);
    forall i | 0 <= i < |labels|
      ensures Bin(edges, labels, v) == Some(labels[i]) <==> edges[i] <= v < edges[i + 1]
    {
      match BinIndex(edges, v)
      case None =>
      case Some(j) =>
        assert Bin(edges, labels, v) == Some(labels[j]);
        assert labels[j] == labels[i] ==> j == i;
    }
  }

  /** Why `cut` raises instead of producing a column. */
  datatype CutError = BinsNotMonotonic | BinEdgesNotUnique | LabelsNotUnique | LabelCountMismatch

  /**
   * `cut(values, bins=edges, labels=labels, right=False)`: the categorical column, or the
   * error `cut` raises for edges that decrease, for repeated edges (tolerated only when there
   * are exactly two), for repeated labels and for a label count other than one fewer than
   * the edges.
   */
  function Cut<L(==)>(values: seq<real>, edges: seq<real>, labels: seq<L>): (r: Result<seq<Option<L>>, CutError>)
    ensures r.Ok? ==> |r.value| == |values| && |edges| == |labels| + 1
  {
    if !NonDecreasing(edges) then Err(BinsNotMonotonic)
    else if |edges| != 2 && !Increasing(edges) then Err(BinEdgesNotUnique)
    else if !Distinct(labels) then Err(LabelsNotUnique)
    else if |labels| != |edges| - 1 then Err(LabelCountMismatch)
    else Ok(seq(|values|, i requires 0 <= i < |values| => Bin(edges, labels, values[i])))
  }

  /**
   * A column `cut` produces gives each value the label of the half-open interval holding it,
   * and no label outside `[edges[0], edges[last])`.
   */
  lemma CutSpec<L>(values: seq<real>, edges: seq<real>, labels: seq<L>, k: int)
    requires Cut(values, edges, labels).Ok? && 0 <= k < |values|
    ensures forall i :: 0 <= i < |labels| ==>
              (Cut(values, edges, labels).value[k] == Some(labels[i]) <==> edges[i] <= values[k] < edges[i + 1])
    ensures Cut(values, edges, labels).value[k].None? <==> values[k] < edges[0] || edges[|labels|] <= values[k]
  {
    CutAccepts(values, edges, labels);
    assert Cut(values, edges, labels).value[k] == Bin(edges, labels, values[k]);
    BinSpec(edges, labels, values[k]);
  }

  /** A value between the first and the last edge gets no label exactly when it is the last edge. */
  lemma BinTopOpen<L>(edges: seq<real>, labels: seq<L>, v: real)
    requires NonDecreasing(edges) && |edges| == |labels| + 1 && edges[0] <= v <= edges[|labels|]
    ensures Bin(edges, labels, v).None? <==> v == edges[|labels|]
  {
    BinIndexSpec(edges, v);
  }

  /** Each cell of a successful `cut` is the bin of its value. */
  lemma CutCell<L>(values: seq<real>, edges: seq<real>, labels: seq<L>, k: int)
    requires Cut(values, edges, labels).Ok? && 0 <= k < |values|
    ensures |edges| == |labels| + 1
    ensures Cut(values, edges, labels).value[k] == Bin(edges, labels, values[k])
  {
    CutAccepts(values, edges, labels);
  }

  /** When `cut` accepts its edges and labels, and which error it raises otherwise. */
  lemma CutAccepts<L>(values: seq<real>, edges: seq<real>, labels: seq<L>)
    ensures Cut(values, edges, labels).Ok? <==>
              NonDecreasing(edges) && (|edges| == 2 || Increasing(edges)) && Distinct(labels) && |edges| == |labels| + 1
    ensures NonDecreasing(edges) && !(|edges| == 2 || Increasing(edges)) ==> Cut(values, edges, labels) == Err(BinEdgesNotUnique)
  {
  }

  // ---- Time of day ----

  const TimeEdges: seq<real> := [0.0, 6.0, 12.0, 18.0, 24.0]
  const TimeLabels: seq<TimeOfDay> := [Malam, Pagi, Siang, Sore]

  /** The time-of-day label of an hour. */
  function TimeBin(hr: int): Option<TimeOfDay> {
    Bin(TimeEdges, TimeLabels, hr as real)
  }

  lemma TimeEdgesSorted()
    ensures Increasing(TimeEdges) && NonDecreasing(TimeEdges) && Distinct(TimeLabels)
  {
  }

  /** Every hour of the day gets exactly the label of its six-hour quarter; other hours get none. */
  lemma TimeBinByQuarter(hr: int)
    ensures 0 <= hr < 24 ==> TimeBin(hr) == Some(TimeLabels[hr / 6])
    ensures !(0 <= hr < 24) ==> TimeBin(hr) == None
  {
    TimeEdgesSorted();
    BinSpec(TimeEdges, TimeLabels, hr as real);
    if 0 <= hr < 24 {
      var q := hr / 6;
      assert TimeEdges[q] == (6 * q) as real && TimeEdges[q + 1] == (6 * q + 6) as real;
    }
  }

  /** Hour 0 is night, 6 morning, 12 afternoon and 23 evening. */
  lemma TimeBinExamples()
    ensures TimeBin(0) == Some(Malam) && TimeBin(6) == Some(Pagi)
    ensures TimeBin(12) == Some(Siang) && TimeBin(23) == Some(Sore)
  {
    TimeBinByQuarter(0);
    TimeBinByQuarter(6);
    TimeBinByQuarter(12);
    TimeBinByQuarter(23);
  }

  /** The fixed edges and labels are accepted, so `cut` never raises on the hour column. */
  lemma TimeCutAccepted(values: seq<real>)
    ensures Cut(values, TimeEdges, TimeLabels).Ok?
  {
    TimeEdgesSorted();
  }

  // ---- Temperature ----

  const TempEdges: seq<real> := [0.0, 0.3, 0.6, 1.0]
  const TempLabels: seq<TempBand> := [Dingin, TempBand.Sedang, Panas]

  /** The temperature label of a normalised temperature. */
  function TempBin(t: real): Option<TempBand> {
    Bin(TempEdges, TempLabels, t)
  }

  lemma TempEdgesSorted()
    ensures Increasing(TempEdges) && NonDecreasing(TempEdges) && Distinct(TempLabels)
  {
  }

  /** Cold below 0.3, moderate below 0.6, hot below 1.0; below 0 and from 1.0 on, no label. */
  lemma TempBinSpec(t: real)
    ensures TempBin(t) == Some(Dingin) <==> 0.0 <= t < 0.3
    ensures TempBin(t) == Some(TempBand.Sedang) <==> 0.3 <= t < 0.6
    ensures TempBin(t) == Some(Panas) <==> 0.6 <= t < 1.0
    ensures TempBin(t) == None <==> t < 0.0 || 1.0 <= t
  {
    TempEdgesSorted();
    BinSpec(TempEdges, TempLabels, t);
    assert TempLabels[0] == Dingin && TempLabels[1] == TempBand.Sedang && TempLabels[2] == Panas;
  }

  lemma TempCutAccepted(values: seq<real>)
    ensures Cut(values, TempEdges, TempLabels).Ok?
  {
    TempEdgesSorted();
  }

  // ---- Rental count ----

  const RentalLabels: seq<RentalLevel> := [Rendah, RentalLevel.Sedang, Tinggi]

  function AsReals(s: seq<int>): (r: seq<real>)
    ensures |r| == |s| && forall i :: 0 <= i < |s| ==> r[i] == s[i] as real
  {
    seq(|s|, i requires 0 <= i < |s| => s[i] as real)
  }

  /** The data-driven edges: minimum, 0.33 and 0.66 quantiles, and maximum of the counts. */
  function RentalEdges(cnts: seq<int>): (e: seq<real>)
    requires |cnts| > 0
    ensures |e| == 4
  {
    [Min(cnts) as real, Quantile(cnts, 0.33), Quantile(cnts, 0.66), Max(cnts) as real]
  }

  /**
   * The rental bucket column. On an empty table the minimum, the quantiles and the maximum are
   * all missing. In pandas 2.2 a list of missing edges fails `cut`'s first check, monotonicity.
   */
  function RentalColumn(cnts: seq<int>): Result<seq<Option<RentalLevel>>, CutError> {
    if cnts == [] then Err(BinsNotMonotonic)
    else Cut(AsReals(cnts), RentalEdges(cnts), RentalLabels)
  }

  lemma RentalColumnLength(cnts: seq<int>)
    ensures RentalColumn(cnts).Ok? ==> |RentalColumn(cnts).value| == |cnts|
  {
  }

  /** The edges run from the minimum to the maximum and never decrease. */
  lemma RentalEdgesOrdered(cnts: seq<int>)
    requires |cnts| > 0
    ensures NonDecreasing(RentalEdges(cnts))
    ensures RentalEdges(cnts)[0] == Min(cnts) as real && RentalEdges(cnts)[3] == Max(cnts) as real
  {
    var e := RentalEdges(cnts);
    QuantileOrdered(cnts, 0.33, 0.66);
    assert e[0] <= e[1] <= e[2] <= e[3];
    ChainNonDecreasing(e);
  }

  lemma ChainNonDecreasing(e: seq<real>)
    requires |e| == 4 && e[0] <= e[1] <= e[2] <= e[3]
    ensures NonDecreasing(e)
  {
  }

  lemma RentalLabelsDistinct()
    ensures |RentalLabels| == 3 && Distinct(RentalLabels)
  {
  }

  /** The strings the page shows for the three bucketings' labels, in declaration order. */
  lemma BucketLabelNames()
    ensures seq(|TimeLabels|, i requires 0 <= i < |TimeLabels| => TimeOfDayName(TimeLabels[i]))
            == ["Malam (00-06)", "Pagi (06-12)", "Siang (12-18)", "Sore (18-24)"]
    ensures seq(|RentalLabels|, i requires 0 <= i < |RentalLabels| => RentalLevelName(RentalLabels[i]))
            == ["Rendah", "Sedang", "Tinggi"]
    ensures seq(|TempLabels|, i requires 0 <= i < |TempLabels| => TempBandName(TempLabels[i]))
            == ["Dingin", "Sedang", "Panas"]
  {
  }

  /**
   * The rental bucketing fails exactly on an empty table, whose missing edges are not
   * monotonic, or when two of the four edges coincide, which `cut` rejects as repeated edges.
   * Decreasing edges cannot occur on a non-empty table.
   */
  lemma RentalColumnFailure(cnts: seq<int>)
    ensures RentalColumn(cnts).Err? <==> cnts == [] || !Increasing(RentalEdges(cnts))
    ensures cnts == [] ==> RentalColumn(cnts) == Err(BinsNotMonotonic)
    ensures cnts != [] && RentalColumn(cnts).Err? ==> RentalColumn(cnts).error == BinEdgesNotUnique
  {
    if cnts != [] {
      RentalEdgesOrdered(cnts);
      RentalLabelsDistinct();
      CutAccepts(AsReals(cnts), RentalEdges(cnts), RentalLabels);
    }
  }

  /**
   * When the bucketing succeeds, a count gets label `i` exactly when it lies in
   * `[edges[i], edges[i + 1])`, and a count gets no label exactly when it equals the maximum:
   * the top interval is open at the maximum, which is its own upper edge.
   */
  lemma RentalColumnSpec(cnts: seq<int>, k: int)
    requires RentalColumn(cnts).Ok? && 0 <= k < |cnts|
    ensures forall i :: 0 <= i < 3 ==>
              (RentalColumn(cnts).value[k] == Some(RentalLabels[i]) <==>
               RentalEdges(cnts)[i] <= cnts[k] as real < RentalEdges(cnts)[i + 1])
    ensures RentalColumn(cnts).value[k].None? <==> cnts[k] == Max(cnts)
  {
    RentalLevels(cnts, k);
    RentalTop(cnts, k);
  }

  lemma RentalLevels(cnts: seq<int>, k: int)
    requires RentalColumn(cnts).Ok? && 0 <= k < |cnts|
    ensures forall i :: 0 <= i < 3 ==>
              (RentalColumn(cnts).value[k] == Some(RentalLabels[i]) <==>
               RentalEdges(cnts)[i] <= cnts[k] as real < RentalEdges(cnts)[i + 1])
  {
    RentalCell(cnts, k);
    RentalEdgesOrdered(cnts);
    RentalLabelsDistinct();
    BinSpec(RentalEdges(cnts), RentalLabels, cnts[k] as real);
  }

  lemma RentalTop(cnts: seq<int>, k: int)
    requires RentalColumn(cnts).Ok? && 0 <= k < |cnts|
    ensures RentalColumn(cnts).value[k].None? <==> cnts[k] == Max(cnts)
  {
    RentalCell(cnts, k);
    RentalEdgesOrdered(cnts);
    assert Min(cnts) <= cnts[k] <= Max(cnts);
    BinTopOpen(RentalEdges(cnts), RentalLabels, cnts[k] as real);
  }

  /** Each cell of a successful rental bucketing is the bin of its count. */
  lemma RentalCell(cnts: seq<int>, k: int)
    requires RentalColumn(cnts).Ok? && 0 <= k < |cnts|
    ensures |RentalEdges(cnts)| == |RentalLabels| + 1
    ensures RentalColumn(cnts).value[k] == Bin(RentalEdges(cnts), RentalLabels, cnts[k] as real)
  {
    var vs := AsReals(cnts);
    assert RentalColumn(cnts) == Cut(vs, RentalEdges(cnts), RentalLabels);
    CutCell(vs, RentalEdges(cnts), RentalLabels, k);
  }

  /** The counts 10, 20, ..., 60, described by position so that no literal sequence is unfolded. */
  predicate EvenlySpaced(s: seq<int>) {
    |s| == 6 && forall k :: 0 <= k < 6 ==> s[k] == 10 * k + 10
  }

  /** The evenly spaced counts 10, 20, ..., 60 give the edges 10, 26.5, 43 and 60. */
  lemma RentalExampleEdges(s: seq<int>)
    requires EvenlySpaced(s)
    ensures RentalEdges(s) == [10.0, 26.5, 43.0, 60.0]
  {
    ExampleExtremes(s);
    ExampleQuantiles(s);
  }

  lemma ExampleSorted(s: seq<int>)
    requires EvenlySpaced(s)
    ensures Sort(s) == s
  {
    assert Sorted(s);
    SortOfSorted(s);
  }

  lemma ExampleExtremes(s: seq<int>)
    requires EvenlySpaced(s)
    ensures Min(s) == 10 && Max(s) == 60
  {
    ExampleSorted(s);
    SortEnds(s);
    assert s[0] == 10 && s[5] == 60;
  }

  lemma ExampleQuantiles(s: seq<int>)
    requires EvenlySpaced(s)
    ensures Quantile(s, 0.33) == 26.5 && Quantile(s, 0.66) == 43.0
  {
    ExampleSorted(s);
    assert Position(6, 0.33) == 1.65 && Position(6, 0.66) == 3.3;
    ExampleWalk(s, 1, 0.65, 26.5);
    ExampleWalk(s, 3, 0.3, 43.0);
  }

  /** Walking `k` ranks into the evenly spaced counts, then interpolating the fraction `f`. */
  lemma {:induction false} ExampleWalk(s: seq<int>, k: nat, f: real, q: real)
    requires |s| == 6 && k < 5 && forall i :: 0 <= i < 6 ==> s[i] == 10 * i + 10
    requires 0.0 <= f < 1.0 && q == (10 * k + 10) as real + f * 10.0
    ensures At(s, k as real + f) == q
  {
    AtSkip(s, k, f);
    assert s[k..][0] == 10 * k + 10 && s[k..][1] == 10 * k + 20;
  }

  /** On those counts the first two get the low label, the next two medium, 50 high, and 60 none. */
  lemma RentalExample(s: seq<int>)
    requires s == [10, 20, 30, 40, 50, 60]
    ensures RentalColumn(s) ==
            Ok([Some(Rendah), Some(Rendah), Some(RentalLevel.Sedang), Some(RentalLevel.Sedang), Some(Tinggi), None])
  {
    RentalExampleColumn(s);
  }

  lemma RentalExampleColumn(s: seq<int>)
    requires EvenlySpaced(s)
    ensures RentalColumn(s) ==
            Ok([Some(Rendah), Some(Rendah), Some(RentalLevel.Sedang), Some(RentalLevel.Sedang), Some(Tinggi), None])
  {
    RentalExampleEdges(s);
    ExampleExtremes(s);
    RentalColumnFailure(s);
    var e := RentalEdges(s);
    assert Increasing(e);
    var col := RentalColumn(s);
    assert col.Ok?;
    var expected := [Some(Rendah), Some(Rendah), Some(RentalLevel.Sedang), Some(RentalLevel.Sedang), Some(Tinggi), None];
    forall k | 0 <= k < 6
      ensures col.value[k] == expected[k]
    {
      RentalExampleCell(s, k);
    }
    assert col.value == expected;
  }

  lemma RentalExampleCell(s: seq<int>, k: int)
    requires EvenlySpaced(s) && 0 <= k < 6
    requires RentalEdges(s) == [10.0, 26.5, 43.0, 60.0] && Max(s) == 60 && RentalColumn(s).Ok?
    ensures RentalColumn(s).value[k] ==
            [Some(Rendah), Some(Rendah), Some(RentalLevel.Sedang), Some(RentalLevel.Sedang), Some(Tinggi), None][k]
  {
    RentalColumnSpec(s, k);
    var c := RentalColumn(s).value[k];
    var e := RentalEdges(s);
    assert e[0] == 10.0 && e[1] == 26.5 && e[2] == 43.0 && e[3] == 60.0;
    assert s[k] as real == (10 * k + 10) as real;
    if k == 0 || k == 1 {
      assert e[0] <= s[k] as real < e[1];
      assert c == Some(RentalLabels[0]);
    } else if k == 2 || k == 3 {
      assert e[1] <= s[k] as real < e[2];
      assert c == Some(RentalLabels[1]);
    } else if k == 4 {
      assert e[2] <= s[k] as real < e[3];
      assert c == Some(RentalLabels[2]);
    } else {
      assert s[k] == Max(s);
    }
  }

  // ---- The column assignments on the hourly table ----

  /** The `cnt` column of the hourly table. */
  function Counts(rows: seq<HourRow>): (c: seq<int>)
    ensures |c| == |rows| && forall i :: 0 <= i < |rows| ==> c[i] == rows[i].cnt
  {
    seq(|rows|, i requires 0 <= i < |rows| => rows[i].cnt)
  }

  /** Assigns the `time_bin` column: every row gets the time-of-day label of its hour. */
  method AssignTimeBins(hour: array<HourRow>)
    modifies hour
    ensures forall i :: 0 <= i < hour.Length ==> hour[i] == old(hour[i]).(timeBin := TimeBin(old(hour[i]).hr))
  {
    var i := 0;
    while i < hour.Length
      invariant 0 <= i <= hour.Length
      invariant forall k :: 0 <= k < i ==> hour[k] == old(hour[k]).(timeBin := TimeBin(old(hour[k]).hr))
      invariant forall k :: i <= k < hour.Length ==> hour[k] == old(hour[k])
    {
      hour[i] := hour[i].(timeBin := TimeBin(hour[i].hr));
      i := i + 1;
    }
  }

  /**
   * Assigns the `rental_bin` column from edges computed over the whole `cnt` column; when
   * `cut` raises, reports the error and leaves the table as it was.
   */
  method AssignRentalBins(hour: array<HourRow>) returns (err: Option<CutError>)
    modifies hour
    ensures RentalColumn(Counts(old(hour[..]))).Err? ==>
              err == Some(RentalColumn(Counts(old(hour[..]))).error) && hour[..] == old(hour[..])
    ensures RentalColumn(Counts(old(hour[..]))).Ok? ==>
              err == None &&
              forall i :: 0 <= i < hour.Length ==>
                hour[i] == old(hour[i]).(rentalBin := RentalColumn(Counts(old(hour[..]))).value[i])
  {
    var column := RentalColumn(Counts(hour[..]));
    if column.Err? {
      return Some(column.error);
    }
    RentalColumnLength(Counts(hour[..]));
    StoreRentalBins(hour, column.value);
    err := None;
  }

  /** Stores a computed rental bucket column in the table. */
  method StoreRentalBins(hour: array<HourRow>, bins: seq<Option<RentalLevel>>)
    requires |bins| == hour.Length
    modifies hour
    ensures forall i :: 0 <= i < hour.Length ==> hour[i] == old(hour[i]).(rentalBin := bins[i])
  {
    var i := 0;
    while i < hour.Length
      invariant 0 <= i <= hour.Length
      invariant forall k :: 0 <= k < i ==> hour[k] == old(hour[k]).(rentalBin := bins[k])
      invariant forall k :: i <= k < hour.Length ==> hour[k] == old(hour[k])
    {
      hour[i] := hour[i].(rentalBin := bins[i]);
      i := i + 1;
    }
  }

  /** Assigns the `temp_bin` column: every row gets the temperature label of its temperature. */
  method AssignTempBins(hour: array<HourRow>)
    modifies hour
    ensures forall i :: 0 <= i < hour.Length ==> hour[i] == old(hour[i]).(tempBin := TempBin(old(hour[i]).temp))
  {
    var i := 0;
    while i < hour.Length
      invariant 0 <= i <= hour.Length
      invariant forall k :: 0 <= k < i ==> hour[k] == old(hour[k]).(tempBin := TempBin(old(hour[k]).temp))
      invariant forall k :: i <= k < hour.Length ==> hour[k] == old(hour[k])
    {
      hour[i] := hour[i].(tempBin := TempBin(hour[i].temp));
      i := i + 1;
    }
  }
}
