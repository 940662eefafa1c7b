/** The daily filter: an inclusive date range and two set-membership tests. */
module Filtering {
  import opened Calendar
  import opened Schema
  import opened Seqs

  /** The sidebar's choices: a date range and the admitted seasons and weather codes. */
  datatype FilterSpec = FilterSpec(start: Date, end: Date, seasons: set<SeasonValue>, weathers: set<int>)

  /** The four tests a daily row must all pass. */
  predicate Keep(spec: FilterSpec, r: DayRow) {
    && OnOrBefore(spec.start, r.dteday)
    && OnOrBefore(r.dteday, spec.end)
    && r.season in spec.seasons
    && r.weathersit in spec.weathers
  }

  /** The rows of the daily table that pass every test, in table order. */
  function Filter(rows: seq<DayRow>, spec: FilterSpec): (r: seq<DayRow>)
    ensures |r| <= |rows|
    ensures forall x :: x in r ==> Keep(spec, x)
  {
    if rows == [] then []
    else (if Keep(spec, rows[0]) then [rows[0]] else []) + Filter(rows[1..], spec)
  }

  /** A row is in the result exactly when it is in the table and passes all four tests. */
  lemma {:induction false} FilterMembership(rows: seq<DayRow>, spec: FilterSpec, x: DayRow)
    ensures x in Filter(rows, spec) <==> x in rows && Keep(spec, x)
  {
    if rows != [] {
      FilterMembership(rows[1..], spec, x);
      assert rows == [rows[0]] + rows[1..];
    }
  }

  /** Filtering works row by row: the result of a concatenation is the concatenation of results. */
  lemma {:induction false} FilterAppend(a: seq<DayRow>, b: seq<DayRow>, spec: FilterSpec)
    ensures Filter(a + b, spec) == Filter(a, spec) + Filter(b, spec)
  {
    if a == [] {
      assert a + b == b;
    } else {
      var head := if Keep(spec, a[0]) then [a[0]] else [];
      assert a + b == [a[0]] + (a[1..] + b);
      FilterCons(a[0], a[1..] + b, spec);
      FilterCons(a[0], a[1..], spec);
      FilterAppend(a[1..], b, spec);
      assert head + (Filter(a[1..], spec) + Filter(b, spec)) == (head + Filter(a[1..], spec)) + Filter(b, spec);
    }
  }

  /** The first row is kept or dropped on its own. */
  lemma FilterCons(x: DayRow, rest: seq<DayRow>, spec: FilterSpec)
    ensures Filter([x] + rest, spec) == (if Keep(spec, x) then [x] else []) + Filter(rest, spec)
  {
    assert ([x] + rest)[0] == x && ([x] + rest)[1..] == rest;
  }

  /** Surviving rows keep their relative order. */
  lemma {:induction false} FilterIsSubsequence(rows: seq<DayRow>, spec: FilterSpec)
    ensures IsSubsequence(Filter(rows, spec), rows)
  {
    if rows != [] {
      FilterIsSubsequence(rows[1..], spec);
      var rest := Filter(rows[1..], spec);
      if Keep(spec, rows[0]) {
        assert Filter(rows, spec) == [rows[0]] + rest;
        assert ([rows[0]] + rest)[1..] == rest;
      } else {
        assert Filter(rows, spec) == rest;
      }
    }
  }

  /** Filtering again with the same choices changes nothing. */
  lemma {:induction false} FilterIdempotent(rows: seq<DayRow>, spec: FilterSpec)
    ensures Filter(Filter(rows, spec), spec) == Filter(rows, spec)
  {
    if rows != [] {
      FilterIdempotent(rows[1..], spec);
      var head := if Keep(spec, rows[0]) then [rows[0]] else [];
      FilterAppend(head, Filter(rows[1..], spec), spec);
      if Keep(spec, rows[0]) {
        assert Filter([rows[0]], spec) == [rows[0]] + Filter([], spec);
      }
    }
  }

  /** An empty season set, an empty weather set or a range that ends before it starts admits nothing. */
  lemma {:induction false} FilterEmptyChoice(rows: seq<DayRow>, spec: FilterSpec)
    requires spec.seasons == {} || spec.weathers == {} || !OnOrBefore(spec.start, spec.end)
    ensures Filter(rows, spec) == []
  {
    if rows != [] {
      FilterEmptyChoice(rows[1..], spec);
    }
  }

  /** The earliest date of a non-empty table (`dteday.min()`). */
  function MinDate(rows: seq<DayRow>): (d: Date)
    requires |rows| > 0
    ensures exists i :: 0 <= i < |rows| && rows[i].dteday == d
    ensures forall i :: 0 <= i < |rows| ==> OnOrBefore(d, rows[i].dteday)
  {
    if |rows| == 1 then rows[0].dteday
    else
      var m := MinDate(rows[1..]);
      assert forall i :: 1 <= i < |rows| ==> rows[i] == rows[1..][i - 1];
      if OnOrBefore(rows[0].dteday, m) then rows[0].dteday else m
  }

  /** The latest date of a non-empty table (`dteday.max()`). */
  function MaxDate(rows: seq<DayRow>): (d: Date)
    requires |rows| > 0
    ensures exists i :: 0 <= i < |rows| && rows[i].dteday == d
    ensures forall i :: 0 <= i < |rows| ==> OnOrBefore(rows[i].dteday, d)
  {
    if |rows| == 1 then rows[0].dteday
    else
      var m := MaxDate(rows[1..]);
      assert forall i :: 1 <= i < |rows| ==> rows[i] == rows[1..][i - 1];
      if OnOrBefore(m, rows[0].dteday) then rows[0].dteday else m
  }

  /** The distinct season values of the table (`season.unique()`, as a set). */
  function SeasonsOf(rows: seq<DayRow>): set<SeasonValue> {
    set r | r in rows :: r.season
  }

  /** The distinct weather codes of the table (`weathersit.unique()`, as a set). */
  function WeathersOf(rows: seq<DayRow>): set<int> {
    set r | r in rows :: r.weathersit
  }

  /** The sidebar's initial choices: the whole date span, every season and every weather code present. */
  function DefaultSpec(rows: seq<DayRow>): FilterSpec
    requires |rows| > 0
  {
    FilterSpec(MinDate(rows), MaxDate(rows), SeasonsOf(rows), WeathersOf(rows))
  }

  /** Every row of `rows` passes `spec`, so the filter returns `rows` itself. */
  lemma {:induction false} FilterAllKept(rows: seq<DayRow>, spec: FilterSpec)
    requires forall i :: 0 <= i < |rows| ==> Keep(spec, rows[i])
    ensures Filter(rows, spec) == rows
  {
    if rows != [] {
      FilterAllKept(rows[1..], spec);
    }
  }

  /** With the initial choices the filter returns the table unchanged, row for row. */
  lemma FilterDefaultIsIdentity(rows: seq<DayRow>)
    requires |rows| > 0
    ensures Filter(rows, DefaultSpec(rows)) == rows
  {
    var spec := DefaultSpec(rows);
    forall i | 0 <= i < |rows|
      ensures Keep(spec, rows[i])
    {
      assert rows[i] in rows;
    }
    FilterAllKept(rows, spec);
  }
}
