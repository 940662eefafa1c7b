/** The two tables of the dashboard and the normalisation of their coded columns. */
module Schema {
  import opened Wrappers
  import opened Calendar

  /** The four labels of the season lookup table. */
  datatype Season = Spring | Summer | Fall | Winter

  /** The label string a season is shown and grouped under. */
  function SeasonName(s: Season): string {
    match s
    case Spring => "Spring"
    case Summer => "Summer"
    case Fall => "Fall"
    case Winter => "Winter"
  }

  /** The integer code each label is looked up under (the inverse of `LookupSeason`). */
  function SeasonCode(s: Season): int {
    match s
    case Spring => 1
    case Summer => 2
    case Fall => 3
    case Winter => 4
  }

  /** The season lookup table {1: Spring, 2: Summer, 3: Fall, 4: Winter}. */
  function LookupSeason(code: int): (r: Option<Season>)
    ensures r.Some? <==> 1 <= code <= 4
    ensures forall s :: r == Some(s) <==> code == SeasonCode(s)
  {
    if code == 1 then Some(Spring)
    else if code == 2 then Some(Summer)
    else if code == 3 then Some(Fall)
    else if code == 4 then Some(Winter)
    else None
  }

  /** A cell of the `season` column: the integer code as loaded, a label once mapped, or missing. */
  datatype SeasonValue = Code(code: int) | Label(season: Season) | Missing

  /**
   * `Series.map` with the lookup table: a known code becomes its label; every other cell,
   * including an unknown code and a label (the table is keyed by integers), becomes missing.
   */
  function MapSeason(v: SeasonValue): (r: SeasonValue)
    ensures !r.Code?
    ensures forall s :: r == Label(s) <==> v == Code(SeasonCode(s))
    ensures r == Missing <==> !(v.Code? && 1 <= v.code <= 4)
  {
    match v
    case Code(c) =>
      (match LookupSeason(c)
       case Some(s) => Label(s)
       case None => Missing)
    case _ => Missing
  }

  /** Labels of the time-of-day bucketing, in declaration order. */
  datatype TimeOfDay = Malam | Pagi | Siang | Sore

  /** The label string the page shows for a time of day. */
  function TimeOfDayName(t: TimeOfDay): string {
    match t
    case Malam => "Malam (00-06)"
    case Pagi => "Pagi (06-12)"
    case Siang => "Siang (12-18)"
    case Sore => "Sore (18-24)"
  }

  /** Labels of the rental-count bucketing, in declaration order. */
  datatype RentalLevel = Rendah | Sedang | Tinggi

  /** The label string the page shows for a rental level. */
  function RentalLevelName(l: RentalLevel): string {
    match l
    case Rendah => "Rendah"
    case Sedang => "Sedang"
    case Tinggi => "Tinggi"
  }

  /** Labels of the temperature bucketing, in declaration order. */
  datatype TempBand = Dingin | Sedang | Panas

  /** The label string the page shows for a temperature band. */
  function TempBandName(b: TempBand): string {
    match b
    case Dingin => "Dingin"
    case Sedang => "Sedang"
    case Panas => "Panas"
  }

  /**
   * A row of the daily table. `month` is the column derived from the date; it is `None`
   * until it has been derived.
   */
  datatype DayRow = DayRow(dteday: Date, season: SeasonValue, weathersit: int, cnt: int,
                           month: Option<int>)

  /**
   * A row of the hourly table. The three bucket columns are `None` until assigned, and
   * `None` afterwards where the bucketing gives no label.
   */
  datatype HourRow = HourRow(hr: int, season: SeasonValue, weathersit: int, temp: real, cnt: int,
                             timeBin: Option<TimeOfDay>, rentalBin: Option<RentalLevel>,
                             tempBin: Option<TempBand>)

  /** Normalisation of one daily row: derive the month, map the season, keep the weather code. */
  function NormaliseDay(r: DayRow): (n: DayRow)
    ensures n.dteday == r.dteday && n.weathersit == r.weathersit && n.cnt == r.cnt
    ensures n.month == Some(r.dteday.month) && 1 <= n.month.value <= 12
    ensures n.season == MapSeason(r.season)
    ensures n.season.Label? <==> (r.season.Code? && 1 <= r.season.code <= 4)
  {
    r.(month := Some(MonthOf(r.dteday)), season := MapSeason(r.season), weathersit := r.weathersit)
  }

  /** Normalisation of one hourly row: map the season, keep the weather code. */
  function NormaliseHour(r: HourRow): (n: HourRow)
    ensures n.hr == r.hr && n.weathersit == r.weathersit && n.temp == r.temp && n.cnt == r.cnt
    ensures n.timeBin == r.timeBin && n.rentalBin == r.rentalBin && n.tempBin == r.tempBin
    ensures n.season == MapSeason(r.season)
    ensures n.season.Label? <==> (r.season.Code? && 1 <= r.season.code <= 4)
  {
    r.(season := MapSeason(r.season), weathersit := r.weathersit)
  }

  /** The in-place column assignments on the daily table. */
  method NormaliseDays(day: array<DayRow>)
    modifies day
    ensures forall i :: 0 <= i < day.Length ==> day[i] == NormaliseDay(old(day[i]))
  {
    var i := 0;
    while i < day.Length
      invariant 0 <= i <= day.Length
      invariant forall k :: 0 <= k < i ==> day[k] == NormaliseDay(old(day[k]))
      invariant forall k :: i <= k < day.Length ==> day[k] == old(day[k])
    {
      day[i] := NormaliseDay(day[i]);
      i := i + 1;
    }
  }

  /** The in-place column assignments on the hourly table. */
  method NormaliseHours(hour: array<HourRow>)
    modifies hour
    ensures forall i :: 0 <= i < hour.Length ==> hour[i] == NormaliseHour(old(hour[i]))
  {
    var i := 0;
    while i < hour.Length
      invariant 0 <= i <= hour.Length
      invariant forall k :: 0 <= k < i ==> hour[k] == NormaliseHour(old(hour[k]))
      invariant forall k :: i <= k < hour.Length ==> hour[k] == old(hour[k])
    {
      hour[i] := NormaliseHour(hour[i]);
      i := i + 1;
    }
  }

  /** The mapping table itself: codes 1, 2, 3, 4 name Spring, Summer, Fall, Winter. */
  lemma SeasonMappingTable()
    ensures MapSeason(Code(1)) == Label(Spring) && SeasonName(Spring) == "Spring"
    ensures MapSeason(Code(2)) == Label(Summer) && SeasonName(Summer) == "Summer"
    ensures MapSeason(Code(3)) == Label(Fall) && SeasonName(Fall) == "Fall"
    ensures MapSeason(Code(4)) == Label(Winter) && SeasonName(Winter) == "Winter"
    ensures MapSeason(Code(0)) == Missing && MapSeason(Code(5)) == Missing
  {
  }

  /**
   * The lookup is keyed by codes, not by labels: mapping an already mapped column would lose
   * every label. The page never does this, since each rerun loads both tables afresh before
   * mapping them once; the lemma only documents how `.map` is keyed.
   */
  lemma MapSeasonTwice(v: SeasonValue)
    ensures MapSeason(MapSeason(v)) == Missing
  {
  }
}
