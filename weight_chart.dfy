/**
 * The weight chart: the records it plots for the selected date range, the order it plots them
 * in, and the weight-change statistics under it. "Today" is passed in as a calendar date and
 * time of day.
 */
module WeightChart {
  import opened Js
  import opened Seqs
  import opened Calendar
  import opened Progress

  /** How many months back a limited range reaches; an unknown range is treated as '3m'. */
  function MonthsBack(range: string): (k: nat)
    ensures range == "1m" ==> k == 1
    ensures range == "6m" ==> k == 6
    ensures range == "1y" ==> k == 12
    ensures range !in ["1m", "6m", "1y"] ==> k == 3
  {
    if range == "1m" then 1 else if range == "6m" then 6 else if range == "1y" then 12 else 3
  }

  /** The `startDate` of `filterDataByRange`, for every range but 'all'. */
  function Cutoff(range: string, today: Civil): int {
    if range == "1m" then MonthsBefore(today, 1)
    else if range == "3m" then MonthsBefore(today, 3)
    else if range == "6m" then MonthsBefore(today, 6)
    else if range == "1y" then YearBefore(today)
    else MonthsBefore(today, 3)
  }

  /** Every cutoff is the same time of day and date, that many months back. */
  lemma CutoffIsMonthsBack(range: string, today: Civil)
    ensures Cutoff(range, today) == MonthsBefore(today, MonthsBack(range))
  {
    YearIsTwelveMonths(today);
  }

  /** Whether a record is on or after the cutoff of a range. */
  predicate InRange(x: ProgressRecord, range: string, today: Civil) {
    range == "all" || x.recordDate >= Cutoff(range, today)
  }

  /**
   * `filterDataByRange`: 'all' returns the records unchanged; any other range keeps, in their
   * order, exactly the records dated on or after its cutoff.
   */
  function FilterByRange(data: seq<ProgressRecord>, range: string, today: Civil): (r: seq<ProgressRecord>)
    ensures range == "all" ==> r == data
    ensures r == Filter(data, (x: ProgressRecord) => InRange(x, range, today))
    ensures forall x :: x in r <==> x in data && InRange(x, range, today)
  {
    var keep := (x: ProgressRecord) => InRange(x, range, today);
    if range == "all" then
      FilterAll(data, keep);
      data
    else
      Filter(data, keep)
  }

  /** A range the selector does not offer shows what '3m' shows. */
  lemma UnknownRangeIsThreeMonths(data: seq<ProgressRecord>, range: string, today: Civil)
    requires range !in ["1m", "3m", "6m", "1y", "all"]
    ensures FilterByRange(data, range, today) == FilterByRange(data, "3m", today)
  {
    var keep := (x: ProgressRecord) => InRange(x, range, today);
    var keep3 := (x: ProgressRecord) => InRange(x, "3m", today);
    assert forall x :: keep(x) == keep3(x);
    FilterFilter(data, keep, keep3, keep3);
    FilterAll(Filter(data, keep), keep3);
  }

  /**
   * Ranges nest: narrowing the records of a wider range to a narrower one gives exactly the
   * narrower range's records, so a wider range never drops a record a narrower one keeps.
   */
  lemma WiderRangeRefines(data: seq<ProgressRecord>, narrow: string, wide: string, today: Civil)
    requires narrow != "all" && wide != "all"
    requires MonthsBack(narrow) <= MonthsBack(wide)
    ensures FilterByRange(FilterByRange(data, wide, today), narrow, today) == FilterByRange(data, narrow, today)
    ensures forall x :: x in FilterByRange(data, narrow, today) ==> x in FilterByRange(data, wide, today)
  {
    CutoffIsMonthsBack(narrow, today);
    CutoffIsMonthsBack(wide, today);
    MonthsBeforeMonotone(today, MonthsBack(narrow), MonthsBack(wide));
    var keepWide := (x: ProgressRecord) => InRange(x, wide, today);
    var keepNarrow := (x: ProgressRecord) => InRange(x, narrow, today);
    FilterFilter(data, keepWide, keepNarrow, keepNarrow);
  }

  /** One point of the chart: the date and the two plotted values of a record. */
  datatype ChartPoint = ChartPoint(date: int, weight: Option<real>, bodyFat: Option<real>)

  function PointOf(x: ProgressRecord): ChartPoint {
    ChartPoint(x.recordDate, x.weight, x.bodyFat)
  }

  function Points(s: seq<ProgressRecord>): (r: seq<ChartPoint>)
    ensures |r| == |s| && forall k :: 0 <= k < |s| ==> r[k] == PointOf(s[k])
  {
    seq(|s|, k requires 0 <= k < |s| => PointOf(s[k]))
  }

  /**
   * The chart data the effect sets: None when there are no records (the chart is then left as
   * it was), otherwise the points of the records in range, oldest first.
   */
  function ChartUpdate(data: seq<ProgressRecord>, range: string, today: Civil): (r: Option<seq<ChartPoint>>)
    ensures r.None? <==> data == []
    ensures r.Some? ==> |r.value| == |FilterByRange(data, range, today)|
    ensures r.Some? ==> forall i, j :: 0 <= i < j < |r.value| ==> r.value[i].date <= r.value[j].date
    ensures r.Some? ==>
      exists t :: r.value == Points(t) && multiset(t) == multiset(FilterByRange(data, range, today)) &&
        SortedBy(t, RecordDate) && SameKeyClasses(t, FilterByRange(data, range, today), RecordDate)
  {
    if data == [] then None
    else
      var filtered := FilterByRange(data, range, today);
      var sorted := SortBy(filtered, RecordDate);
      assert forall i, j :: 0 <= i < j < |sorted| ==> RecordDate(sorted[i]) <= RecordDate(sorted[j]);
      SortByStable(filtered, RecordDate);
      Some(Points(sorted))
  }

  /** The chart plots a point for every record in range and for no other record. */
  lemma ChartCoversRange(data: seq<ProgressRecord>, range: string, today: Civil, x: ProgressRecord)
    requires data != []
    ensures x in data && InRange(x, range, today) ==> PointOf(x) in ChartUpdate(data, range, today).value
    ensures forall p :: p in ChartUpdate(data, range, today).value ==>
      exists y :: y in data && InRange(y, range, today) && p == PointOf(y)
  {
    var filtered := FilterByRange(data, range, today);
    var sorted := SortBy(filtered, RecordDate);
    SortByMembers(filtered, RecordDate);
    var pts := Points(sorted);
    if x in data && InRange(x, range, today) {
      var k :| 0 <= k < |sorted| && sorted[k] == x;
      assert pts[k] == PointOf(x);
    }
    forall p | p in pts ensures exists y :: y in data && InRange(y, range, today) && p == PointOf(y) {
      var k :| 0 <= k < |pts| && pts[k] == p;
      assert sorted[k] in filtered;
    }
  }

  /** The statistics box: `totalChange` and `weeklyChange` before their `toFixed` formatting. */
  datatype WeightStats = WeightStats(startWeight: real, currentWeight: real, totalChange: real, totalDays: int, weeklyChange: Num)

  /** `Math.round((end - start) / (1000 * 60 * 60 * 24))`. */
  function SpanDays(start: int, end: int): int {
    Round((end - start) as real / MsPerDay as real)
  }

  /** A record with a weight no other weighed record is dated before. */
  predicate EarliestWeighed(x: ProgressRecord, data: seq<ProgressRecord>) {
    x in data && Weighed(x) && forall y :: y in data && Weighed(y) ==> x.recordDate <= y.recordDate
  }

  /** A record with a weight no other weighed record is dated after. */
  predicate LatestWeighed(x: ProgressRecord, data: seq<ProgressRecord>) {
    x in data && Weighed(x) && forall y :: y in data && Weighed(y) ==> y.recordDate <= x.recordDate
  }

  /**
   * `calculateStats`, over all records whatever the range: null below two records or two weighed
   * records; otherwise the change from the earliest weighed record to the latest, the span in
   * whole days, and the change per week, which divides by zero when that span rounds to 0.
   */
  function CalculateStats(data: seq<ProgressRecord>): (r: Option<WeightStats>)
    ensures r.None? <==> |data| < 2 || Count(data, Weighed) < 2
    ensures r.Some? ==>
      exists first, last :: EarliestWeighed(first, data) && LatestWeighed(last, data) &&
        first.weight == Some(r.value.startWeight) && last.weight == Some(r.value.currentWeight) &&
        r.value.totalDays == SpanDays(first.recordDate, last.recordDate)
    ensures r.Some? ==>
      exists i, k :: FirstLeastAt(Filter(data, Weighed), RecordDate, i) && LastGreatestAt(Filter(data, Weighed), RecordDate, k) &&
        Filter(data, Weighed)[i].weight == Some(r.value.startWeight) && Filter(data, Weighed)[k].weight == Some(r.value.currentWeight)
    ensures r.Some? ==> r.value.totalChange == r.value.currentWeight - r.value.startWeight
    ensures r.Some? ==> r.value.totalDays >= 0
    ensures r.Some? ==> r.value.weeklyChange == Scale(Div(r.value.totalChange, r.value.totalDays as real), 7.0)
  {
    FilterLength(data, Weighed);
    if |data| < 2 then None
    else
      var weighed := Filter(data, Weighed);
      var sorted := SortBy(weighed, RecordDate);
      if |sorted| < 2 then None
      else
        var first, last := sorted[0], Last(sorted);
        StatsEnds(data, weighed, sorted);
        var change := last.weight.value - first.weight.value;
        var days := SpanDays(first.recordDate, last.recordDate);
        SpanDaysNonNegative(first.recordDate, last.recordDate);
        Some(WeightStats(first.weight.value, last.weight.value, change, days, Scale(Div(change, days as real), 7.0)))
  }

  lemma StatsEnds(data: seq<ProgressRecord>, weighed: seq<ProgressRecord>, sorted: seq<ProgressRecord>)
    requires weighed == Filter(data, Weighed) && sorted == SortBy(weighed, RecordDate) && |sorted| >= 2
    ensures EarliestWeighed(sorted[0], data) && LatestWeighed(Last(sorted), data)
    ensures sorted[0].recordDate <= Last(sorted).recordDate
    ensures exists i, k :: FirstLeastAt(weighed, RecordDate, i) && LastGreatestAt(weighed, RecordDate, k) &&
                          weighed[i] == sorted[0] && weighed[k] == Last(sorted)
  {
    SortByFirstIsFirstLeast(weighed, RecordDate);
    SortByLastIsLastGreatest(weighed, RecordDate);
    SortByFirstIsLeast(weighed, RecordDate);
    SortByLastIsGreatest(weighed, RecordDate);
    forall y | y in data && Weighed(y) ensures y in weighed {
      var k :| 0 <= k < |data| && data[k] == y;
    }
  }

  lemma SpanDaysNonNegative(start: int, end: int)
    requires start <= end
    ensures SpanDays(start, end) >= 0
  {
    assert (end - start) as real / MsPerDay as real >= 0.0;
  }

  /** Weighed records all on the same instant give a zero-day span and, for a real change, an infinite weekly rate. */
  lemma StatsOnOneInstant(data: seq<ProgressRecord>)
    requires CalculateStats(data).Some?
    requires CalculateStats(data).value.totalDays == 0 && CalculateStats(data).value.totalChange != 0.0
    ensures !CalculateStats(data).value.weeklyChange.Fin?
  {
  }
}
