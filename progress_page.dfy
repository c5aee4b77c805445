/**
 * The progress overview page: the latest measurements, the change from the oldest record to the
 * newest, the split of the goals into active and completed ones, the three goals the overview
 * shows with their bars, and the BMI figure.
 */
module ProgressPage {
  import opened Js
  import opened Seqs
  import opened Progress
  import opened Goals

  /** What `getLatestStats` returns. */
  datatype LatestStats = LatestStats(
    weight: Option<real>,
    bodyFat: Option<real>,
    restingHeartRate: Option<int>,
    measurements: Option<MeasurementMap>)

  /** A record no other record is dated after. */
  predicate Newest(x: ProgressRecord, data: seq<ProgressRecord>) {
    x in data && forall y :: y in data ==> y.recordDate <= x.recordDate
  }

  /** A record no other record is dated before. */
  predicate Oldest(x: ProgressRecord, data: seq<ProgressRecord>) {
    x in data && forall y :: y in data ==> x.recordDate <= y.recordDate
  }

  /** `data[i]` is the first-listed of the records dated last. */
  predicate FirstNewestAt(data: seq<ProgressRecord>, i: int) {
    0 <= i < |data| && Newest(data[i], data) && forall j :: 0 <= j < i ==> data[j].recordDate < data[i].recordDate
  }

  /** `data[i]` is the last-listed of the records dated last. */
  predicate LastNewestAt(data: seq<ProgressRecord>, i: int) {
    0 <= i < |data| && Newest(data[i], data) && forall j :: i < j < |data| ==> data[j].recordDate < data[i].recordDate
  }

  /** `data[i]` is the first-listed of the records dated first. */
  predicate FirstOldestAt(data: seq<ProgressRecord>, i: int) {
    0 <= i < |data| && Oldest(data[i], data) && forall j :: 0 <= j < i ==> data[i].recordDate < data[j].recordDate
  }

  /**
   * `getLatestStats`: all null without records; otherwise the figures of the record dated last,
   * its measurements read as `MeasurementsOf` reads them. The descending sort is stable, so among
   * records of the last date it is the first listed.
   */
  function LatestStatsOf(data: seq<ProgressRecord>, parse: string -> Option<MeasurementMap>): (r: LatestStats)
    ensures data == [] ==> r == LatestStats(None, None, None, None)
    ensures data != [] ==>
      exists i :: FirstNewestAt(data, i) &&
        r == LatestStats(data[i].weight, data[i].bodyFat, data[i].restingHeartRate, MeasurementsOf(data[i].measurements, parse))
  {
    if data == [] then LatestStats(None, None, None, None)
    else
      var latest := SortBy(data, NegRecordDate)[0];
      SortByFirstIsFirstLeast(data, NegRecordDate);
      var i :| FirstLeastAt(data, NegRecordDate, i) && latest == data[i];
      assert FirstNewestAt(data, i) by {
        forall y | y in data ensures y.recordDate <= data[i].recordDate {
          var j :| 0 <= j < |data| && data[j] == y;
          assert NegRecordDate(data[i]) <= NegRecordDate(data[j]);
        }
        assert forall j :: 0 <= j < i ==> NegRecordDate(data[i]) < NegRecordDate(data[j]);
      }
      LatestStats(latest.weight, latest.bodyFat, latest.restingHeartRate, MeasurementsOf(latest.measurements, parse))
  }

  /** What `calculateProgress` of the overview returns, before the `toFixed(1)` formatting. */
  datatype ChangeStats = ChangeStats(weightChange: Option<real>, bodyFatChange: Option<real>)

  /** `newest && oldest ? newest - oldest : null` for an optional figure. */
  function Change(newest: Option<real>, oldest: Option<real>): (r: Option<real>)
    ensures r.Some? <==> TruthyReal(newest) && TruthyReal(oldest)
    ensures r.Some? ==> r.value == newest.value - oldest.value
  {
    if TruthyReal(newest) && TruthyReal(oldest) then Some(newest.value - oldest.value) else None
  }

  /**
   * `calculateProgress`: with fewer than two records nothing; otherwise the change of weight and
   * of body fat between the oldest and the newest record overall, null when either lacks the figure.
   * The ascending sort is stable, so the oldest is the first listed of its date and the newest the
   * last listed of its date.
   */
  function ChangeOf(data: seq<ProgressRecord>): (r: ChangeStats)
    ensures |data| < 2 ==> r == ChangeStats(None, None)
    ensures |data| >= 2 ==>
      exists i, k :: FirstOldestAt(data, i) && LastNewestAt(data, k) &&
        r == ChangeStats(Change(data[k].weight, data[i].weight), Change(data[k].bodyFat, data[i].bodyFat))
  {
    if |data| < 2 then ChangeStats(None, None)
    else
      var sorted := SortBy(data, RecordDate);
      var oldest, newest := sorted[0], Last(sorted);
      SortByFirstIsFirstLeast(data, RecordDate);
      SortByLastIsLastGreatest(data, RecordDate);
      var i :| FirstLeastAt(data, RecordDate, i) && oldest == data[i];
      var k :| LastGreatestAt(data, RecordDate, k) && newest == data[k];
      assert FirstOldestAt(data, i) by {
        forall y | y in data ensures data[i].recordDate <= y.recordDate {
          var j :| 0 <= j < |data| && data[j] == y;
          assert RecordDate(data[i]) <= RecordDate(data[j]);
        }
      }
      assert LastNewestAt(data, k) by {
        forall y | y in data ensures y.recordDate <= data[k].recordDate {
          var j :| 0 <= j < |data| && data[j] == y;
          assert RecordDate(data[j]) <= RecordDate(data[k]);
        }
      }
      ChangeStats(Change(newest.weight, oldest.weight), Change(newest.bodyFat, oldest.bodyFat))
  }

  /** A record without a weight at either end hides the weight change, whatever lies between. */
  lemma ChangeNeedsBothEnds(data: seq<ProgressRecord>, oldest: ProgressRecord, newest: ProgressRecord)
    requires |data| >= 2 && Oldest(oldest, data) && Newest(newest, data)
    requires forall y :: y in data && y.recordDate == oldest.recordDate ==> y == oldest
    requires forall y :: y in data && y.recordDate == newest.recordDate ==> y == newest
    ensures ChangeOf(data).weightChange.Some? <==> TruthyReal(newest.weight) && TruthyReal(oldest.weight)
  {
    var r := ChangeOf(data);
    var i, k :| FirstOldestAt(data, i) && LastNewestAt(data, k) &&
      r == ChangeStats(Change(data[k].weight, data[i].weight), Change(data[k].bodyFat, data[i].bodyFat));
    assert data[i] in data && data[k] in data;
    assert data[i].recordDate == oldest.recordDate && data[k].recordDate == newest.recordDate;
  }

  /**
   * Two records of one date: the latest figures are those of the first, while the change runs
   * to the second, so the current weight and the change shown can come from different records.
   */
  lemma SameDateEnds(a: ProgressRecord, b: ProgressRecord, parse: string -> Option<MeasurementMap>)
    requires a.recordDate == b.recordDate
    ensures LatestStatsOf([a, b], parse).weight == a.weight
    ensures ChangeOf([a, b]).weightChange == Change(b.weight, a.weight)
  {
    SameDateLatest([a, b], parse);
    SameDateChange([a, b]);
  }

  lemma SameDateLatest(data: seq<ProgressRecord>, parse: string -> Option<MeasurementMap>)
    requires |data| == 2 && data[0].recordDate == data[1].recordDate
    ensures LatestStatsOf(data, parse).weight == data[0].weight
  {
    forall i | FirstNewestAt(data, i) ensures i == 0 {
      assert !(data[0].recordDate < data[i].recordDate);
    }
  }

  lemma SameDateChange(data: seq<ProgressRecord>)
    requires |data| == 2 && data[0].recordDate == data[1].recordDate
    ensures ChangeOf(data).weightChange == Change(data[1].weight, data[0].weight)
  {
    forall i | FirstOldestAt(data, i) ensures i == 0 {
      assert !(data[i].recordDate < data[0].recordDate);
    }
    forall k | LastNewestAt(data, k) ensures k == 1 {
      assert !(data[1].recordDate < data[k].recordDate);
    }
  }

  predicate IsActive(g: Goal) {
    !g.isAchieved
  }

  predicate IsAchieved(g: Goal) {
    g.isAchieved
  }

  /** `goals.filter(goal => !goal.isAchieved)`. */
  function ActiveGoals(goals: seq<Goal>): (r: seq<Goal>)
    ensures forall g :: g in r <==> g in goals && !g.isAchieved
    ensures Subsequence(r, goals)
  {
    FilterMembers(goals, IsActive);
    FilterKeepsOrder(goals, IsActive);
    Filter(goals, IsActive)
  }

  /** `goals.filter(goal => goal.isAchieved)`. */
  function CompletedGoals(goals: seq<Goal>): (r: seq<Goal>)
    ensures forall g :: g in r <==> g in goals && g.isAchieved
    ensures Subsequence(r, goals)
  {
    FilterMembers(goals, IsAchieved);
    FilterKeepsOrder(goals, IsAchieved);
    Filter(goals, IsAchieved)
  }

  /** The two lists partition the goals: each goal is in exactly one, and together they hold all of them. */
  lemma GoalsPartition(goals: seq<Goal>)
    ensures |ActiveGoals(goals)| + |CompletedGoals(goals)| == |goals|
    ensures forall g :: g in goals ==> (g in ActiveGoals(goals) <==> g !in CompletedGoals(goals))
    ensures forall g :: g in ActiveGoals(goals) || g in CompletedGoals(goals) ==> g in goals
  {
    FilterPartition(goals, IsActive, IsAchieved);
  }

  /** `activeGoals.slice(0, 3)`: the goals the overview shows. */
  function OverviewGoals(active: seq<Goal>): (shown: seq<Goal>)
    ensures |shown| <= 3 && |shown| <= |active| && shown == active[..|shown|]
  {
    Take(active, 3)
  }

  /** The "view all goals" button appears when more than three goals are active. */
  predicate ViewAllGoals(active: seq<Goal>) {
    |active| > 3
  }

  /** The button appears exactly when the overview leaves some active goal out. */
  lemma ViewAllWhenHidden(active: seq<Goal>)
    ensures ViewAllGoals(active) <==> OverviewGoals(active) != active
  {
    if ViewAllGoals(active) {
      assert |OverviewGoals(active)| < |active|;
    }
  }

  /** The overview BMI: `weight / 1.75²` for a recorded weight, 'Not recorded' (None) otherwise. */
  function Bmi(weight: Option<real>): (r: Option<real>)
    ensures r.Some? <==> TruthyReal(weight)
    ensures r.Some? ==> r.value * (1.75 * 1.75) == weight.value
  {
    if TruthyReal(weight) then Some(weight.value / (1.75 * 1.75)) else None
  }

  /** The overview goal bar: the card's formula without its NaN guard. */
  function OverviewBar(g: Goal): (p: Num)
    ensures p.Fin? ==> p.r <= 100.0
  {
    MinNum(RoundNum(Scale(Div(g.currentValue - g.startValue, g.targetValue - g.startValue), 100.0)), 100.0)
  }

  /**
   * The overview bar and the goal card agree except on a goal that has not moved and whose target
   * is its start: there the bar is NaN where the card shows 0.
   */
  lemma OverviewBarMatchesCard(g: Goal)
    ensures OverviewBar(g) == NaN <==> g.targetValue == g.startValue && g.currentValue == g.startValue
    ensures OverviewBar(g) != NaN ==> OverviewBar(g) == GoalProgress(g)
  {
  }
}
