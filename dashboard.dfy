/**
 * The dashboard: the five most recently completed workouts, the next three scheduled ones, today's
 * meals of the plan in force, the weight series of the progress records and the summary figures.
 * `now` is the instant the page was rendered; everything the page fetches is passed in.
 */
module Dashboard {
  import opened Js
  import opened Seqs
  import opened Calendar
  import opened Workouts
  import opened Plans
  import opened Nutrition
  import opened MealsList
  import opened Progress

  predicate IsDone(w: Workout) {
    w.isCompleted
  }

  /** When a workout was completed; a missing time reads as the epoch, as `new Date(null)` does. */
  function CompletedTime(w: Workout): int {
    w.completedAt.GetOr(0)
  }

  /** The key of the descending comparator `completedAt(b) - completedAt(a)`. */
  function LatestFirst(w: Workout): int {
    -CompletedTime(w)
  }

  /**
   * `recentWorkouts`: the completed workouts, most recently completed first, at most five; any
   * completed workout left out was completed no later than every one shown.
   */
  function RecentWorkouts(ws: seq<Workout>): (r: seq<Workout>)
    ensures |r| == if Count(ws, IsDone) <= 5 then Count(ws, IsDone) else 5
    ensures forall w :: w in r ==> w in ws && w.isCompleted
    ensures forall i, j :: 0 <= i < j < |r| ==> CompletedTime(r[j]) <= CompletedTime(r[i])
    ensures forall w, v :: w in ws && w.isCompleted && w !in r && v in r ==> CompletedTime(w) <= CompletedTime(v)
    ensures multiset(r) <= multiset(Filter(ws, IsDone))
    ensures forall k :: KeyClass(r, LatestFirst, k) <= KeyClass(Filter(ws, IsDone), LatestFirst, k)
  {
    var done := Filter(ws, IsDone);
    var r := Take(SortBy(done, LatestFirst), 5);
    TakeSortedBy(done, LatestFirst, 5);
    FilterLength(ws, IsDone);
    RecentFacts(ws, done, r);
    r
  }

  lemma RecentFacts(ws: seq<Workout>, done: seq<Workout>, r: seq<Workout>)
    requires done == Filter(ws, IsDone) && |done| == Count(ws, IsDone)
    requires |r| == if 5 <= |done| then 5 else |done|
    requires forall x :: x in r ==> x in done
    requires SortedBy(r, LatestFirst)
    requires forall x, y :: x in done && x !in r && y in r ==> LatestFirst(y) <= LatestFirst(x)
    ensures |r| == if Count(ws, IsDone) <= 5 then Count(ws, IsDone) else 5
    ensures forall w :: w in r ==> w in ws && w.isCompleted
    ensures forall i, j :: 0 <= i < j < |r| ==> CompletedTime(r[j]) <= CompletedTime(r[i])
    ensures forall w, v :: w in ws && w.isCompleted && w !in r && v in r ==> CompletedTime(w) <= CompletedTime(v)
  {
    RecentMembers(ws, done, r);
    assert forall i, j :: 0 <= i < j < |r| ==> LatestFirst(r[i]) <= LatestFirst(r[j]);
  }

  lemma RecentMembers(ws: seq<Workout>, done: seq<Workout>, r: seq<Workout>)
    requires done == Filter(ws, IsDone)
    requires forall x :: x in r ==> x in done
    requires forall x, y :: x in done && x !in r && y in r ==> LatestFirst(y) <= LatestFirst(x)
    ensures forall w :: w in r ==> w in ws && w.isCompleted
    ensures forall w, v :: w in ws && w.isCompleted && w !in r && v in r ==> CompletedTime(w) <= CompletedTime(v)
  {
    FilterMembers(ws, IsDone);
    forall w, v | w in ws && w.isCompleted && w !in r && v in r
      ensures CompletedTime(w) <= CompletedTime(v)
    {
      assert w in done;
      assert LatestFirst(v) <= LatestFirst(w);
    }
  }

  /** `!w.isCompleted && new Date(w.scheduledDate) >= new Date()`; a workout without a date never qualifies. */
  predicate IsUpcoming(w: Workout, now: int) {
    !w.isCompleted && w.scheduledDate.Some? && w.scheduledDate.value >= now
  }

  /**
   * `upcomingWorkouts`: the workouts not yet done and scheduled from now on, soonest first, at most
   * three; any such workout left out is scheduled no sooner than every one shown.
   */
  function UpcomingWorkouts(ws: seq<Workout>, now: int): (r: seq<Workout>)
    ensures |r| == if Count(ws, (w: Workout) => IsUpcoming(w, now)) <= 3 then Count(ws, (w: Workout) => IsUpcoming(w, now)) else 3
    ensures forall w :: w in r ==> w in ws && IsUpcoming(w, now)
    ensures forall i, j :: 0 <= i < j < |r| ==> ScheduledKey(r[i]) <= ScheduledKey(r[j])
    ensures forall w, v :: w in ws && IsUpcoming(w, now) && w !in r && v in r ==> ScheduledKey(v) <= ScheduledKey(w)
    ensures multiset(r) <= multiset(Filter(ws, (w: Workout) => IsUpcoming(w, now)))
    ensures forall k :: KeyClass(r, ScheduledKey, k) <= KeyClass(Filter(ws, (w: Workout) => IsUpcoming(w, now)), ScheduledKey, k)
  {
    var upcoming := Filter(ws, (w: Workout) => IsUpcoming(w, now));
    var r := Take(SortBy(upcoming, ScheduledKey), 3);
    TakeSortedBy(upcoming, ScheduledKey, 3);
    FilterLength(ws, (w: Workout) => IsUpcoming(w, now));
    UpcomingFacts(ws, now, upcoming, r);
    r
  }

  lemma UpcomingFacts(ws: seq<Workout>, now: int, upcoming: seq<Workout>, r: seq<Workout>)
    requires upcoming == Filter(ws, (w: Workout) => IsUpcoming(w, now))
    requires forall x :: x in r ==> x in upcoming
    requires forall x, y :: x in upcoming && x !in r && y in r ==> ScheduledKey(y) <= ScheduledKey(x)
    ensures forall w :: w in r ==> w in ws && IsUpcoming(w, now)
    ensures forall w, v :: w in ws && IsUpcoming(w, now) && w !in r && v in r ==> ScheduledKey(v) <= ScheduledKey(w)
  {
    FilterMembers(ws, (w: Workout) => IsUpcoming(w, now));
    assert forall w :: w in upcoming <==> w in ws && IsUpcoming(w, now);
  }

  /** A workout completed or dated before now is never among the upcoming ones. */
  lemma UpcomingExcludesDoneAndPast(ws: seq<Workout>, now: int, w: Workout)
    requires w.isCompleted || w.scheduledDate.None? || w.scheduledDate.value < now
    ensures w !in UpcomingWorkouts(ws, now)
  {
  }

  /**
   * `todaysMeals`: nothing without meal plans; otherwise the meals of the plan in force now (the
   * rule the workouts and meals pages use) whose schedule time falls on today, in plan order.
   * `mealsOf` stands for the plan details the page fetches by id.
   */
  function TodaysMeals(mealPlans: seq<Plan>, mealsOf: int -> seq<Meal>, now: int): (r: seq<Meal>)
    ensures mealPlans == [] ==> r == []
    ensures mealPlans != [] ==>
      forall m :: m in r <==> m in mealsOf(ActivePlan(mealPlans, now).value.planId) && OnDay(m, now)
    ensures mealPlans != [] ==> |r| <= |mealsOf(ActivePlan(mealPlans, now).value.planId)|
    ensures mealPlans != [] ==> Subsequence(r, mealsOf(ActivePlan(mealPlans, now).value.planId))
    ensures mealPlans != [] ==>
      forall m :: multiset(r)[m] == if OnDay(m, now) then multiset(mealsOf(ActivePlan(mealPlans, now).value.planId))[m] else 0
  {
    if mealPlans == [] then []
    else
      var meals := mealsOf(ActivePlan(mealPlans, now).value.planId);
      FilterMembers(meals, (m: Meal) => OnDay(m, now));
      FilterKeepsOrder(meals, (m: Meal) => OnDay(m, now));
      Filter(meals, (m: Meal) => OnDay(m, now))
  }

  /** A point of the dashboard's weight chart. */
  datatype WeightPoint = WeightPoint(date: int, weight: real)

  function PointDate(p: WeightPoint): int {
    p.date
  }

  /** One point per record with a weight, carrying its date and weight, in record order. */
  function WeighedPoints(records: seq<ProgressRecord>): (points: seq<WeightPoint>)
    ensures |points| == |Filter(records, Weighed)|
    ensures forall k :: 0 <= k < |points| ==>
      points[k] == WeightPoint(Filter(records, Weighed)[k].recordDate, Filter(records, Weighed)[k].weight.value)
  {
    var weighed := Filter(records, Weighed);
    FilterMembers(records, Weighed);
    seq(|weighed|, k requires 0 <= k < |weighed| => WeightPoint(weighed[k].recordDate, weighed[k].weight.value))
  }

  /**
   * `weightProgress`: one point per record with a weight, carrying its date and weight, oldest
   * first; points of one date keep the order of their records.
   */
  function WeightProgress(records: seq<ProgressRecord>): (r: seq<WeightPoint>)
    ensures |r| == Count(records, Weighed)
    ensures forall i, j :: 0 <= i < j < |r| ==> r[i].date <= r[j].date
    ensures forall p :: p in r <==>
      exists x :: x in records && Weighed(x) && p == WeightPoint(x.recordDate, x.weight.value)
    ensures multiset(r) == multiset(WeighedPoints(records))
    ensures SameKeyClasses(r, WeighedPoints(records), PointDate)
  {
    var points := WeighedPoints(records);
    var sorted := SortBy(points, PointDate);
    FilterLength(records, Weighed);
    SortByMembers(points, PointDate);
    SortByStable(points, PointDate);
    PointsOfWeighed(records, points);
    assert forall i, j :: 0 <= i < j < |sorted| ==> PointDate(sorted[i]) <= PointDate(sorted[j]);
    sorted
  }

  /** The points made from the weighed records are exactly the pairs of date and weight of such a record. */
  lemma PointsOfWeighed(records: seq<ProgressRecord>, points: seq<WeightPoint>)
    requires var weighed := Filter(records, Weighed);
      |points| == |weighed| &&
      forall k :: 0 <= k < |weighed| ==> points[k] == WeightPoint(weighed[k].recordDate, weighed[k].weight.value)
    ensures forall p :: p in points <==>
      exists x :: x in records && Weighed(x) && p == WeightPoint(x.recordDate, x.weight.value)
  {
    var weighed := Filter(records, Weighed);
    FilterMembers(records, Weighed);
    forall p | p in points ensures exists x :: x in records && Weighed(x) && p == WeightPoint(x.recordDate, x.weight.value) {
      var k :| 0 <= k < |points| && points[k] == p;
      assert weighed[k] in records && Weighed(weighed[k]);
    }
    forall x | x in records && Weighed(x) ensures WeightPoint(x.recordDate, x.weight.value) in points {
      var k :| 0 <= k < |weighed| && weighed[k] == x;
      assert points[k] == WeightPoint(x.recordDate, x.weight.value);
    }
  }

  /** What the stats summary endpoint returns; a missing figure is None. */
  datatype StatsSummary = StatsSummary(
    completedWorkouts: Option<real>,
    currentStreak: Option<real>,
    totalCaloriesBurned: Option<real>,
    avgDailyCalories: Option<real>,
    avgWaterIntake: Option<real>)

  /** The figures the dashboard shows. */
  datatype DashboardStats = DashboardStats(
    completedWorkouts: real,
    streak: real,
    caloriesBurned: real,
    caloriesConsumed: real,
    waterIntake: real)

  /** The figures before anything has loaded. */
  const InitialStats := DashboardStats(0.0, 0.0, 0.0, 0.0, 0.0)

  /** Each figure is the summary's, with a missing or zero one shown as 0. */
  function StatsOf(s: StatsSummary): (r: DashboardStats)
    ensures r.completedWorkouts == RealOr(s.completedWorkouts, 0.0)
    ensures r.streak == RealOr(s.currentStreak, 0.0)
    ensures r.caloriesBurned == RealOr(s.totalCaloriesBurned, 0.0)
    ensures r.caloriesConsumed == RealOr(s.avgDailyCalories, 0.0)
    ensures r.waterIntake == RealOr(s.avgWaterIntake, 0.0)
  {
    DashboardStats(
      RealOr(s.completedWorkouts, 0.0), RealOr(s.currentStreak, 0.0), RealOr(s.totalCaloriesBurned, 0.0),
      RealOr(s.avgDailyCalories, 0.0), RealOr(s.avgWaterIntake, 0.0))
  }

  /** An empty summary shows the same figures as the page before loading. */
  lemma EmptySummaryShowsInitial()
    ensures StatsOf(StatsSummary(None, None, None, None, None)) == InitialStats
  {
  }
}
