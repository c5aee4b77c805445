/**
 * The daily meal list of a plan: the meals scheduled on the selected day in time order, the
 * nutrition eaten so far (completed meals only), marking a meal completed, and the water
 * counter with the request it sends.
 */
module MealsList {
  import opened Js
  import opened Seqs
  import opened Calendar
  import opened Nutrition

  /**
   * The filter of `fetchMeals`: a schedule time on the selected calendar day. With the time zone
   * taken as UTC, equal date, month and year is equal day number.
   */
  predicate OnDay(m: Meal, selected: int) {
    m.scheduleTime.Some? && Day(m.scheduleTime.value) == Day(selected)
  }

  /** The sort key of the comparator; every meal that passes the filter has a schedule time. */
  function ScheduleKey(m: Meal): int {
    if m.scheduleTime.Some? then m.scheduleTime.value else 0
  }

  /**
   * `fetchMeals`: filters the plan's meals to the day, then sorts the filtered array in place by
   * time. The sort is stable, so meals at the same time keep their order in the plan.
   */
  method ListMeals(planMeals: seq<Meal>, selected: int) returns (shown: seq<Meal>)
    ensures multiset(shown) == multiset(Filter(planMeals, (m: Meal) => OnDay(m, selected)))
    ensures forall m :: m in shown <==> m in planMeals && OnDay(m, selected)
    ensures SortedBy(shown, ScheduleKey)
    ensures SameKeyClasses(shown, Filter(planMeals, (m: Meal) => OnDay(m, selected)), ScheduleKey)
    ensures shown == SortBy(Filter(planMeals, (m: Meal) => OnDay(m, selected)), ScheduleKey)
  {
    var filtered := Filter(planMeals, (m: Meal) => OnDay(m, selected));
    var a := new Meal[|filtered|](k requires 0 <= k < |filtered| => filtered[k]);
    assert a[..] == filtered;
    SortInPlace(a, ScheduleKey);
    shown := a[..];
    forall m ensures m in shown <==> m in planMeals && OnDay(m, selected) {
      assert m in shown <==> m in multiset(shown);
      assert m in filtered <==> m in multiset(filtered);
      if m in planMeals && OnDay(m, selected) {
        var k :| 0 <= k < |planMeals| && planMeals[k] == m;
      }
      if m in filtered {
        var k :| 0 <= k < |filtered| && filtered[k] == m;
      }
    }
  }

  /** What a meal adds to the day: its stored totals, a missing one counting 0. */
  function MealTotals(m: Meal): Totals {
    Totals(RealOr(m.totalCalories, 0.0), RealOr(m.totalProtein, 0.0), RealOr(m.totalCarbs, 0.0), RealOr(m.totalFat, 0.0))
  }

  /** `dailyTotals`: the `reduce` that adds the totals of the completed meals only. */
  function DailyTotalsOf(meals: seq<Meal>): Totals {
    if meals == [] then Zero
    else
      var last := meals[|meals| - 1];
      var before := DailyTotalsOf(meals[..|meals| - 1]);
      if last.isCompleted then Plus(before, MealTotals(last)) else before
  }

  /** The plain sum of the meals' totals. */
  function SumTotals(meals: seq<Meal>): Totals {
    if meals == [] then Zero else Plus(SumTotals(meals[..|meals| - 1]), MealTotals(meals[|meals| - 1]))
  }

  predicate IsCompleted(m: Meal) {
    m.isCompleted
  }

  lemma {:induction false} SumTotalsAppend(a: seq<Meal>, b: seq<Meal>)
    ensures SumTotals(a + b) == Plus(SumTotals(a), SumTotals(b))
  {
    if b == [] {
      assert a + b == a;
    } else {
      var b' := b[..|b| - 1];
      assert (a + b)[..|a + b| - 1] == a + b';
      assert (a + b)[|a + b| - 1] == b[|b| - 1];
      SumTotalsAppend(a, b');
    }
  }

  /** The daily totals are the sum over exactly the completed meals. */
  lemma {:induction false} DailyTotalsAreCompletedSum(meals: seq<Meal>)
    ensures DailyTotalsOf(meals) == SumTotals(Filter(meals, IsCompleted))
  {
    if meals != [] {
      var prefix := meals[..|meals| - 1];
      var last := meals[|meals| - 1];
      DailyTotalsAreCompletedSum(prefix);
      assert meals == prefix + [last];
      FilterAppend(prefix, [last], IsCompleted);
      assert [last][1..] == [];
      SumTotalsAppend(Filter(prefix, IsCompleted), Filter([last], IsCompleted));
      if last.isCompleted {
        assert SumTotals([last]) == Plus(Zero, MealTotals(last)) by {
          assert [last][..0] == [];
        }
      }
    }
  }

  /** With no completed meal the day's totals are all zero. */
  lemma {:induction false} NothingEatenYet(meals: seq<Meal>)
    requires forall k :: 0 <= k < |meals| ==> !meals[k].isCompleted
    ensures DailyTotalsOf(meals) == Zero
  {
    if meals != [] {
      NothingEatenYet(meals[..|meals| - 1]);
    }
  }

  /** `handleMealComplete(mealId, true)` on the list: the meals with that id become completed at `now`. */
  function MarkCompleted(meals: seq<Meal>, mealId: int, now: int): (r: seq<Meal>)
    ensures |r| == |meals|
    ensures forall k :: 0 <= k < |meals| && meals[k].mealId != mealId ==> r[k] == meals[k]
    ensures forall k :: 0 <= k < |meals| && meals[k].mealId == mealId ==>
      r[k] == meals[k].(isCompleted := true, completedAt := Some(now))
  {
    seq(|meals|, k requires 0 <= k < |meals| =>
      if meals[k].mealId == mealId then meals[k].(isCompleted := true, completedAt := Some(now)) else meals[k])
  }

  /** Completing a meal that was not yet completed adds its totals to the day's totals, when its id is unique. */
  lemma {:induction false} CompletingAddsMeal(meals: seq<Meal>, k: int, now: int)
    requires 0 <= k < |meals| && !meals[k].isCompleted
    requires forall j :: 0 <= j < |meals| && j != k ==> meals[j].mealId != meals[k].mealId
    ensures DailyTotalsOf(MarkCompleted(meals, meals[k].mealId, now)) == Plus(DailyTotalsOf(meals), MealTotals(meals[k]))
  {
    var id := meals[k].mealId;
    var r := MarkCompleted(meals, id, now);
    var n := |meals| - 1;
    var prefix := meals[..n];
    assert r[..n] == MarkCompleted(prefix, id, now);
    if k == n {
      UnmarkedPrefix(prefix, id, now);
    } else {
      CompletingAddsMeal(prefix, k, now);
      assert r[n] == meals[n];
    }
  }

  lemma UnmarkedPrefix(meals: seq<Meal>, mealId: int, now: int)
    requires forall j :: 0 <= j < |meals| ==> meals[j].mealId != mealId
    ensures MarkCompleted(meals, mealId, now) == meals
  {
  }

  /** The meals of the selected day as the page holds them. */
  class DayMeals {
    var meals: seq<Meal>

    constructor()
      ensures meals == []
    {
      meals := [];
    }

    method Load(planMeals: seq<Meal>, selected: int)
      modifies this
      ensures multiset(meals) == multiset(Filter(planMeals, (m: Meal) => OnDay(m, selected)))
      ensures SortedBy(meals, ScheduleKey)
      ensures SameKeyClasses(meals, Filter(planMeals, (m: Meal) => OnDay(m, selected)), ScheduleKey)
      ensures meals == SortBy(Filter(planMeals, (m: Meal) => OnDay(m, selected)), ScheduleKey)
    {
      meals := ListMeals(planMeals, selected);
    }

    /** `handleMealComplete`: only the completion request changes the list. */
    method MealComplete(mealId: int, isCompleted: bool, now: int)
      modifies this
      ensures meals == if isCompleted then MarkCompleted(old(meals), mealId, now) else old(meals)
    {
      if isCompleted {
        meals := MarkCompleted(meals, mealId, now);
      }
    }

    /** `dailyTotals`, accumulated meal by meal. */
    method DailyTotals() returns (totals: Totals)
      ensures totals == DailyTotalsOf(meals)
    {
      totals := Zero;
      var i := 0;
      while i < |meals|
        invariant 0 <= i <= |meals|
        invariant totals == DailyTotalsOf(meals[..i])
      {
        var meal := meals[i];
        if meal.isCompleted {
          totals := totals.(calories := totals.calories + RealOr(meal.totalCalories, 0.0));
          totals := totals.(protein := totals.protein + RealOr(meal.totalProtein, 0.0));
          totals := totals.(carbs := totals.carbs + RealOr(meal.totalCarbs, 0.0));
          totals := totals.(fat := totals.fat + RealOr(meal.totalFat, 0.0));
        }
        assert meals[..i + 1][..i] == meals[..i];
        i := i + 1;
      }
      assert meals[..i] == meals;
    }
  }

  /** A water-intake record of the day, in millilitres. */
  datatype WaterRecord = WaterRecord(intakeId: int, amount: int)

  /** The request `handleAddWater` sends. */
  datatype WaterRequest = UpdateRecord(intakeId: int, amount: int) | CreateRecord(amount: int)

  function SumAmounts(records: seq<WaterRecord>): int {
    if records == [] then 0 else SumAmounts(records[..|records| - 1]) + records[|records| - 1].amount
  }

  /** `if (waterIntakeId)`: an id of 0 counts as none. */
  predicate HasRecord(intakeId: Option<int>) {
    intakeId.Some? && intakeId.value != 0
  }

  /** The request as written: update the remembered record to the new day total, or create one with `amount`. */
  function AddWaterRequest(waterIntake: int, waterIntakeId: Option<int>, amount: int): (req: WaterRequest)
    ensures HasRecord(waterIntakeId) <==> req.UpdateRecord?
    ensures req.UpdateRecord? ==> req.intakeId == waterIntakeId.value && req.amount == waterIntake + amount
    ensures req.CreateRecord? ==> req.amount == amount
  {
    if HasRecord(waterIntakeId) then UpdateRecord(waterIntakeId.value, waterIntake + amount) else CreateRecord(amount)
  }

  /** The water counter of the selected day and the record it updates. */
  class WaterTracker {
    var waterIntake: int
    var waterIntakeId: Option<int>

    constructor()
      ensures waterIntake == 0 && waterIntakeId == None
    {
      waterIntake := 0;
      waterIntakeId := None;
    }

    /** `fetchWaterIntake` on a response: the sum of the amounts and the first record's id, or 0 and none. */
    method Load(waterData: Option<seq<WaterRecord>>)
      modifies this
      ensures waterData.Some? && waterData.value != [] ==>
        waterIntake == SumAmounts(waterData.value) && waterIntakeId == Some(waterData.value[0].intakeId)
      ensures waterData.None? || waterData.value == [] ==> waterIntake == 0 && waterIntakeId == None
    {
      if waterData.Some? && |waterData.value| > 0 {
        var records := waterData.value;
        var total := 0;
        var i := 0;
        while i < |records|
          invariant 0 <= i <= |records|
          invariant total == SumAmounts(records[..i])
        {
          total := total + records[i].amount;
          assert records[..i + 1][..i] == records[..i];
          i := i + 1;
        }
        assert records[..i] == records;
        waterIntake := total;
        waterIntakeId := Some(records[0].intakeId);
      } else {
        waterIntake := 0;
        waterIntakeId := None;
      }
    }

    /** `fetchWaterIntake` when the request fails: the counter resets, the remembered id stays. */
    method LoadFailed()
      modifies this
      ensures waterIntake == 0 && waterIntakeId == old(waterIntakeId)
    {
      waterIntake := 0;
    }

    /** `handleAddWater(amount)` once the request succeeds: the counter rises by exactly `amount`. */
    method AddWater(amount: int) returns (req: WaterRequest)
      modifies this
      ensures req == AddWaterRequest(old(waterIntake), old(waterIntakeId), amount)
      ensures waterIntake == old(waterIntake) + amount && waterIntakeId == old(waterIntakeId)
    {
      req := AddWaterRequest(waterIntake, waterIntakeId, amount);
      waterIntake := waterIntake + amount;
    }
  }

  /** The day's records on the server once a request is applied; a created record gets the id `newId`. */
  function Apply(records: seq<WaterRecord>, req: WaterRequest, newId: int): (r: seq<WaterRecord>)
  {
    match req
    case CreateRecord(amount) => records + [WaterRecord(newId, amount)]
    case UpdateRecord(id, amount) =>
      seq(|records|, k requires 0 <= k < |records| => if records[k].intakeId == id then WaterRecord(id, amount) else records[k])
  }

  /**
   * As written, with two records of the day the update double counts: the first record is set to
   * the whole day's total plus `amount`, while the second record still counts on the server.
   */
  lemma AddWaterDoubleCounts()
    ensures var records := [WaterRecord(1, 100), WaterRecord(2, 200)];
      var req := AddWaterRequest(SumAmounts(records), Some(records[0].intakeId), 250);
      SumAmounts(records) + 250 == 550 && SumAmounts(Apply(records, req, 3)) == 750
  {
    var records := [WaterRecord(1, 100), WaterRecord(2, 200)];
    assert records[..1] == [WaterRecord(1, 100)];
    var after := Apply(records, UpdateRecord(1, 550), 3);
    assert after == [WaterRecord(1, 550), WaterRecord(2, 200)];
    assert after[..1] == [WaterRecord(1, 550)];
  }

  /**
   * The request that keeps the server's day total equal to the counter: update the first record
   * to its own amount plus `amount`.
   */
  function CorrectedAddWaterRequest(records: seq<WaterRecord>, amount: int): (req: WaterRequest)
    ensures records != [] && records[0].intakeId != 0 ==> req == UpdateRecord(records[0].intakeId, records[0].amount + amount)
    ensures records == [] || records[0].intakeId == 0 ==> req == CreateRecord(amount)
  {
    if records != [] && records[0].intakeId != 0 then UpdateRecord(records[0].intakeId, records[0].amount + amount)
    else CreateRecord(amount)
  }

  /** With the corrected request the server's day total rises by exactly `amount`, like the counter. */
  lemma CorrectedAddWaterKeepsTotal(records: seq<WaterRecord>, amount: int, newId: int)
    requires forall k :: 0 < k < |records| ==> records[k].intakeId != records[0].intakeId
    ensures SumAmounts(Apply(records, CorrectedAddWaterRequest(records, amount), newId)) == SumAmounts(records) + amount
  {
    var req := CorrectedAddWaterRequest(records, amount);
    if req.UpdateRecord? {
      var after := Apply(records, req, newId);
      var rest := records[1..];
      assert after[1..] == rest by {
        forall k | 0 <= k < |rest|
          ensures after[1..][k] == rest[k]
        {
          assert records[k + 1].intakeId != records[0].intakeId;
        }
      }
      assert after == [after[0]] + rest;
      assert records == [records[0]] + rest;
      SumAmountsCons(records[0], rest);
      SumAmountsCons(after[0], rest);
    } else {
      var last := WaterRecord(newId, amount);
      assert (records + [last])[..|records|] == records;
    }
  }

  lemma {:induction false} SumAmountsCons(r: WaterRecord, rest: seq<WaterRecord>)
    ensures SumAmounts([r] + rest) == r.amount + SumAmounts(rest)
  {
    if rest != [] {
      var n := |rest| - 1;
      assert ([r] + rest)[..|rest|] == [r] + rest[..n];
      SumAmountsCons(r, rest[..n]);
    } else {
      assert ([r] + rest)[..0] == [];
    }
  }

  /** The width of the water bar in percent: `Math.min((waterIntake / 2500) * 100, 100)`. */
  function WaterBarWidth(waterIntake: int): (w: real)
    ensures w <= 100.0
    ensures waterIntake >= 2500 ==> w == 100.0
    ensures waterIntake <= 2500 ==> w == waterIntake as real / 25.0
    ensures waterIntake >= 0 ==> w >= 0.0
  {
    var pct := waterIntake as real / 2500.0 * 100.0;
    if pct < 100.0 then pct else 100.0
  }

  /** More water never shortens the bar. */
  lemma WaterBarMonotone(a: int, b: int)
    requires a <= b
    ensures WaterBarWidth(a) <= WaterBarWidth(b)
  {
  }
}
