/**
 * The meal editor: the list of foods of the meal being edited (add, remove, change the
 * servings of one food), the clamp on typed servings, the running nutrition totals, and the
 * preconditions and payloads of the meal and meal-plan submissions.
 */
module MealForm {
  import opened Js
  import opened Seqs
  import opened Nutrition

  /** `Math.max(0.1, Math.min(10, parseFloat(quantity) || 0.1))`, the parse given as an Option (None = NaN). */
  function ClampQuantity(parsed: Option<real>): (q: real)
    ensures 0.1 <= q <= 10.0
    ensures (parsed.None? || parsed.value == 0.0) ==> q == 0.1
    ensures parsed.Some? && 0.1 <= parsed.value <= 10.0 ==> q == parsed.value
    ensures parsed.Some? && parsed.value > 10.0 ==> q == 10.0
    ensures parsed.Some? && parsed.value < 0.1 ==> q == 0.1
  {
    var x := RealOr(parsed, 0.1);
    var upper := if x < 10.0 then x else 10.0;
    if upper > 0.1 then upper else 0.1
  }

  /** Clamping an already clamped quantity changes nothing. */
  lemma ClampIdempotent(parsed: Option<real>)
    ensures ClampQuantity(Some(ClampQuantity(parsed))) == ClampQuantity(parsed)
  {
  }

  /** What one food adds to the totals: each figure per serving times the servings, a missing one counting 0. */
  function Contribution(f: MealFood): Totals {
    var q := RealOr(f.quantity, 0.0);
    Totals(RealOr(f.info.caloriesPerServing, 0.0) * q, RealOr(f.info.protein, 0.0) * q,
           RealOr(f.info.carbs, 0.0) * q, RealOr(f.info.fat, 0.0) * q)
  }

  /** `calculateTotals`: the contributions of the foods, summed from zero. */
  function TotalsOf(foods: seq<MealFood>): Totals {
    if foods == [] then Zero
    else Plus(TotalsOf(foods[..|foods| - 1]), Contribution(foods[|foods| - 1]))
  }

  /** The totals of two lists of foods put together are the sum of their totals. */
  lemma {:induction false} TotalsAppend(a: seq<MealFood>, b: seq<MealFood>)
    ensures TotalsOf(a + b) == Plus(TotalsOf(a), TotalsOf(b))
  {
    if b == [] {
      assert a + b == a;
    } else {
      var b' := b[..|b| - 1];
      assert (a + b)[..|a + b| - 1] == a + b';
      assert (a + b)[|a + b| - 1] == b[|b| - 1];
      TotalsAppend(a, b');
    }
  }

  /** A food counted with no servings, or with no figures at all, adds nothing. */
  lemma ContributionZero(f: MealFood)
    requires f.quantity.None? || f.quantity == Some(0.0) ||
             (f.info.caloriesPerServing.None? && f.info.protein.None? && f.info.carbs.None? && f.info.fat.None?)
    ensures Contribution(f) == Zero
  {
  }

  /** The editing state of the meal form: its list of foods. */
  class MealEditor {
    var foods: seq<MealFood>

    constructor(loaded: seq<MealFood>)
      ensures foods == loaded
    {
      foods := loaded;
    }

    /** `handleAddFood`: appends the food with one serving under the tracking id `stamp` (the clock reading). */
    method AddFood(food: FoodInfo, stamp: int)
      modifies this
      ensures foods == old(foods) + [MealFood(stamp, food, Some(1.0))]
    {
      foods := foods + [MealFood(stamp, food, Some(1.0))];
    }

    /** `handleRemoveFood`: keeps exactly the foods with another tracking id, in order. */
    method RemoveFood(mealFoodId: int)
      modifies this
      ensures foods == Filter(old(foods), (f: MealFood) => f.mealFoodId != mealFoodId)
    {
      foods := Filter(foods, (f: MealFood) => f.mealFoodId != mealFoodId);
    }

    /** `handleUpdateFoodQuantity`: every food with that tracking id gets the clamped servings; the rest stay. */
    method UpdateQuantity(mealFoodId: int, parsed: Option<real>)
      modifies this
      ensures |foods| == |old(foods)|
      ensures forall k :: 0 <= k < |foods| ==>
        foods[k] == if old(foods)[k].mealFoodId == mealFoodId then old(foods)[k].(quantity := Some(ClampQuantity(parsed))) else old(foods)[k]
    {
      var q := ClampQuantity(parsed);
      foods := seq(|foods|, k requires 0 <= k < |foods| reads this =>
        if foods[k].mealFoodId == mealFoodId then foods[k].(quantity := Some(q)) else foods[k]);
    }

    /** The `reduce` of `calculateTotals`, adding into one accumulator. */
    method CalculateTotals() returns (totals: Totals)
      ensures totals == TotalsOf(foods)
    {
      totals := Zero;
      var i := 0;
      while i < |foods|
        invariant 0 <= i <= |foods|
        invariant totals == TotalsOf(foods[..i])
      {
        var food := foods[i];
        var quantity := RealOr(food.quantity, 0.0);
        totals := totals.(calories := totals.calories + RealOr(food.info.caloriesPerServing, 0.0) * quantity);
        totals := totals.(protein := totals.protein + RealOr(food.info.protein, 0.0) * quantity);
        totals := totals.(carbs := totals.carbs + RealOr(food.info.carbs, 0.0) * quantity);
        totals := totals.(fat := totals.fat + RealOr(food.info.fat, 0.0) * quantity);
        assert foods[..i + 1][..i] == foods[..i];
        i := i + 1;
      }
      assert foods[..i] == foods;
    }
  }

  /** Adding a food raises the totals by exactly one serving of it. */
  lemma AddFoodTotals(foods: seq<MealFood>, food: FoodInfo, stamp: int)
    ensures TotalsOf(foods + [MealFood(stamp, food, Some(1.0))]) ==
      Plus(TotalsOf(foods), Totals(RealOr(food.caloriesPerServing, 0.0), RealOr(food.protein, 0.0),
                                   RealOr(food.carbs, 0.0), RealOr(food.fat, 0.0)))
  {
    var added := [MealFood(stamp, food, Some(1.0))];
    TotalsAppend(foods, added);
    assert added[..0] == [];
  }

  /** Removing a food whose id was just handed out leaves the list as it was before the addition. */
  lemma RemoveUndoesAdd(foods: seq<MealFood>, food: FoodInfo, stamp: int)
    requires forall k :: 0 <= k < |foods| ==> foods[k].mealFoodId != stamp
    ensures Filter(foods + [MealFood(stamp, food, Some(1.0))], (f: MealFood) => f.mealFoodId != stamp) == foods
  {
    var p := (f: MealFood) => f.mealFoodId != stamp;
    FilterAppend(foods, [MealFood(stamp, food, Some(1.0))], p);
    FilterAll(foods, p);
  }

  /** Removing the same id twice removes no more than removing it once. */
  lemma RemoveTwice(foods: seq<MealFood>, mealFoodId: int)
    ensures Filter(Filter(foods, (f: MealFood) => f.mealFoodId != mealFoodId), (f: MealFood) => f.mealFoodId != mealFoodId) ==
      Filter(foods, (f: MealFood) => f.mealFoodId != mealFoodId)
  {
    var p := (f: MealFood) => f.mealFoodId != mealFoodId;
    FilterAll(Filter(foods, p), p);
  }

  /** The target fields of the meal-plan form, each typed text or a number copied from the loaded plan. */
  datatype PlanTargetsForm = PlanTargetsForm(dailyCalorieTarget: FormValue, proteinTarget: FormValue, carbTarget: FormValue, fatTarget: FormValue)

  /**
   * The targets of the plan payload; None is what reaches the server as `null`, which is also what
   * `JSON.stringify` makes of a `NaN` from an unreadable entry.
   */
  datatype PlanTargets = PlanTargets(dailyCalorieTarget: Option<int>, proteinTarget: Option<real>, carbTarget: Option<real>, fatTarget: Option<real>)

  /** The payload targets of `handlePlanSubmit`: the calorie target read as an integer, the others as numbers. */
  function PlanPayload(form: PlanTargetsForm, parseInt: string -> Option<int>, parseFloat: string -> Option<real>): (r: PlanTargets)
    ensures r.dailyCalorieTarget == IntOrNull(form.dailyCalorieTarget, parseInt)
    ensures r.proteinTarget == FloatOrNull(form.proteinTarget, parseFloat)
    ensures r.carbTarget == FloatOrNull(form.carbTarget, parseFloat)
    ensures r.fatTarget == FloatOrNull(form.fatTarget, parseFloat)
  {
    PlanTargets(
      IntOrNull(form.dailyCalorieTarget, parseInt),
      FloatOrNull(form.proteinTarget, parseFloat),
      FloatOrNull(form.carbTarget, parseFloat),
      FloatOrNull(form.fatTarget, parseFloat))
  }

  /** A plan saved with empty targets sends no targets at all. */
  lemma EmptyTargetsAreNull(parseInt: string -> Option<int>, parseFloat: string -> Option<real>)
    ensures PlanPayload(PlanTargetsForm(Text(""), Text(""), Text(""), Text("")), parseInt, parseFloat) == PlanTargets(None, None, None, None)
  {
  }

  /** A calorie target loaded as a number goes back as that number with its fraction cut off. */
  lemma LoadedCalorieTarget(x: real, parseInt: string -> Option<int>, parseFloat: string -> Option<real>, form: PlanTargetsForm)
    requires form.dailyCalorieTarget == Number(x) && x != 0.0
    ensures PlanPayload(form, parseInt, parseFloat).dailyCalorieTarget == Some(Trunc(x))
  {
  }

  /** `propPlanId || paramPlanId`, the empty string standing for an absent id. */
  function CurrentPlanId(propPlanId: string, paramPlanId: string): (id: string)
    ensures id == "" <==> propPlanId == "" && paramPlanId == ""
    ensures propPlanId != "" ==> id == propPlanId
    ensures propPlanId == "" ==> id == paramPlanId
  {
    if propPlanId != "" then propPlanId else paramPlanId
  }

  /** The meal saved: the form's meal with the plan id read as an integer. */
  datatype MealPayload = MealPayload(meal: Meal, planId: Option<int>)

  /** `handleMealSubmit`: refused without a plan id, otherwise the meal goes out with `parseInt(currentPlanId)`. */
  function MealSubmit(currentPlanId: string, meal: Meal, parseInt: string -> Option<int>): (r: Result<MealPayload, string>)
    ensures r.Err? <==> currentPlanId == ""
    ensures r.Err? ==> r.error == "No meal plan selected"
    ensures r.Ok? ==> r.value.meal == meal && r.value.planId == parseInt(currentPlanId)
  {
    if currentPlanId == "" then Err("No meal plan selected")
    else Ok(MealPayload(meal, parseInt(currentPlanId)))
  }
}
