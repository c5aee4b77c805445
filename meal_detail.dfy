/**
 * The meal detail view: the completion toggle, the per-food figures of the foods table, and
 * the summary cards.
 */
module MealDetail {
  import opened Js
  import opened Nutrition

  /** `handleToggleComplete` once the request succeeds: completes an open meal at `now`, reopens a completed one. */
  function ToggleComplete(meal: Meal, now: int): (r: Meal)
    ensures r.isCompleted == !meal.isCompleted
    ensures r.completedAt == if meal.isCompleted then None else Some(now)
    ensures r.(isCompleted := meal.isCompleted, completedAt := meal.completedAt) == meal
  {
    if !meal.isCompleted then meal.(isCompleted := true, completedAt := Some(now))
    else meal.(isCompleted := false, completedAt := None)
  }

  /** Toggling twice restores the meal except that it no longer remembers when it was completed. */
  lemma ToggleTwice(meal: Meal, now: int, later: int)
    ensures ToggleComplete(ToggleComplete(meal, now), later) ==
      if meal.isCompleted then meal.(completedAt := Some(later)) else meal.(completedAt := None)
  {
  }

  /**
   * A figure of a food row as the meal endpoint sends it: a number, `null`, or absent
   * (`undefined`). In a product `null` reads as 0 and `undefined` as `NaN`.
   */
  datatype Figure = Value(x: real) | Null | Missing

  /** The number a figure stands for in arithmetic, None for the `NaN` of a missing one. */
  function AsNumber(f: Figure): (r: Option<real>)
    ensures r.None? <==> f.Missing?
    ensures f.Value? ==> r == Some(f.x)
    ensures f.Null? ==> r == Some(0.0)
  {
    match f
    case Value(x) => Some(x)
    case Null => Some(0.0)
    case Missing => None
  }

  /** A value is truthy when it is a number other than 0; `null` and `undefined` are falsy. */
  predicate TruthyFigure(f: Figure) {
    f.Value? && f.x != 0.0
  }

  /** A row of the foods table, with the catalogue figures flattened into it. */
  datatype FoodRow = FoodRow(
    mealFoodId: int,
    foodName: string,
    quantity: Figure,
    caloriesPerServing: Figure,
    protein: Figure,
    carbs: Figure,
    fat: Figure)

  /**
   * The calories cell: `Math.round(caloriesPerServing * quantity)`. A `null` factor counts as 0;
   * None stands for the `NaN` an absent factor produces.
   */
  function FoodCalories(f: FoodRow): (c: Option<int>)
    ensures c.None? <==> f.caloriesPerServing.Missing? || f.quantity.Missing?
    ensures (f.caloriesPerServing.Null? && !f.quantity.Missing?) || (f.quantity.Null? && !f.caloriesPerServing.Missing?) ==> c == Some(0)
    ensures f.caloriesPerServing.Value? && f.quantity.Value? ==>
      c.Some? && (f.caloriesPerServing.x * f.quantity.x) - 0.5 < c.value as real <= (f.caloriesPerServing.x * f.quantity.x) + 0.5
  {
    var a := AsNumber(f.caloriesPerServing);
    var b := AsNumber(f.quantity);
    if a.Some? && b.Some? then Some(Round(a.value * b.value)) else None
  }

  /** A macro cell: the macro times the servings when the macro is truthy, otherwise a dash. */
  datatype MacroCell = Dash | Grams(amount: Option<real>)

  function MacroCellOf(macro: Figure, quantity: Figure): (cell: MacroCell)
    ensures cell.Dash? <==> !TruthyFigure(macro)
    ensures cell.Grams? ==> (cell.amount.None? <==> quantity.Missing?)
    ensures cell.Grams? && quantity.Value? ==> cell.amount == Some(macro.x * quantity.x)
    ensures cell.Grams? && quantity.Null? ==> cell.amount == Some(0.0)
  {
    if TruthyFigure(macro) then
      Grams(match quantity
        case Value(q) => Some(macro.x * q)
        case Null => Some(0.0)
        case Missing => None)
    else Dash
  }

  /** The three macro cells of a food row. */
  function MacroCells(f: FoodRow): (cells: seq<MacroCell>)
    ensures |cells| == 3
    ensures cells[0] == MacroCellOf(f.protein, f.quantity)
    ensures cells[1] == MacroCellOf(f.carbs, f.quantity)
    ensures cells[2] == MacroCellOf(f.fat, f.quantity)
  {
    [MacroCellOf(f.protein, f.quantity), MacroCellOf(f.carbs, f.quantity), MacroCellOf(f.fat, f.quantity)]
  }

  /** A row shown with a `null` quantity reads 0 calories and 0 grams of every truthy macro. */
  lemma NullQuantityShowsZero(f: FoodRow)
    requires f.quantity.Null? && !f.caloriesPerServing.Missing?
    ensures FoodCalories(f) == Some(0)
    ensures forall k :: 0 <= k < 3 ==> MacroCells(f)[k] == Dash || MacroCells(f)[k] == Grams(Some(0.0))
  {
  }

  /** `food.quantity === 1 ? 'serving' : 'servings'`. */
  function ServingLabel(quantity: Figure): (text: string)
    ensures text == "serving" <==> quantity == Value(1.0)
    ensures text == "servings" <==> quantity != Value(1.0)
  {
    if quantity == Value(1.0) then "serving" else "servings"
  }

  /** The four summary cards: the meal's stored totals, 0 when absent. */
  function Summary(meal: Meal): (t: Totals)
    ensures t.calories == (if TruthyReal(meal.totalCalories) then meal.totalCalories.value else 0.0)
    ensures t.protein == (if TruthyReal(meal.totalProtein) then meal.totalProtein.value else 0.0)
    ensures t.carbs == (if TruthyReal(meal.totalCarbs) then meal.totalCarbs.value else 0.0)
    ensures t.fat == (if TruthyReal(meal.totalFat) then meal.totalFat.value else 0.0)
  {
    Totals(RealOr(meal.totalCalories, 0.0), RealOr(meal.totalProtein, 0.0), RealOr(meal.totalCarbs, 0.0), RealOr(meal.totalFat, 0.0))
  }

  /** The type shown beside the icon: `meal.type || 'Meal'`. */
  function TypeLabel(meal: Meal): (text: string)
    ensures meal.mealType != "" ==> text == meal.mealType
    ensures meal.mealType == "" ==> text == "Meal"
  {
    if meal.mealType != "" then meal.mealType else "Meal"
  }
}
