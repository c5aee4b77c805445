/**
 * The records the meal pages pass around: a food as the food search returns it, a food placed
 * in a meal with its quantity, a meal with its stored totals, and the four-figure nutrition
 * summary (calories, protein, carbs, fat) the pages add up.
 */
module Nutrition {
  import opened Js

  /** A food from the catalogue; a missing figure is None. */
  datatype FoodInfo = FoodInfo(
    foodId: Option<int>,
    name: string,
    caloriesPerServing: Option<real>,
    protein: Option<real>,
    carbs: Option<real>,
    fat: Option<real>)

  /** A food in a meal: the catalogue entry, the id the meal form tracks it by, and the servings eaten. */
  datatype MealFood = MealFood(mealFoodId: int, info: FoodInfo, quantity: Option<real>)

  /** A meal of a plan. `scheduleTime` and `completedAt` are milliseconds since the epoch. */
  datatype Meal = Meal(
    mealId: int,
    name: string,
    mealType: string,
    scheduleTime: Option<int>,
    isCompleted: bool,
    completedAt: Option<int>,
    totalCalories: Option<real>,
    totalProtein: Option<real>,
    totalCarbs: Option<real>,
    totalFat: Option<real>,
    foods: seq<MealFood>)

  /** `{ calories, protein, carbs, fat }`. */
  datatype Totals = Totals(calories: real, protein: real, carbs: real, fat: real)

  const Zero: Totals := Totals(0.0, 0.0, 0.0, 0.0)

  function Plus(a: Totals, b: Totals): (r: Totals)
    ensures r.calories == a.calories + b.calories && r.protein == a.protein + b.protein
    ensures r.carbs == a.carbs + b.carbs && r.fat == a.fat + b.fat
  {
    Totals(a.calories + b.calories, a.protein + b.protein, a.carbs + b.carbs, a.fat + b.fat)
  }

  /** `getMealIcon`: the icon of the six known meal types, `utensils` for anything else. */
  function MealIcon(mealType: string): (icon: string)
    ensures mealType == "Breakfast" ==> icon == "coffee"
    ensures mealType == "Lunch" ==> icon == "hamburger"
    ensures mealType == "Snack" ==> icon == "apple-alt"
    ensures mealType == "Pre-workout" ==> icon == "drumstick-bite"
    ensures mealType == "Post-workout" ==> icon == "blender"
    ensures !(mealType in KnownMealTypes) ==> icon == "utensils"
  {
    if mealType == "Breakfast" then "coffee"
    else if mealType == "Lunch" then "hamburger"
    else if mealType == "Dinner" then "utensils"
    else if mealType == "Snack" then "apple-alt"
    else if mealType == "Pre-workout" then "drumstick-bite"
    else if mealType == "Post-workout" then "blender"
    else "utensils"
  }

  const KnownMealTypes: seq<string> := ["Breakfast", "Lunch", "Dinner", "Snack", "Pre-workout", "Post-workout"]

  /** Every type gets one of six icons; the default `utensils` goes exactly to Dinner and to the unknown types. */
  lemma MealIconCases(mealType: string)
    ensures MealIcon(mealType) in ["coffee", "hamburger", "utensils", "apple-alt", "drumstick-bite", "blender"]
    ensures MealIcon(mealType) == "utensils" <==> !(mealType in KnownMealTypes[..2] + KnownMealTypes[3..])
  {
    assert KnownMealTypes[..2] + KnownMealTypes[3..] == ["Breakfast", "Lunch", "Snack", "Pre-workout", "Post-workout"];
  }
}
