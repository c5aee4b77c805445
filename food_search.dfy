/**
 * The food search panel of the meal form: the query it sends, the custom food form and its
 * submit check, and which of its five result panels it shows.
 */
module FoodSearch {
  import opened Js
  import opened Text

  /** The query parameters of `searchFoods`, by name. */
  type Params = map<string, string>

  /**
   * What `handleSearch` sends: None when the term trims to nothing and no category is selected
   * (the page only shows a hint); otherwise `q` with the term as typed, present exactly when it
   * does not trim to nothing, and `category` exactly when one is selected.
   */
  function SearchRequest(term: string, category: string): (r: Option<Params>)
    ensures r.None? <==> Trim(term) == "" && category == ""
    ensures r.Some? ==> r.value.Keys <= {"q", "category"}
    ensures r.Some? ==> ("q" in r.value <==> Trim(term) != "") && ("q" in r.value ==> r.value["q"] == term)
    ensures r.Some? ==> ("category" in r.value <==> category != "") && ("category" in r.value ==> r.value["category"] == category)
  {
    if Trim(term) == "" && category == "" then None
    else
      var withQ: Params := if Trim(term) != "" then map["q" := term] else map[];
      Some(if category != "" then withQ["category" := category] else withQ)
  }

  /** `handleSearch`: the guard, then the parameters filled in one condition at a time. */
  method HandleSearch(term: string, category: string) returns (request: Option<Params>)
    ensures request == SearchRequest(term, category)
  {
    if Trim(term) == "" && category == "" {
      return None;
    }
    var params: Params := map[];
    if Trim(term) != "" {
      params := params["q" := term];
    }
    if category != "" {
      params := params["category" := category];
    }
    request := Some(params);
  }

  /** The custom food form. */
  datatype CustomFood = CustomFood(
    name: string,
    brand: string,
    servingSize: real,
    servingUnit: string,
    caloriesPerServing: real,
    protein: real,
    carbs: real,
    fat: real)

  /** The form as it opens: 100 g servings, every other figure 0, no name or brand. */
  const InitialCustomFood := CustomFood("", "", 100.0, "g", 0.0, 0.0, 0.0, 0.0)

  /**
   * `handleCustomFoodChange`: the name, brand and unit keep the input as typed; every other field
   * takes `parseFloat(value) || 0`. A name that is not a field of the form leaves the food as it was.
   */
  function HandleCustomFoodChange(food: CustomFood, name: string, value: string, parseFloat: string -> Option<real>): (r: CustomFood)
    ensures name == "name" ==> r == food.(name := value)
    ensures name == "brand" ==> r == food.(brand := value)
    ensures name == "servingUnit" ==> r == food.(servingUnit := value)
    ensures name == "servingSize" ==> r == food.(servingSize := RealOr(parseFloat(value), 0.0))
    ensures name == "caloriesPerServing" ==> r == food.(caloriesPerServing := RealOr(parseFloat(value), 0.0))
    ensures name == "protein" ==> r == food.(protein := RealOr(parseFloat(value), 0.0))
    ensures name == "carbs" ==> r == food.(carbs := RealOr(parseFloat(value), 0.0))
    ensures name == "fat" ==> r == food.(fat := RealOr(parseFloat(value), 0.0))
    ensures name !in ["name", "brand", "servingUnit", "servingSize", "caloriesPerServing", "protein", "carbs", "fat"] ==> r == food
  {
    var number := RealOr(parseFloat(value), 0.0);
    if name == "name" then food.(name := value)
    else if name == "brand" then food.(brand := value)
    else if name == "servingUnit" then food.(servingUnit := value)
    else if name == "servingSize" then food.(servingSize := number)
    else if name == "caloriesPerServing" then food.(caloriesPerServing := number)
    else if name == "protein" then food.(protein := number)
    else if name == "carbs" then food.(carbs := number)
    else if name == "fat" then food.(fat := number)
    else food
  }

  /** A figure that does not parse, or parses to 0, is stored as 0. */
  lemma UnparsableFigureIsZero(food: CustomFood, value: string, parseFloat: string -> Option<real>)
    requires parseFloat(value).None? || parseFloat(value) == Some(0.0)
    ensures HandleCustomFoodChange(food, "protein", value, parseFloat).protein == 0.0
    ensures HandleCustomFoodChange(food, "caloriesPerServing", value, parseFloat).caloriesPerServing == 0.0
  {
  }

  /** What `createFood` receives. */
  datatype NewFood = NewFood(food: CustomFood, isCustom: bool)

  /** `handleAddCustomFood`: refused without a name; otherwise the form, marked custom. */
  function AddCustomFood(food: CustomFood): (r: Result<NewFood, string>)
    ensures r.Err? <==> food.name == ""
    ensures r.Err? ==> r.error == "Food name is required"
    ensures r.Ok? ==> r.value.food == food && r.value.isCustom
  {
    if food.name == "" then Err("Food name is required") else Ok(NewFood(food, true))
  }

  /** The form as it opens is refused; once a name is typed it is accepted, whatever else it holds. */
  lemma NamedFoodIsAccepted(food: CustomFood, value: string, parseFloat: string -> Option<real>)
    ensures AddCustomFood(InitialCustomFood).Err?
    ensures value != "" ==> AddCustomFood(HandleCustomFoodChange(food, "name", value, parseFloat)).Ok?
  {
  }

  datatype Panel = Loading | Results | RecentFoods | NoResults | Instructions

  /**
   * The panel under the search form, by precedence: a search in flight, then results, then the
   * recent foods (only with no term and no category), then "no foods found" (with a term or a
   * category), and otherwise the instructions.
   */
  function ResultPanel(loading: bool, results: nat, recent: nat, term: string, category: string): (p: Panel)
    ensures p == Loading <==> loading
    ensures p == Results <==> !loading && results > 0
    ensures p == RecentFoods <==> !loading && results == 0 && recent > 0 && term == "" && category == ""
    ensures p == NoResults <==> !loading && results == 0 && !(recent > 0 && term == "" && category == "") && (term != "" || category != "")
    ensures p == Instructions <==> !loading && results == 0 && recent == 0 && term == "" && category == ""
  {
    if loading then Loading
    else if results > 0 then Results
    else if recent > 0 && term == "" && category == "" then RecentFoods
    else if term != "" || category != "" then NoResults
    else Instructions
  }

  /**
   * A quick-search button as written: it sets the term and calls `handleSearch` in the same event,
   * which still sees the term and category of the render. The buttons are shown only on the
   * instructions panel, where both are empty, so the click sends nothing.
   */
  function QuickSearchAsWritten(term: string, category: string, query: string): (r: Option<Params>)
    ensures r.None? <==> Trim(term) == "" && category == ""
    ensures r.Some? && "q" in r.value ==> r.value["q"] == term
  {
    SearchRequest(term, category)
  }

  lemma QuickSearchSendsNothing(loading: bool, results: nat, recent: nat, term: string, category: string, query: string)
    requires ResultPanel(loading, results, recent, term, category) == Instructions
    ensures QuickSearchAsWritten(term, category, query).None?
  {
  }

  /** A quick search that searches for the word on the button, which is what the buttons are for. */
  function QuickSearch(category: string, query: string): (r: Option<Params>)
    ensures Trim(query) != "" ==> r.Some? && "q" in r.value && r.value["q"] == query
  {
    SearchRequest(query, category)
  }

  /** From the instructions panel, each quick-search button sends exactly its word as the query. */
  lemma QuickSearchSendsWord(loading: bool, results: nat, recent: nat, term: string, category: string, query: string)
    requires ResultPanel(loading, results, recent, term, category) == Instructions
    requires query in ["chicken", "rice", "egg", "protein", "apple"]
    ensures QuickSearch(category, query) == Some(map["q" := query])
  {
    assert query[0] != ' ' && !IsSpace(query[0]);
    TrimEmptyIff(query);
  }
}
