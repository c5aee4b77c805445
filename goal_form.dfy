/**
 * The goal form: the fields it starts with, the fields it fills in from a goal being edited, and
 * what its submit handler refuses and sends. A date field holds what an `<input type="date">`
 * holds, a calendar day, represented by the time of that day's midnight; `None` is an empty or
 * unreadable field (`new Date('')` is an invalid date).
 */
module GoalForm {
  import opened Js
  import opened Calendar

  /** The goal types the form offers. */
  const GoalTypes: seq<string> := ["Weight", "Strength", "Cardio", "Measurement", "Habit", "Other"]

  /** `formData`. */
  datatype GoalFormData = GoalFormData(
    goalType: string,
    description: string,
    startValue: FormValue,
    currentValue: FormValue,
    targetValue: FormValue,
    startDate: Option<int>,
    targetDate: Option<int>,
    isAchieved: bool)

  /** A goal as `getGoal` returns it: an absent text is "", an absent number or flag is None. */
  datatype LoadedGoal = LoadedGoal(
    goalType: string,
    description: string,
    startValue: Option<real>,
    currentValue: Option<real>,
    targetValue: Option<real>,
    startDate: int,
    targetDate: int,
    isAchieved: Option<bool>)

  /** What `createGoal` / `updateGoal` receive; a None number is the NaN of an unreadable field. */
  datatype GoalPayload = GoalPayload(
    goalType: string,
    description: string,
    startValue: Option<real>,
    currentValue: Option<real>,
    targetValue: Option<real>,
    startDate: Option<int>,
    targetDate: Option<int>,
    isAchieved: bool)

  /** The form of a new goal: a weight goal starting today, everything else blank. */
  function InitialForm(now: int): (f: GoalFormData)
    ensures f.goalType in GoalTypes && f.goalType == GoalTypes[0]
    ensures f.startDate == Some(Midnight(now)) && Day(f.startDate.value) == Day(now)
    ensures !Truthy(f.startValue) && !Truthy(f.currentValue) && !Truthy(f.targetValue)
    ensures f.targetDate.None? && !f.isAchieved
  {
    GoalFormData("Weight", "", Text(""), Text(""), Text(""), Some(Midnight(now)), None, false)
  }

  /** `fetchGoal`: the form filled from a goal, with defaults for what is missing and the dates cut to their day. */
  function LoadForm(g: LoadedGoal): (f: GoalFormData)
    ensures f.goalType == if g.goalType != "" then g.goalType else "Weight"
    ensures f.description == g.description
    ensures f.startValue == ValueField(g.startValue)
    ensures f.currentValue == ValueField(g.currentValue)
    ensures f.targetValue == ValueField(g.targetValue)
    ensures f.startDate == Some(Midnight(g.startDate)) && f.targetDate == Some(Midnight(g.targetDate))
    ensures f.isAchieved <==> g.isAchieved == Some(true)
  {
    GoalFormData(
      if g.goalType != "" then g.goalType else "Weight",
      g.description,
      ValueField(g.startValue),
      ValueField(g.currentValue),
      ValueField(g.targetValue),
      Some(Midnight(g.startDate)),
      Some(Midnight(g.targetDate)),
      g.isAchieved.Some? && g.isAchieved.value)
  }

  /** A loaded goal keeps a listed type, and one without a type becomes a weight goal. */
  lemma LoadedTypeListed(g: LoadedGoal)
    requires g.goalType in GoalTypes || g.goalType == ""
    ensures LoadForm(g).goalType in GoalTypes
  {
  }

  /**
   * `handleSubmit`: a target date before today's midnight is refused; otherwise the form goes out
   * with the start value standing in for an empty current value and the three values parsed.
   */
  function Submit(form: GoalFormData, now: int, parseFloat: string -> Option<real>): (r: Result<GoalPayload, string>)
    ensures r.Err? <==> form.targetDate.Some? && Day(form.targetDate.value) < Day(now)
    ensures r.Err? ==> r.error == "Target date must be in the future"
    ensures r.Ok? ==> r.value.startValue == ParseFloat(form.startValue, parseFloat)
    ensures r.Ok? ==>
      r.value.currentValue == ParseFloat(if Truthy(form.currentValue) then form.currentValue else form.startValue, parseFloat)
    ensures r.Ok? ==> r.value.targetValue == ParseFloat(form.targetValue, parseFloat)
    ensures r.Ok? ==>
      r.value.goalType == form.goalType && r.value.description == form.description &&
      r.value.startDate == form.startDate && r.value.targetDate == form.targetDate && r.value.isAchieved == form.isAchieved
  {
    BeforeMidnight(form.targetDate.GetOr(0), now);
    if form.targetDate.Some? && form.targetDate.value < Midnight(now) then
      Err("Target date must be in the future")
    else
      var current := if Truthy(form.currentValue) then form.currentValue else form.startValue;
      Ok(GoalPayload(form.goalType, form.description,
        ParseFloat(form.startValue, parseFloat), ParseFloat(current, parseFloat), ParseFloat(form.targetValue, parseFloat),
        form.startDate, form.targetDate, form.isAchieved))
  }

  /** A target date of today is accepted, as is every later one. */
  lemma TodayIsAccepted(form: GoalFormData, now: int, parseFloat: string -> Option<real>)
    requires form.targetDate.Some? && form.targetDate.value >= Midnight(now)
    ensures Submit(form, now, parseFloat).Ok?
  {
    BeforeMidnight(form.targetDate.value, now);
  }

  /** A new goal whose current value is left blank is saved as standing at its start value. */
  lemma BlankCurrentIsStart(form: GoalFormData, now: int, parseFloat: string -> Option<real>)
    requires !Truthy(form.currentValue)
    requires Submit(form, now, parseFloat).Ok?
    ensures Submit(form, now, parseFloat).value.currentValue == Submit(form, now, parseFloat).value.startValue
  {
  }

  /**
   * Editing a goal and saving it unchanged sends back its values and its dates cut to the day,
   * provided the values are non-zero and the target day has not passed.
   */
  lemma LoadThenSubmit(g: LoadedGoal, now: int, parseFloat: string -> Option<real>)
    requires TruthyReal(g.startValue) && TruthyReal(g.currentValue) && TruthyReal(g.targetValue)
    requires Day(g.targetDate) >= Day(now)
    ensures Submit(LoadForm(g), now, parseFloat).Ok?
    ensures Submit(LoadForm(g), now, parseFloat).value ==
      GoalPayload(if g.goalType != "" then g.goalType else "Weight", g.description,
        g.startValue, g.currentValue, g.targetValue,
        Some(Midnight(g.startDate)), Some(Midnight(g.targetDate)), g.isAchieved == Some(true))
  {
    MidnightSameDay(g.targetDate, g.targetDate);
  }

  /** A blank current value on a loaded goal whose current value was 0 is saved as the start value. */
  lemma LoadedZeroCurrentBecomesStart(g: LoadedGoal, now: int, parseFloat: string -> Option<real>)
    requires g.currentValue == Some(0.0) && TruthyReal(g.startValue)
    requires Day(g.targetDate) >= Day(now)
    ensures Submit(LoadForm(g), now, parseFloat).Ok?
    ensures Submit(LoadForm(g), now, parseFloat).value.currentValue == g.startValue
  {
    MidnightSameDay(g.targetDate, g.targetDate);
  }
}
