/**
 * The rule the workouts page, the meals page and the dashboard share for choosing the plan to
 * show: the first plan whose date range contains the current instant, or else the first plan;
 * and the page's plan picker, which looks a plan up by id.
 */
module Plans {
  import opened Js
  import opened Seqs

  /**
   * A workout or meal plan as far as the choice is concerned. `startDate` is None when it does
   * not read as a date; `endDate` is None when it is absent (an open-ended plan).
   */
  datatype Plan = Plan(planId: int, name: string, startDate: Option<int>, endDate: Option<int>)

  /** `startDate <= now && (!endDate || endDate >= now)`. */
  predicate Current(p: Plan, now: int) {
    p.startDate.Some? && p.startDate.value <= now && (p.endDate.None? || p.endDate.value >= now)
  }

  /** `plans.find(current) || plans[0]`, evaluated only when `plans.length > 0`; None stands for `null`. */
  function ActivePlan(plans: seq<Plan>, now: int): (r: Option<Plan>)
    ensures r.None? <==> plans == []
    ensures r.Some? ==> r.value in plans
    ensures r.Some? && Current(r.value, now) ==>
      exists k :: 0 <= k < |plans| && plans[k] == r.value && forall j :: 0 <= j < k ==> !Current(plans[j], now)
    ensures r.Some? && !Current(r.value, now) ==>
      r.value == plans[0] && forall k :: 0 <= k < |plans| ==> !Current(plans[k], now)
  {
    if plans == [] then None
    else match Find(plans, (p: Plan) => Current(p, now))
      case Some(p) => Some(p)
      case None => Some(plans[0])
  }

  /** Whenever some plan is current, the chosen one is current too. */
  lemma ActivePlanPrefersCurrent(plans: seq<Plan>, now: int, k: int)
    requires 0 <= k < |plans| && Current(plans[k], now)
    ensures ActivePlan(plans, now).Some? && Current(ActivePlan(plans, now).value, now)
  {
  }

  /** A plan list whose first plan is current always shows that first plan. */
  lemma ActivePlanFirstCurrent(plans: seq<Plan>, now: int)
    requires plans != [] && Current(plans[0], now)
    ensures ActivePlan(plans, now) == Some(plans[0])
  {
  }

  /** `handleSelectPlan`: `plans.find(plan => plan.planId === planId)`, None standing for `undefined`. */
  function SelectPlan(plans: seq<Plan>, planId: int): (r: Option<Plan>)
    ensures r.Some? ==> r.value in plans && r.value.planId == planId
    ensures r.None? <==> forall k :: 0 <= k < |plans| ==> plans[k].planId != planId
    ensures r.Some? ==> exists k :: 0 <= k < |plans| && plans[k] == r.value && forall j :: 0 <= j < k ==> plans[j].planId != planId
  {
    Find(plans, (p: Plan) => p.planId == planId)
  }

  /** Selecting the id of a listed plan whose id is unique selects exactly that plan. */
  lemma SelectListedPlan(plans: seq<Plan>, k: int)
    requires 0 <= k < |plans|
    requires forall j :: 0 <= j < |plans| && j != k ==> plans[j].planId != plans[k].planId
    ensures SelectPlan(plans, plans[k].planId) == Some(plans[k])
  {
    var r := SelectPlan(plans, plans[k].planId);
    var i :| 0 <= i < |plans| && plans[i] == r.value && forall j :: 0 <= j < i ==> plans[j].planId != plans[k].planId;
    assert i == k;
  }
}
