/**
 * Goal tracking as the goals list shows it: the percent of the way from a goal's start value to
 * its target (capped at 100, NaN shown as 0), the whole days left until the target date, the
 * three-way status of a goal card, and the "days left" / "days overdue" label.
 */
module Goals {
  import opened Js
  import opened Text
  import opened Calendar

  /** A goal as the server returns it; the dates are milliseconds since the epoch. */
  datatype Goal = Goal(
    goalId: int,
    goalType: string,
    description: string,
    startValue: real,
    currentValue: real,
    targetValue: real,
    startDate: int,
    targetDate: int,
    isAchieved: bool)

  /**
   * `calculateProgress`: `Math.min(Math.round((current - start) / (target - start) * 100), 100)`
   * with a NaN turned into 0. The only non-finite result left is -Infinity, which a goal whose
   * target equals its start gets once the current value falls below the start.
   */
  function GoalProgress(g: Goal): (p: Num)
    ensures p != NaN && p != PosInf
    ensures p.Fin? ==> p.r <= 100.0
    ensures g.targetValue != g.startValue ==>
      p == Fin(Min(Round(Percent(g.currentValue, g.startValue, g.targetValue)) as real, 100.0))
    ensures g.targetValue == g.startValue ==>
      (p == Fin(0.0) <==> g.currentValue == g.startValue) &&
      (p == Fin(100.0) <==> g.currentValue > g.startValue) &&
      (p == NegInf <==> g.currentValue < g.startValue)
  {
    var q := MinNum(RoundNum(Scale(Div(g.currentValue - g.startValue, g.targetValue - g.startValue), 100.0)), 100.0);
    if q == NaN then Fin(0.0) else q
  }

  /** `(current - start) / (target - start) * 100` for a target away from the start. */
  function Percent(current: real, start: real, target: real): real
    requires target != start
  {
    (current - start) / (target - start) * 100.0
  }

  function Min(a: real, b: real): real {
    if a <= b then a else b
  }

  /** `Math.round` never decreases when its argument grows. */
  lemma RoundMonotone(x: real, y: real)
    requires x <= y
    ensures Round(x) <= Round(y)
  {
    assert (x + 1.0 / 2.0).Floor as real <= x + 1.0 / 2.0 <= y + 1.0 / 2.0;
  }

  /** Dividing by a positive number keeps the order. */
  lemma DivMonotone(a: real, b: real, d: real)
    requires a <= b && d > 0.0
    ensures a / d <= b / d
  {
    var qa, qb := a / d, b / d;
    assert qa * d == a && qb * d == b;
    assert (qb - qa) * d == b - a;
  }

  /** Negating both sides of a division leaves it unchanged. */
  lemma NegateDiv(a: real, d: real)
    requires d != 0.0
    ensures a / d == (-a) / (-d)
  {
    var q := a / d;
    assert q * d == a;
    assert q * (-d) == -a;
  }

  /** A goal reached exactly shows 100, one not moved from its start shows 0. */
  lemma ProgressEndpoints(g: Goal)
    requires g.targetValue != g.startValue
    ensures g.currentValue == g.targetValue ==> GoalProgress(g) == Fin(100.0)
    ensures g.currentValue == g.startValue ==> GoalProgress(g) == Fin(0.0)
  {
    var d := g.targetValue - g.startValue;
    if g.currentValue == g.targetValue {
      assert Percent(g.currentValue, g.startValue, g.targetValue) == 100.0 by { assert d / d == 1.0; }
      assert Round(100.0) == 100;
    } else if g.currentValue == g.startValue {
      assert Percent(g.currentValue, g.startValue, g.targetValue) == 0.0;
      assert Round(0.0) == 0;
    }
  }

  /**
   * Progress is monotone in the current value in the direction of the target: moving towards
   * the target never lowers it, for a rising goal and for a falling (weight-loss) one alike.
   */
  lemma ProgressMonotone(g: Goal, c1: real, c2: real)
    requires g.targetValue != g.startValue
    requires if g.targetValue > g.startValue then c1 <= c2 else c2 <= c1
    ensures GoalProgress(g.(currentValue := c1)).r <= GoalProgress(g.(currentValue := c2)).r
  {
    var d := g.targetValue - g.startValue;
    var x1, x2 := Percent(c1, g.startValue, g.targetValue), Percent(c2, g.startValue, g.targetValue);
    if d > 0.0 {
      DivMonotone(c1 - g.startValue, c2 - g.startValue, d);
    } else {
      DivMonotone(g.startValue - c1, g.startValue - c2, -d);
      NegateDiv(c1 - g.startValue, d);
      NegateDiv(c2 - g.startValue, d);
    }
    RoundMonotone(x1, x2);
  }

  /** With no lower clamp, a current value on the far side of the start gives a progress of at most 0. */
  lemma ProgressAwayFromTarget(g: Goal)
    requires g.targetValue > g.startValue > g.currentValue || g.targetValue < g.startValue < g.currentValue
    ensures GoalProgress(g).Fin? && GoalProgress(g).r <= 0.0
  {
    ProgressMonotone(g, g.currentValue, g.startValue);
    assert g.(currentValue := g.currentValue) == g;
    ProgressEndpoints(g.(currentValue := g.startValue));
  }

  /**
   * `getDaysRemaining`: the target's midnight minus today's, in days, rounded up. Both are
   * midnights, so the division is exact and the result is the difference of the day numbers.
   */
  function DaysRemaining(targetDate: int, now: int): (d: int)
    ensures d == Day(targetDate) - Day(now)
    ensures d < 0 <==> Midnight(targetDate) < Midnight(now)
  {
    var diff := Midnight(targetDate) - Midnight(now);
    assert diff == (Day(targetDate) - Day(now)) * MsPerDay;
    CeilDiv(diff, MsPerDay)
  }

  /** `getStatusClass` on the days remaining. */
  function StatusClass(daysRemaining: int): (c: string)
    ensures c == "overdue" <==> daysRemaining < 0
    ensures c == "due-soon" <==> 0 <= daysRemaining <= 7
    ensures c == "on-track" <==> daysRemaining > 7
  {
    if daysRemaining < 0 then "overdue"
    else if daysRemaining <= 7 then "due-soon"
    else "on-track"
  }

  /** Every goal card gets exactly one of the three status classes. */
  lemma StatusClassCases(daysRemaining: int)
    ensures StatusClass(daysRemaining) in ["overdue", "due-soon", "on-track"]
  {
  }

  function Abs(d: int): nat {
    if d < 0 then -d else d
  }

  /** The label under the target date, as written: "left" only for a positive count. */
  function DaysLabel(daysRemaining: int): (text: string)
    ensures daysRemaining > 0 ==> text == " (" + NatToString(daysRemaining) + " days left)"
    ensures daysRemaining <= 0 ==> text == " (" + NatToString(Abs(daysRemaining)) + " days overdue)"
  {
    if daysRemaining > 0 then " (" + NatToString(daysRemaining) + " days left)"
    else " (" + NatToString(Abs(daysRemaining)) + " days overdue)"
  }

  /** The label calls the goal overdue exactly when no day is left, a goal due today included. */
  lemma DaysLabelSaysOverdue(daysRemaining: int)
    ensures SaysOverdue(DaysLabel(daysRemaining)) <==> daysRemaining <= 0
  {
    LabelEndings(NatToString(Abs(daysRemaining)));
  }

  /** A goal due today reads "0 days overdue" on a card whose status is 'due-soon'. */
  lemma DueTodayReadsOverdue(targetDate: int, now: int)
    requires Day(targetDate) == Day(now)
    ensures DaysLabel(DaysRemaining(targetDate, now)) == " (0 days overdue)"
    ensures StatusClass(DaysRemaining(targetDate, now)) == "due-soon"
  {
    assert NatToString(0) == "0";
  }

  /** The label as evidently intended: a goal is called overdue exactly when its status says so. */
  function CorrectedDaysLabel(daysRemaining: int): (text: string)
    ensures daysRemaining >= 0 ==> text == " (" + NatToString(daysRemaining) + " days left)"
    ensures daysRemaining < 0 ==> text == " (" + NatToString(-daysRemaining) + " days overdue)"
  {
    if daysRemaining >= 0 then " (" + NatToString(daysRemaining) + " days left)"
    else " (" + NatToString(-daysRemaining) + " days overdue)"
  }

  /** The corrected label says "overdue" if and only if the status class is 'overdue'. */
  lemma CorrectedLabelAgreesWithStatus(daysRemaining: int)
    ensures SaysOverdue(CorrectedDaysLabel(daysRemaining)) <==> StatusClass(daysRemaining) == "overdue"
  {
    LabelEndings(NatToString(Abs(daysRemaining)));
  }

  /** Of the two endings a label can have, only the overdue one calls the goal overdue. */
  lemma LabelEndings(n: string)
    ensures SaysOverdue(" (" + n + " days overdue)")
    ensures !SaysOverdue(" (" + n + " days left)")
  {
    var over := " (" + n + " days overdue)";
    assert over == (" (" + n + " days") + " overdue)";
    var left := " (" + n + " days left)";
    assert left == (" (" + n) + " days left)";
    assert left[|left| - 9..] == " days left)"[2..];
  }

  /** Whether a label ends by calling the goal overdue. */
  predicate SaysOverdue(text: string) {
    |text| >= 9 && text[|text| - 9..] == " overdue)"
  }
}
