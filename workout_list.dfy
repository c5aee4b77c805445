/**
 * The workout calendar of a plan: the workouts listed for the selected date (scheduled ones for
 * today and later, completed ones for earlier days), their order, the weekday highlighting of
 * the calendar tiles, and the action each listed workout offers. `now` is the current instant.
 */
module WorkoutList {
  import opened Js
  import opened Seqs
  import opened Calendar
  import opened Workouts

  /** `selectedDate >= today`, with `today` the current day's midnight. */
  predicate ShowsScheduled(selected: int, now: int) {
    selected >= Midnight(now)
  }

  /**
   * The filter of `fetchWorkouts` as written: a workout's date, normalised to midnight, must equal
   * `selectedDate` itself, which is not normalised.
   */
  predicate ListedAsWritten(w: Workout, selected: int, now: int) {
    if ShowsScheduled(selected, now) then w.scheduledDate.Some? && Midnight(w.scheduledDate.value) == selected
    else w.completedAt.Some? && Midnight(w.completedAt.value) == selected
  }

  /** The comparator of `fetchWorkouts`: by scheduled time, a workout without one after every workout with one. */
  function ByScheduledDate(ws: seq<Workout>): (r: seq<Workout>)
    ensures multiset(r) == multiset(ws)
    ensures forall i, j :: 0 <= i < j < |r| && HasSchedule(r[i]) && HasSchedule(r[j]) ==>
      ScheduledKey(r[i]) <= ScheduledKey(r[j])
    ensures forall i, j :: 0 <= i < j < |r| && NoSchedule(r[i]) ==> NoSchedule(r[j])
    ensures SameKeyClasses(Filter(r, HasSchedule), Filter(ws, HasSchedule), ScheduledKey)
    ensures Filter(r, NoSchedule) == Filter(ws, NoSchedule)
  {
    var dated := Filter(ws, HasSchedule);
    var undated := Filter(ws, NoSchedule);
    FilterSplitMultiset(ws, HasSchedule, NoSchedule);
    var sorted := SortBy(dated, ScheduledKey);
    SortByKeeps(dated, ScheduledKey, HasSchedule);
    SortByStable(dated, ScheduledKey);
    DatedThenUndated(sorted, undated);
    SplitByDate(sorted, undated);
    sorted + undated
  }

  /** Splitting dated-then-undated workouts by the test gives back the two parts. */
  lemma SplitByDate(dated: seq<Workout>, undated: seq<Workout>)
    requires forall k :: 0 <= k < |dated| ==> HasSchedule(dated[k])
    requires forall k :: 0 <= k < |undated| ==> NoSchedule(undated[k])
    ensures Filter(dated + undated, HasSchedule) == dated
    ensures Filter(dated + undated, NoSchedule) == undated
  {
    FilterAppend(dated, undated, HasSchedule);
    FilterAppend(dated, undated, NoSchedule);
    FilterAll(dated, HasSchedule);
    FilterAll(undated, NoSchedule);
    FilterNone(dated, NoSchedule);
    FilterNone(undated, HasSchedule);
  }

  /** Sorted workouts with a date followed by workouts without one are in comparator order. */
  lemma DatedThenUndated(dated: seq<Workout>, undated: seq<Workout>)
    requires SortedBy(dated, ScheduledKey)
    requires forall k :: 0 <= k < |dated| ==> HasSchedule(dated[k])
    requires forall k :: 0 <= k < |undated| ==> NoSchedule(undated[k])
    ensures var r := dated + undated;
      forall i, j :: 0 <= i < j < |r| && HasSchedule(r[i]) && HasSchedule(r[j]) ==> ScheduledKey(r[i]) <= ScheduledKey(r[j])
    ensures var r := dated + undated;
      forall i, j :: 0 <= i < j < |r| && NoSchedule(r[i]) ==> NoSchedule(r[j])
  {
  }

  function DayWorkoutsAsWritten(workouts: seq<Workout>, selected: int, now: int): (r: seq<Workout>)
    ensures forall w :: w in r <==> w in workouts && ListedAsWritten(w, selected, now)
    ensures multiset(r) == multiset(Filter(workouts, (w: Workout) => ListedAsWritten(w, selected, now)))
    ensures forall i, j :: 0 <= i < j < |r| && HasSchedule(r[i]) && HasSchedule(r[j]) ==>
      ScheduledKey(r[i]) <= ScheduledKey(r[j])
    ensures forall i, j :: 0 <= i < j < |r| && NoSchedule(r[i]) ==> NoSchedule(r[j])
    ensures SameKeyClasses(Filter(r, HasSchedule), Filter(Filter(workouts, (w: Workout) => ListedAsWritten(w, selected, now)), HasSchedule), ScheduledKey)
    ensures Filter(r, NoSchedule) == Filter(Filter(workouts, (w: Workout) => ListedAsWritten(w, selected, now)), NoSchedule)
  {
    var kept := Filter(workouts, (w: Workout) => ListedAsWritten(w, selected, now));
    var r := ByScheduledDate(kept);
    SameMembers(r, kept);
    FilterMembers(workouts, (w: Workout) => ListedAsWritten(w, selected, now));
    r
  }

  /**
   * The workouts list starts with `selectedDate` set to the current instant. Unless that instant is
   * exactly midnight, no workout date normalised to midnight can equal it, so the list is empty.
   */
  lemma InitialSelectionListsNothing(workouts: seq<Workout>, now: int)
    requires now % MsPerDay != 0
    ensures DayWorkoutsAsWritten(workouts, now, now) == []
  {
  }

  /** The filter with the selected date normalised to its day, which is what the comparison is meant to do. */
  predicate Listed(w: Workout, selected: int, now: int) {
    if ShowsScheduled(Midnight(selected), now) then w.scheduledDate.Some? && Day(w.scheduledDate.value) == Day(selected)
    else w.completedAt.Some? && Day(w.completedAt.value) == Day(selected)
  }

  /**
   * `fetchWorkouts` with the day comparison: for today or a later day, the workouts scheduled on
   * that day; for an earlier day, the workouts completed on it; by scheduled time, undated last.
   */
  function DayWorkouts(workouts: seq<Workout>, selected: int, now: int): (r: seq<Workout>)
    ensures forall w :: w in r <==> w in workouts && Listed(w, selected, now)
    ensures multiset(r) == multiset(Filter(workouts, (w: Workout) => Listed(w, selected, now)))
    ensures forall i, j :: 0 <= i < j < |r| && HasSchedule(r[i]) && HasSchedule(r[j]) ==>
      ScheduledKey(r[i]) <= ScheduledKey(r[j])
    ensures forall i, j :: 0 <= i < j < |r| && NoSchedule(r[i]) ==> NoSchedule(r[j])
    ensures SameKeyClasses(Filter(r, HasSchedule), Filter(Filter(workouts, (w: Workout) => Listed(w, selected, now)), HasSchedule), ScheduledKey)
    ensures Filter(r, NoSchedule) == Filter(Filter(workouts, (w: Workout) => Listed(w, selected, now)), NoSchedule)
  {
    var kept := Filter(workouts, (w: Workout) => Listed(w, selected, now));
    var r := ByScheduledDate(kept);
    SameMembers(r, kept);
    FilterMembers(workouts, (w: Workout) => Listed(w, selected, now));
    r
  }

  /** On first display the corrected list shows exactly the workouts scheduled today. */
  lemma InitialSelectionListsToday(workouts: seq<Workout>, now: int)
    ensures forall w :: w in DayWorkouts(workouts, now, now) <==>
      w in workouts && w.scheduledDate.Some? && Day(w.scheduledDate.value) == Day(now)
  {
    MidnightSameDay(now, now);
  }

  /** For a date picked on the calendar, which is a midnight, the corrected list is the list as written. */
  lemma AgreesOnMidnights(workouts: seq<Workout>, selected: int, now: int)
    requires selected % MsPerDay == 0
    ensures DayWorkouts(workouts, selected, now) == DayWorkoutsAsWritten(workouts, selected, now)
  {
    assert Midnight(selected) == selected;
    forall w ensures Listed(w, selected, now) == ListedAsWritten(w, selected, now) {
      if w.scheduledDate.Some? {
        MidnightSameDay(w.scheduledDate.value, selected);
      }
      if w.completedAt.Some? {
        MidnightSameDay(w.completedAt.value, selected);
      }
    }
    FilterSame(workouts, (w: Workout) => Listed(w, selected, now), (w: Workout) => ListedAsWritten(w, selected, now));
  }

  /** `tileClassName`: in the month view, Monday to Friday are highlighted. */
  function TileClass(date: int, view: string): (c: string)
    ensures c == "has-workout" <==> view == "month" && WeekDay(date) != 0 && WeekDay(date) != 6
    ensures c != "has-workout" ==> c == ""
  {
    if view != "month" then ""
    else if WeekDay(date) != 0 && WeekDay(date) != 6 then "has-workout"
    else ""
  }

  /** The highlighting repeats every week. */
  lemma TileClassWeekly(date: int, view: string)
    ensures TileClass(date + 7 * MsPerDay, view) == TileClass(date, view)
  {
    assert Day(date + 7 * MsPerDay) == Day(date) + 7;
  }

  /** `isPastDate`: the selected date lies before today's midnight. */
  predicate IsPastDate(selected: int, now: int) {
    selected < Midnight(now)
  }

  datatype WorkoutAction = CompletedBadge | LogWorkout | StartWorkout

  /** The action of a listed workout: a badge once completed, else "Log" on a past date, else "Start". */
  function ActionFor(w: Workout, selected: int, now: int): (a: WorkoutAction)
    ensures a == CompletedBadge <==> w.isCompleted
    ensures a == LogWorkout <==> !w.isCompleted && IsPastDate(selected, now)
    ensures a == StartWorkout <==> !w.isCompleted && !IsPastDate(selected, now)
  {
    if w.isCompleted then CompletedBadge
    else if IsPastDate(selected, now) then LogWorkout
    else StartWorkout
  }

  /** The action follows the list: never "Log" where scheduled workouts are listed, never "Start" where completed ones are. */
  lemma ActionMatchesView(w: Workout, selected: int, now: int)
    ensures ShowsScheduled(selected, now) ==> ActionFor(w, selected, now) != LogWorkout
    ensures !ShowsScheduled(selected, now) ==> ActionFor(w, selected, now) != StartWorkout
  {
  }
}
