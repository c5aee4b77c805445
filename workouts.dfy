/**
 * A scheduled workout as the workout endpoints list it. `scheduledDate` and `completedAt` are
 * milliseconds since the epoch; None stands for a missing date.
 */
module Workouts {
  import opened Js

  datatype Workout = Workout(
    workoutId: int,
    name: string,
    scheduledDate: Option<int>,
    completedAt: Option<int>,
    isCompleted: bool)

  predicate HasSchedule(w: Workout) {
    w.scheduledDate.Some?
  }

  predicate NoSchedule(w: Workout) {
    w.scheduledDate.None?
  }

  /** The time the comparators read for the scheduled date. */
  function ScheduledKey(w: Workout): int {
    w.scheduledDate.GetOr(0)
  }
}
