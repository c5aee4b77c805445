/**
 * The workout builder: the ordered list of exercises a workout is made of, with each
 * exercise's planned sets. The form keeps the list in its state and replaces it on every
 * edit: append from the exercise library, remove by position, change one field (a change of
 * the planned set count grows or shrinks the set list), and move an exercise one place up or
 * down. Submitting renumbers the exercises by position and strips the sets down to what the
 * server stores.
 */
module WorkoutForm {
  import opened Js
  import opened Seqs

  /** One planned set of an exercise. */
  datatype SetEntry = SetEntry(setType: string, reps: int, weight: real, isCompleted: bool)

  /** An exercise as the form holds it. */
  datatype FormExercise = FormExercise(
    workoutExerciseId: Option<int>,
    exerciseId: int,
    exerciseName: string,
    exerciseCategory: string,
    targetSets: int,
    targetReps: int,
    targetWeight: real,
    notes: string,
    sortOrder: int,
    sets: seq<SetEntry>)

  /** An entry of the exercise library, as the selector hands it to the form. */
  datatype LibraryExercise = LibraryExercise(exerciseId: int, name: string, category: string)

  /** A set the form creates: a standard set, not completed. */
  function FreshSet(reps: int, weight: real): SetEntry {
    SetEntry("Standard", reps, weight, false)
  }

  /** The entry `handleAddExercise` appends: 3 sets of 10 at 0 kg, sort order the old length. */
  function NewEntry(ex: LibraryExercise, position: int): (e: FormExercise)
    ensures e.exerciseId == ex.exerciseId && e.exerciseName == ex.name && e.exerciseCategory == ex.category
    ensures e.targetSets == 3 && e.targetReps == 10 && e.targetWeight == 0.0 && e.notes == ""
    ensures e.sortOrder == position && e.workoutExerciseId.None?
    ensures e.sets == [FreshSet(10, 0.0), FreshSet(10, 0.0), FreshSet(10, 0.0)]
  {
    FormExercise(None, ex.exerciseId, ex.name, ex.category, 3, 10, 0.0, "", position,
      [FreshSet(10, 0.0), FreshSet(10, 0.0), FreshSet(10, 0.0)])
  }

  /** `exercises.filter((_, i) => i !== index)`. */
  function RemoveAt<T>(s: seq<T>, index: int): (r: seq<T>)
    ensures 0 <= index < |s| ==> |r| == |s| - 1
    ensures 0 <= index < |s| ==> forall k :: 0 <= k < |r| ==> r[k] == if k < index then s[k] else s[k + 1]
    ensures !(0 <= index < |s|) ==> r == s
  {
    if 0 <= index < |s| then s[..index] + s[index + 1..] else s
  }

  /** Removing an entry takes exactly one occurrence of it out of the list. */
  lemma RemoveAtMultiset<T>(s: seq<T>, index: int)
    requires 0 <= index < |s|
    ensures multiset(RemoveAt(s, index)) + multiset{s[index]} == multiset(s)
  {
    assert s == s[..index] + [s[index]] + s[index + 1..];
  }

  /**
   * The set list after the planned count becomes `n`: missing sets are appended as fresh
   * sets with the given reps and weight, surplus sets are cut with `slice(0, n)`, which for a
   * negative `n` drops `-n` sets from the end.
   */
  function ResizeSets(sets: seq<SetEntry>, n: int, reps: int, weight: real): (r: seq<SetEntry>)
    ensures n >= 0 ==> |r| == n
    ensures n < 0 ==> |r| == if |sets| + n >= 0 then |sets| + n else 0
    ensures |r| <= |sets| ==> r == sets[..|r|]
    ensures |r| >= |sets| ==> r[..|sets|] == sets && forall k :: |sets| <= k < |r| ==> r[k] == FreshSet(reps, weight)
  {
    if n > |sets| then sets + seq(n - |sets|, _ => FreshSet(reps, weight))
    else if n < |sets| then sets[..SliceEnd(|sets|, n)]
    else sets
  }

  /** Growing the set list and then setting the old count back restores the old sets. */
  lemma ResizeGrowShrink(sets: seq<SetEntry>, n: int, reps: int, weight: real, reps2: int, weight2: real)
    requires n >= |sets|
    ensures ResizeSets(ResizeSets(sets, n, reps, weight), |sets|, reps2, weight2) == sets
  {
  }

  /** Two shrinking steps in a row end where one step to the smaller count ends. */
  lemma ResizeShrinkTwice(sets: seq<SetEntry>, n: int, m: int, reps: int, weight: real)
    requires 0 <= m <= n
    ensures ResizeSets(ResizeSets(sets, n, reps, weight), m, reps, weight) == ResizeSets(sets, m, reps, weight)
  {
    var once := ResizeSets(sets, n, reps, weight);
    var twice := ResizeSets(once, m, reps, weight);
    var direct := ResizeSets(sets, m, reps, weight);
    assert |twice| == |direct| == m;
    forall k | 0 <= k < m ensures twice[k] == direct[k] {
      if k < |sets| {
        assert twice[k] == once[k] == sets[k];
      }
    }
  }

  /** A change made through one of the exercise's four inputs, with the value the input hands over. */
  datatype FieldUpdate =
    | TargetSets(count: int)
    | TargetReps(reps: int)
    | TargetWeight(weight: real)
    | Notes(text: string)

  /** The exercise after `handleUpdateSets(index, field, value)`. */
  function WithField(e: FormExercise, u: FieldUpdate): (r: FormExercise)
    ensures r.workoutExerciseId == e.workoutExerciseId && r.exerciseId == e.exerciseId
    ensures r.exerciseName == e.exerciseName && r.exerciseCategory == e.exerciseCategory
    ensures r.sortOrder == e.sortOrder
    ensures r.targetSets == (if u.TargetSets? then u.count else e.targetSets)
    ensures r.targetReps == (if u.TargetReps? then u.reps else e.targetReps)
    ensures r.targetWeight == (if u.TargetWeight? then u.weight else e.targetWeight)
    ensures r.notes == (if u.Notes? then u.text else e.notes)
    ensures !u.TargetSets? ==> r.sets == e.sets
    ensures u.TargetSets? && u.count >= 0 ==> |r.sets| == u.count
  {
    match u
    case TargetSets(n) =>
      e.(targetSets := n,
         sets := ResizeSets(e.sets, n, IntOr(Some(e.targetReps), 10), RealOr(Some(e.targetWeight), 0.0)))
    case TargetReps(n) => e.(targetReps := n)
    case TargetWeight(w) => e.(targetWeight := w)
    case Notes(s) => e.(notes := s)
  }

  /** Sets added by a count change carry the exercise's target reps (10 if 0) and target weight. */
  lemma AddedSetsUseTargets(e: FormExercise, n: int)
    requires n > |e.sets|
    ensures var r := WithField(e, TargetSets(n));
      forall k :: |e.sets| <= k < n ==>
        r.sets[k] == FreshSet(if e.targetReps != 0 then e.targetReps else 10, e.targetWeight)
  {
  }


  /** `handleMoveExerciseUp(index)` on the list. */
  function MovedUp<T>(s: seq<T>, index: int): (r: seq<T>)
    requires 0 <= index < |s|
  {
    if index == 0 then s else Swap(s, index, index - 1)
  }

  /** `handleMoveExerciseDown(index)` on the list. */
  function MovedDown<T>(s: seq<T>, index: int): (r: seq<T>)
    requires 0 <= index < |s|
  {
    if index == |s| - 1 then s else Swap(s, index, index + 1)
  }

  /** A move keeps the same exercises, changes at most two positions, and at the edge changes nothing. */
  lemma MoveUpPermutes<T>(s: seq<T>, index: int)
    requires 0 <= index < |s|
    ensures multiset(MovedUp(s, index)) == multiset(s)
    ensures index == 0 ==> MovedUp(s, index) == s
    ensures index > 0 ==> MovedUp(s, index)[index - 1] == s[index] && MovedUp(s, index)[index] == s[index - 1]
  {
    if index > 0 {
      SwapMultiset(s, index, index - 1);
    }
  }

  lemma MoveDownPermutes<T>(s: seq<T>, index: int)
    requires 0 <= index < |s|
    ensures multiset(MovedDown(s, index)) == multiset(s)
    ensures index == |s| - 1 ==> MovedDown(s, index) == s
    ensures index < |s| - 1 ==> MovedDown(s, index)[index + 1] == s[index] && MovedDown(s, index)[index] == s[index + 1]
  {
    if index < |s| - 1 {
      SwapMultiset(s, index, index + 1);
    }
  }


  /** Moving an exercise up and then moving it down again restores the list, and the reverse. */
  lemma MoveUpThenDown<T>(s: seq<T>, index: int)
    requires 0 < index < |s|
    ensures MovedDown(MovedUp(s, index), index - 1) == s
    ensures MovedUp(MovedDown(s, index - 1), index) == s
  {
  }

  /** The workout form's exercise list and the handlers that edit it. */
  class WorkoutBuilder {
    var exercises: seq<FormExercise>

    constructor ()
      ensures exercises == []
    {
      exercises := [];
    }

    /** `handleAddExercise`: appends one entry; every earlier entry stays as it was. */
    method AddExercise(ex: LibraryExercise)
      modifies this
      ensures exercises == old(exercises) + [NewEntry(ex, |old(exercises)|)]
    {
      exercises := exercises + [NewEntry(ex, |exercises|)];
    }

    /** `handleRemoveExercise`: drops the entry at `index`, keeping the rest in order. */
    method RemoveExercise(index: int)
      modifies this
      ensures exercises == RemoveAt(old(exercises), index)
    {
      exercises := RemoveAt(exercises, index);
    }

    /** `handleUpdateSets`: replaces the one exercise at `index`; every other exercise stays as it was. */
    method UpdateField(index: int, u: FieldUpdate)
      requires 0 <= index < |exercises|
      modifies this
      ensures |exercises| == |old(exercises)|
      ensures exercises[index] == WithField(old(exercises)[index], u)
      ensures forall k :: 0 <= k < |exercises| && k != index ==> exercises[k] == old(exercises)[k]
    {
      var updated := exercises;
      updated := updated[index := WithField(updated[index], u)];
      exercises := updated;
    }

    /** `handleMoveExerciseUp`: nothing at index 0, otherwise a swap with the entry above. */
    method MoveUp(index: int)
      requires 0 <= index < |exercises|
      modifies this
      ensures exercises == MovedUp(old(exercises), index)
    {
      if index == 0 {
        return;
      }
      var temp := exercises[index];
      exercises := exercises[index := exercises[index - 1]];
      exercises := exercises[index - 1 := temp];
    }

    /** `handleMoveExerciseDown`: nothing at the last index, otherwise a swap with the entry below. */
    method MoveDown(index: int)
      requires 0 <= index < |exercises|
      modifies this
      ensures exercises == MovedDown(old(exercises), index)
    {
      if index == |exercises| - 1 {
        return;
      }
      var temp := exercises[index];
      exercises := exercises[index := exercises[index + 1]];
      exercises := exercises[index + 1 := temp];
    }
  }

  /** A set as the server stores it. */
  datatype SetPayload = SetPayload(setType: string, reps: int, weight: real)

  /** An exercise as the submit handler sends it. */
  datatype ExercisePayload = ExercisePayload(
    exerciseId: int,
    targetSets: int,
    targetReps: int,
    targetWeight: real,
    notes: string,
    sortOrder: int,
    sets: seq<SetPayload>)

  function SetPayloadOf(s: SetEntry): SetPayload {
    SetPayload(s.setType, s.reps, s.weight)
  }

  function ExercisePayloadOf(e: FormExercise, position: int): ExercisePayload {
    ExercisePayload(e.exerciseId, e.targetSets, e.targetReps, e.targetWeight, e.notes, position,
      seq(|e.sets|, j requires 0 <= j < |e.sets| => SetPayloadOf(e.sets[j])))
  }

  /** The exercises of the submit payload: renumbered by position, sets without their completion flag. */
  function ExercisesPayload(exercises: seq<FormExercise>): (r: seq<ExercisePayload>)
    ensures |r| == |exercises|
    ensures forall i :: 0 <= i < |r| ==> r[i] == ExercisePayloadOf(exercises[i], i)
  {
    seq(|exercises|, i requires 0 <= i < |exercises| => ExercisePayloadOf(exercises[i], i))
  }

  /**
   * Sort orders in the payload are exactly the positions 0, 1, ..., n - 1, whatever sort orders the
   * entries carried (entries added after a removal carry a stale one).
   */
  lemma PayloadSortOrders(exercises: seq<FormExercise>)
    ensures forall i :: 0 <= i < |exercises| ==> ExercisesPayload(exercises)[i].sortOrder == i
    ensures forall i, j :: 0 <= i < j < |exercises| ==>
      ExercisesPayload(exercises)[i].sortOrder < ExercisesPayload(exercises)[j].sortOrder
  {
  }

  /** Swapping two exercises swaps their payload entries' contents but keeps the sort orders in place. */
  lemma PayloadFollowsMove(exercises: seq<FormExercise>, index: int)
    requires 0 < index < |exercises|
    ensures var p := ExercisesPayload(MovedUp(exercises, index));
      p[index - 1].exerciseId == exercises[index].exerciseId && p[index - 1].sortOrder == index - 1 &&
      p[index].exerciseId == exercises[index - 1].exerciseId && p[index].sortOrder == index
  {
  }

  /** The payload does not depend on which sets were ticked off in the form. */
  lemma PayloadIgnoresCompletion(e: FormExercise, flags: seq<bool>, position: int)
    requires |flags| == |e.sets|
    ensures var ticked := e.(sets := seq(|e.sets|, j requires 0 <= j < |e.sets| => e.sets[j].(isCompleted := flags[j])));
      ExercisePayloadOf(ticked, position) == ExercisePayloadOf(e, position)
  {
  }

  /** What submitting the workout form does. */
  datatype SubmitAction =
    | CreateWorkout(planId: Option<int>, exercises: seq<ExercisePayload>)
    | UpdateWorkout(workoutId: string, planId: Option<int>, exercises: seq<ExercisePayload>)

  /**
   * `handleWorkoutSubmit`: refused when there is neither a plan id nor a workout id; otherwise an
   * update of the workout being edited or the creation of a new one, with `parseInt(planId)`
   * (None for NaN) and the payload exercises.
   */
  function Submit(currentPlanId: string, workoutId: string, exercises: seq<FormExercise>,
                  parseInt: string -> Option<int>): (r: Result<SubmitAction, string>)
    ensures r.Err? <==> currentPlanId == "" && workoutId == ""
    ensures r.Ok? && workoutId != "" ==> r.value == UpdateWorkout(workoutId, parseInt(currentPlanId), ExercisesPayload(exercises))
    ensures r.Ok? && workoutId == "" ==> r.value == CreateWorkout(parseInt(currentPlanId), ExercisesPayload(exercises))
  {
    if currentPlanId == "" && workoutId == "" then Err("No workout plan selected")
    else if workoutId != "" then Ok(UpdateWorkout(workoutId, parseInt(currentPlanId), ExercisesPayload(exercises)))
    else Ok(CreateWorkout(parseInt(currentPlanId), ExercisesPayload(exercises)))
  }

  /** An exercise of a workout as the server returns it; None marks a missing field. */
  datatype ServerExercise = ServerExercise(
    workoutExerciseId: Option<int>,
    exerciseId: int,
    exerciseName: string,
    exerciseCategory: string,
    targetSets: Option<int>,
    targetReps: Option<int>,
    targetWeight: Option<real>,
    notes: Option<string>,
    sortOrder: Option<int>,
    sets: Option<seq<SetEntry>>)

  /**
   * The load-time mapping of one exercise. Missing or zero targets default to 3 sets of 10 at
   * 0 kg; an exercise without a set list gets that many fresh sets. `Array(n)` with a negative `n`
   * throws, which fails the whole load.
   */
  function LoadExercise(x: ServerExercise): (r: Result<FormExercise, string>)
    ensures r.Err? <==> x.sets.None? && IntOr(x.targetSets, 3) < 0
    ensures r.Ok? ==> (
      r.value.targetSets == IntOr(x.targetSets, 3) &&
      r.value.targetReps == IntOr(x.targetReps, 10) &&
      r.value.targetWeight == RealOr(x.targetWeight, 0.0) &&
      r.value.sortOrder == IntOr(x.sortOrder, 0) &&
      r.value.notes == (if x.notes.Some? then x.notes.value else "") &&
      r.value.exerciseId == x.exerciseId && r.value.workoutExerciseId == x.workoutExerciseId &&
      r.value.exerciseName == x.exerciseName && r.value.exerciseCategory == x.exerciseCategory)
    ensures r.Ok? && x.sets.Some? ==> r.value.sets == x.sets.value
    ensures r.Ok? && x.sets.None? ==> (
      |r.value.sets| == IntOr(x.targetSets, 3) &&
      forall k :: 0 <= k < |r.value.sets| ==> r.value.sets[k] == FreshSet(IntOr(x.targetReps, 10), RealOr(x.targetWeight, 0.0)))
  {
    var count := IntOr(x.targetSets, 3);
    var reps := IntOr(x.targetReps, 10);
    var weight := RealOr(x.targetWeight, 0.0);
    var notes := if x.notes.Some? then x.notes.value else "";
    if x.sets.None? && count < 0 then Err("RangeError: Invalid array length")
    else
      var sets := if x.sets.Some? then x.sets.value else seq(count, _ => FreshSet(reps, weight));
      Ok(FormExercise(x.workoutExerciseId, x.exerciseId, x.exerciseName, x.exerciseCategory,
        count, reps, weight, notes, IntOr(x.sortOrder, 0), sets))
  }

  /** `workoutData.exercises?.map(...) || []`: a missing list loads as empty; one failing exercise fails the load. */
  function LoadExercises(xs: Option<seq<ServerExercise>>): (r: Result<seq<FormExercise>, string>)
    ensures xs.None? ==> r == Ok([])
    ensures xs.Some? ==> (r.Ok? <==> forall k :: 0 <= k < |xs.value| ==> LoadExercise(xs.value[k]).Ok?)
    ensures xs.Some? && r.Ok? ==> (
      |r.value| == |xs.value| &&
      forall k :: 0 <= k < |xs.value| ==> r.value[k] == LoadExercise(xs.value[k]).value)
  {
    if xs.None? then Ok([]) else LoadAll(xs.value)
  }

  function LoadAll(xs: seq<ServerExercise>): (r: Result<seq<FormExercise>, string>)
    ensures r.Ok? <==> forall k :: 0 <= k < |xs| ==> LoadExercise(xs[k]).Ok?
    ensures r.Ok? ==> |r.value| == |xs| && forall k :: 0 <= k < |xs| ==> r.value[k] == LoadExercise(xs[k]).value
  {
    if xs == [] then Ok([])
    else match (LoadExercise(xs[0]), LoadAll(xs[1..]))
      case (Ok(e), Ok(rest)) =>
        assert forall k :: 1 <= k < |xs| ==> xs[k] == xs[1..][k - 1];
        Ok([e] + rest)
      case (Err(m), _) => Err(m)
      case (_, Err(m)) =>
        assert forall k :: 0 <= k < |xs[1..]| ==> xs[1..][k] == xs[k + 1];
        Err(m)
  }
}
