/**
 * Live tracking of a workout: the per-exercise list of sets the athlete ticks off and
 * corrects while training, the completion percentage over all of them, the payload sent when
 * the workout is completed, the duration and calorie estimates derived from the elapsed
 * seconds, and the `"1h 01m 01s"` rendering of the timer.
 */
module WorkoutDetails {
  import opened Js
  import opened Text
  import opened Seqs

  /** A set of a workout exercise as the server returns it; None marks a missing field. */
  datatype ServerSet = ServerSet(
    setId: Option<int>,
    reps: Option<int>,
    targetReps: Option<int>,
    weight: Option<real>,
    targetWeight: Option<real>,
    isCompleted: Option<bool>)

  /** A set being tracked: the server's fields, plus the completion flag and the actual figures. */
  datatype TrackedSet = TrackedSet(server: ServerSet, isCompleted: bool, actualReps: int, actualWeight: real)

  datatype ServerExercise = ServerExercise(workoutExerciseId: nat, sets: seq<ServerSet>)

  /**
   * The tracking entry for a loaded set: not completed unless the server says so, and the
   * recorded reps and weight, falling back to the targets and then to 0.
   */
  function Track(s: ServerSet): (t: TrackedSet)
    ensures t.server == s
    ensures t.isCompleted <==> s.isCompleted == Some(true)
    ensures t.actualReps == (if s.reps.Some? && s.reps.value != 0 then s.reps.value
                             else if s.targetReps.Some? && s.targetReps.value != 0 then s.targetReps.value
                             else 0)
    ensures t.actualWeight == (if s.weight.Some? && s.weight.value != 0.0 then s.weight.value
                               else if s.targetWeight.Some? && s.targetWeight.value != 0.0 then s.targetWeight.value
                               else 0.0)
  {
    TrackedSet(s, s.isCompleted == Some(true), IntOr(s.reps, IntOr(s.targetReps, 0)), RealOr(s.weight, RealOr(s.targetWeight, 0.0)))
  }

  function TrackAll(sets: seq<ServerSet>): (r: seq<TrackedSet>)
    ensures |r| == |sets| && forall j :: 0 <= j < |sets| ==> r[j] == Track(sets[j])
  {
    seq(|sets|, j requires 0 <= j < |sets| => Track(sets[j]))
  }

  /**
   * The tracking map built on load: `initialSets[exercise.workoutExerciseId] = ...` for each
   * exercise in turn, so a later exercise with the same id replaces an earlier one.
   */
  function InitialSets(exs: seq<ServerExercise>): (m: map<nat, seq<TrackedSet>>)
    ensures forall k :: k in m <==> exists j :: 0 <= j < |exs| && exs[j].workoutExerciseId == k
  {
    if exs == [] then map[]
    else
      var prefix := exs[..|exs| - 1];
      var last := exs[|exs| - 1];
      var m := InitialSets(prefix)[last.workoutExerciseId := TrackAll(last.sets)];
      assert forall j :: 0 <= j < |prefix| ==> prefix[j] == exs[j];
      m
  }

  /** Each exercise id maps to the tracked sets of the last exercise that carries it. */
  lemma {:induction false} InitialSetsLastWins(exs: seq<ServerExercise>, j: int)
    requires 0 <= j < |exs|
    requires forall i :: j < i < |exs| ==> exs[i].workoutExerciseId != exs[j].workoutExerciseId
    ensures InitialSets(exs)[exs[j].workoutExerciseId] == TrackAll(exs[j].sets)
  {
    if j < |exs| - 1 {
      var prefix := exs[..|exs| - 1];
      assert prefix[j] == exs[j];
      InitialSetsLastWins(prefix, j);
    }
  }

  /** The load loop. */
  method BuildInitialSets(exs: seq<ServerExercise>) returns (m: map<nat, seq<TrackedSet>>)
    ensures m == InitialSets(exs)
  {
    m := map[];
    var i := 0;
    while i < |exs|
      invariant 0 <= i <= |exs|
      invariant m == InitialSets(exs[..i])
    {
      m := m[exs[i].workoutExerciseId := TrackAll(exs[i].sets)];
      assert exs[..i + 1][..i] == exs[..i];
      i := i + 1;
    }
    assert exs[..|exs|] == exs;
  }

  /** A change typed into the reps or the weight input of a set. */
  datatype SetChange = ActualReps(reps: int) | ActualWeight(weight: real)

  function Changed(t: TrackedSet, c: SetChange): (r: TrackedSet)
    ensures r.server == t.server && r.isCompleted == t.isCompleted
    ensures r.actualReps == (if c.ActualReps? then c.reps else t.actualReps)
    ensures r.actualWeight == (if c.ActualWeight? then c.weight else t.actualWeight)
  {
    match c
    case ActualReps(n) => t.(actualReps := n)
    case ActualWeight(w) => t.(actualWeight := w)
  }

  /** One set as the completion request reports it. */
  datatype CompletedSet = CompletedSet(setId: Option<int>, reps: int, weight: real)

  predicate IsDone(t: TrackedSet) {
    t.isCompleted
  }

  function Report(t: TrackedSet): CompletedSet {
    CompletedSet(t.server.setId, t.actualReps, t.actualWeight)
  }

  /** The completed sets of one exercise, reported in order. */
  function CompletedIn(sets: seq<TrackedSet>): (r: seq<CompletedSet>)
    ensures |r| <= |sets|
  {
    if sets == [] then []
    else
      var last := sets[|sets| - 1];
      CompletedIn(sets[..|sets| - 1]) + (if last.isCompleted then [Report(last)] else [])
  }

  /** Reporting keeps exactly the sets marked completed, in their order. */
  lemma {:induction false} CompletedInIsFilter(sets: seq<TrackedSet>)
    ensures CompletedIn(sets) == ReportAll(Filter(sets, IsDone))
  {
    if sets != [] {
      var prefix := sets[..|sets| - 1];
      var last := sets[|sets| - 1];
      CompletedInIsFilter(prefix);
      assert sets == prefix + [last];
      FilterAppend(prefix, [last], IsDone);
      assert Filter([last], IsDone) == if last.isCompleted then [last] else [] by {
        assert [last][1..] == [];
      }
      ReportAllAppend(Filter(prefix, IsDone), Filter([last], IsDone));
    }
  }

  function ReportAll(sets: seq<TrackedSet>): (r: seq<CompletedSet>)
    ensures |r| == |sets| && forall j :: 0 <= j < |sets| ==> r[j] == Report(sets[j])
  {
    seq(|sets|, j requires 0 <= j < |sets| => Report(sets[j]))
  }

  lemma ReportAllAppend(a: seq<TrackedSet>, b: seq<TrackedSet>)
    ensures ReportAll(a + b) == ReportAll(a) + ReportAll(b)
  {
  }

  predicate KeysIn(m: map<nat, seq<TrackedSet>>, keys: seq<nat>) {
    forall i :: 0 <= i < |keys| ==> keys[i] in m
  }

  /** The completed sets of the exercises `keys`, exercise after exercise. */
  function CompletedOver(m: map<nat, seq<TrackedSet>>, keys: seq<nat>): (r: seq<CompletedSet>)
    requires KeysIn(m, keys)
  {
    if keys == [] then []
    else CompletedOver(m, keys[..|keys| - 1]) + CompletedIn(m[keys[|keys| - 1]])
  }

  /** All sets counted over the exercises `keys`. */
  function TotalOver(m: map<nat, seq<TrackedSet>>, keys: seq<nat>): (n: nat)
    requires KeysIn(m, keys)
  {
    if keys == [] then 0 else TotalOver(m, keys[..|keys| - 1]) + |m[keys[|keys| - 1]]|
  }

  /** Completed sets counted over the exercises `keys`. */
  function DoneOver(m: map<nat, seq<TrackedSet>>, keys: seq<nat>): (n: nat)
    requires KeysIn(m, keys)
    ensures n <= TotalOver(m, keys)
  {
    if keys == [] then 0 else DoneOver(m, keys[..|keys| - 1]) + Count(m[keys[|keys| - 1]], IsDone)
  }

  /** Every set over `keys` is completed exactly when the completed count reaches the total. */
  lemma {:induction false} DoneEqualsTotal(m: map<nat, seq<TrackedSet>>, keys: seq<nat>)
    requires KeysIn(m, keys)
    ensures DoneOver(m, keys) == TotalOver(m, keys) <==>
      forall i, j :: 0 <= i < |keys| && 0 <= j < |m[keys[i]]| ==> m[keys[i]][j].isCompleted
  {
    if keys != [] {
      var prefix := keys[..|keys| - 1];
      var sets := m[keys[|keys| - 1]];
      DoneEqualsTotal(m, prefix);
      CountAll(sets, IsDone);
      assert DoneOver(m, prefix) <= TotalOver(m, prefix);
      assert forall i :: 0 <= i < |prefix| ==> prefix[i] == keys[i];
    }
  }

  /** `Count` reaches the length exactly when every element passes. */
  lemma {:induction false} CountAll<T>(s: seq<T>, p: T -> bool)
    ensures Count(s, p) == |s| <==> forall j :: 0 <= j < |s| ==> p(s[j])
  {
    if s != [] {
      CountAll(s[1..], p);
      assert forall j :: 1 <= j < |s| ==> s[j] == s[1..][j - 1];
    }
  }

  /** The keys of the tracking map in the order `Object.entries` and `Object.values` visit them. */
  function Order(m: map<nat, seq<TrackedSet>>): (keys: seq<nat>)
    ensures KeysIn(m, keys)
    ensures forall k :: k in m <==> k in keys
  {
    Ascending(m.Keys)
  }

  /** `calculateProgress`: 0 before the workout is loaded or when there are no sets. */
  function ProgressOf(m: map<nat, seq<TrackedSet>>, loaded: bool): (p: real)
  {
    if loaded then Percent(DoneOver(m, Order(m)), TotalOver(m, Order(m))) else 0.0
  }

  /** `totalSets > 0 ? (completedSets / totalSets) * 100 : 0`. */
  function Percent(done: nat, total: nat): real {
    if total > 0 then done as real / total as real * 100.0 else 0.0
  }

  /** The percentage lies in [0, 100]. */
  lemma ProgressBounds(m: map<nat, seq<TrackedSet>>, loaded: bool)
    ensures 0.0 <= ProgressOf(m, loaded) <= 100.0
  {
    var total := TotalOver(m, Order(m));
    var done := DoneOver(m, Order(m));
    if loaded && total > 0 {
      RatioBounds(done, total);
    }
  }

  lemma RatioBounds(done: nat, total: nat)
    requires 0 < total && done <= total
    ensures 0.0 <= done as real / total as real * 100.0 <= 100.0
    ensures done as real / total as real * 100.0 == 100.0 <==> done == total
  {
    var t, d := total as real, done as real;
    var q := d / t;
    assert q * t == d;
    assert 0.0 <= q <= 1.0;
    assert (q * 100.0 == 100.0) == (q == 1.0);
    if q == 1.0 {
      assert d == t;
    }
    if done == total {
      assert d / t == 1.0;
    }
  }

  /** `workout.isCompleted || progress === 100`. */
  predicate IsComplete(flagged: bool, progress: real) {
    flagged || progress == 100.0
  }

  /**
   * A loaded workout counts as complete exactly when the server flagged it or there is at least
   * one set and every tracked set is ticked off.
   */
  lemma IsCompleteIff(m: map<nat, seq<TrackedSet>>, flagged: bool)
    ensures IsComplete(flagged, ProgressOf(m, true)) <==>
      flagged || (TotalOver(m, Order(m)) > 0 &&
                  forall k, j :: k in m && 0 <= j < |m[k]| ==> m[k][j].isCompleted)
  {
    var keys := Order(m);
    var total := TotalOver(m, keys);
    var done := DoneOver(m, keys);
    DoneEqualsTotal(m, keys);
    if total > 0 {
      RatioBounds(done, total);
    }
    var all := forall k, j :: k in m && 0 <= j < |m[k]| ==> m[k][j].isCompleted;
    var allOver := forall i, j :: 0 <= i < |keys| && 0 <= j < |m[keys[i]]| ==> m[keys[i]][j].isCompleted;
    assert all <==> allOver by {
      if allOver {
        forall k, j | k in m && 0 <= j < |m[k]| ensures m[k][j].isCompleted {
          var i :| 0 <= i < |keys| && keys[i] == k;
        }
      }
    }
  }

  /** `Math.ceil(elapsedTime / 60)`: the reported duration in whole minutes. */
  function DurationMinutes(elapsed: nat): (d: nat)
    ensures elapsed == 0 <==> d == 0
    ensures 60 * (d - 1) < elapsed <= 60 * d || elapsed == 0
  {
    CeilDiv(elapsed, 60)
  }

  /** `estimateCaloriesBurned`: 5 kcal per started minute. */
  function CaloriesBurned(elapsed: nat): (c: nat)
    ensures c == 5 * DurationMinutes(elapsed)
  {
    DurationMinutes(elapsed) * 5
  }

  /** Neither estimate ever goes down as the timer runs. */
  lemma EstimatesMonotone(e1: nat, e2: nat)
    requires e1 <= e2
    ensures DurationMinutes(e1) <= DurationMinutes(e2)
    ensures CaloriesBurned(e1) <= CaloriesBurned(e2)
  {
    var d1, d2 := DurationMinutes(e1), DurationMinutes(e2);
    if e1 > 0 {
      assert 60 * (d1 - 1) < 60 * d2;
    }
  }

  /** The hours, minutes and seconds `formatTime` shows, and their recombination. */
  lemma SplitSeconds(seconds: nat)
    ensures (seconds / 3600) * 3600 + ((seconds % 3600) / 60) * 60 + seconds % 60 == seconds
    ensures (seconds % 3600) / 60 < 60 && seconds % 60 < 60
  {
    assert seconds % 3600 == ((seconds % 3600) / 60) * 60 + (seconds % 3600) % 60;
    assert (seconds % 3600) % 60 == seconds % 60;
  }

  /**
   * The pieces `formatTime` pushes: unpadded hours with `h` only when there are hours, minutes
   * padded to two digits with `m` when there are minutes or hours, and always the padded seconds with `s`.
   */
  function TimeParts(seconds: nat): (parts: seq<string>)
    ensures |parts| == 1 <==> seconds < 60
    ensures |parts| == 2 <==> 60 <= seconds < 3600
    ensures |parts| == 3 <==> 3600 <= seconds
    ensures parts[|parts| - 1] == Pad2(seconds % 60) + "s"
    ensures seconds >= 60 ==> parts[|parts| - 2] == Pad2((seconds % 3600) / 60) + "m"
    ensures seconds >= 3600 ==> parts[0] == NatToString(seconds / 3600) + "h"
  {
    var h, m := seconds / 3600, (seconds % 3600) / 60;
    assert h > 0 <==> seconds >= 3600;
    assert h == 0 ==> (m > 0 <==> seconds >= 60);
    PartsOf(h, m, seconds % 60)
  }

  function PartsOf(h: nat, m: nat, s: nat): (parts: seq<string>)
    ensures |parts| == (if h > 0 then 1 else 0) + (if m > 0 || h > 0 then 1 else 0) + 1
    ensures parts[|parts| - 1] == Pad2(s) + "s"
    ensures m > 0 || h > 0 ==> parts[|parts| - 2] == Pad2(m) + "m"
    ensures h > 0 ==> parts[0] == NatToString(h) + "h"
  {
    (if h > 0 then [NatToString(h) + "h"] else [])
    + (if m > 0 || h > 0 then [Pad2(m) + "m"] else [])
    + [Pad2(s) + "s"]
  }

  /** `formatTime(seconds)`: the pieces joined by single spaces. */
  function FormatTime(seconds: nat): string {
    Join(TimeParts(seconds), ' ')
  }

  /** `formatTime` on three sample values. */
  lemma FormatTimeSamples()
    ensures FormatTime(59) == "59s"
    ensures FormatTime(60) == "01m 00s"
    ensures FormatTime(3661) == "1h 01m 01s"
  {
    assert TimeParts(59) == PartsOf(0, 0, 59);
    assert TimeParts(60) == PartsOf(0, 1, 0);
    assert TimeParts(3661) == PartsOf(1, 1, 1);
    SecondsSample();
    MinutesSample();
    HoursSample();
  }

  lemma SecondsSample()
    ensures Join(PartsOf(0, 0, 59), ' ') == "59s"
  {
    assert NatToString(59) == NatToString(5) + "9" && NatToString(5) == "5";
    assert Pad2(59) + "s" == "59s";
  }

  lemma MinutesSample()
    ensures Join(PartsOf(0, 1, 0), ' ') == "01m 00s"
  {
    assert Pad2(1) + "m" == "01m" && Pad2(0) + "s" == "00s";
    assert PartsOf(0, 1, 0) == ["01m", "00s"];
  }

  lemma HoursSample()
    ensures Join(PartsOf(1, 1, 1), ' ') == "1h 01m 01s"
  {
    assert NatToString(1) + "h" == "1h" && Pad2(1) + "m" == "01m" && Pad2(1) + "s" == "01s";
    assert PartsOf(1, 1, 1) == ["1h", "01m", "01s"];
  }

  /** Reads `digits` followed by the unit letter `unit`. */
  function ReadUnit(p: string, unit: char): Option<nat> {
    if |p| >= 2 && p[|p| - 1] == unit && forall i :: 0 <= i < |p| - 1 ==> '0' <= p[i] <= '9'
    then Some(DigitsValue(p[..|p| - 1]))
    else None
  }

  /** A reader for the timer text: seconds alone, minutes and seconds, or hours, minutes and seconds. */
  function ReadTime(t: string): Option<nat> {
    var ps := Split(t, ' ');
    if |ps| == 1 then ReadUnit(ps[0], 's')
    else if |ps| == 2 then
      match (ReadUnit(ps[0], 'm'), ReadUnit(ps[1], 's'))
      case (Some(m), Some(s)) => Some(m * 60 + s)
      case _ => None
    else if |ps| == 3 then
      match (ReadUnit(ps[0], 'h'), ReadUnit(ps[1], 'm'), ReadUnit(ps[2], 's'))
      case (Some(h), Some(m), Some(s)) => Some(h * 3600 + m * 60 + s)
      case _ => None
    else None
  }

  lemma ReadUnitOf(digits: string, unit: char)
    requires |digits| >= 1 && forall i :: 0 <= i < |digits| ==> '0' <= digits[i] <= '9'
    requires !('0' <= unit <= '9') && unit != ' '
    ensures ReadUnit(digits + [unit], unit) == Some(DigitsValue(digits))
    ensures ' ' !in digits + [unit]
  {
    var p := digits + [unit];
    assert p[..|p| - 1] == digits;
  }

  /** The timer text determines the elapsed seconds: reading it back gives the number it shows. */
  lemma ReadFormatTime(seconds: nat)
    ensures ReadTime(FormatTime(seconds)) == Some(seconds)
  {
    SplitSeconds(seconds);
    ReadPartsOf(seconds / 3600, (seconds % 3600) / 60, seconds % 60);
  }

  lemma ReadPartsOf(h: nat, m: nat, s: nat)
    ensures ReadTime(Join(PartsOf(h, m, s), ' ')) == Some(h * 3600 + m * 60 + s)
  {
    if h > 0 {
      ReadWithHours(h, m, s);
    } else if m > 0 {
      ReadWithMinutes(h, m, s);
    } else {
      ReadSecondsOnly(h, m, s);
    }
  }

  lemma ReadWithHours(h: nat, m: nat, s: nat)
    requires h > 0
    ensures ReadTime(Join(PartsOf(h, m, s), ' ')) == Some(h * 3600 + m * 60 + s)
  {
    HoursPiece(h);
    PaddedPiece(m, 'm');
    PaddedPiece(s, 's');
    ReadThree(NatToString(h) + "h", Pad2(m) + "m", Pad2(s) + "s", h, m, s);
  }

  lemma ReadWithMinutes(h: nat, m: nat, s: nat)
    requires h == 0 && m > 0
    ensures ReadTime(Join(PartsOf(h, m, s), ' ')) == Some(h * 3600 + m * 60 + s)
  {
    PaddedPiece(m, 'm');
    PaddedPiece(s, 's');
    ReadTwo(Pad2(m) + "m", Pad2(s) + "s", m, s);
  }

  lemma ReadSecondsOnly(h: nat, m: nat, s: nat)
    requires h == 0 && m == 0
    ensures ReadTime(Join(PartsOf(h, m, s), ' ')) == Some(h * 3600 + m * 60 + s)
  {
    PaddedPiece(s, 's');
    ReadJoined([Pad2(s) + "s"]);
  }

  lemma HoursPiece(h: nat)
    ensures ReadUnit(NatToString(h) + "h", 'h') == Some(h) && ' ' !in NatToString(h) + "h"
  {
    ReadUnitOf(NatToString(h), 'h');
    DigitsOfNat(h);
  }

  lemma PaddedPiece(n: nat, unit: char)
    requires unit == 'm' || unit == 's'
    ensures ReadUnit(Pad2(n) + [unit], unit) == Some(n) && ' ' !in Pad2(n) + [unit]
  {
    ReadUnitOf(Pad2(n), unit);
    Pad2Value(n);
  }

  lemma ReadThree(a: string, b: string, c: string, h: nat, m: nat, s: nat)
    requires ' ' !in a && ' ' !in b && ' ' !in c
    requires ReadUnit(a, 'h') == Some(h) && ReadUnit(b, 'm') == Some(m) && ReadUnit(c, 's') == Some(s)
    ensures ReadTime(Join([a, b, c], ' ')) == Some(h * 3600 + m * 60 + s)
  {
    ReadJoined([a, b, c]);
  }

  lemma ReadTwo(b: string, c: string, m: nat, s: nat)
    requires ' ' !in b && ' ' !in c
    requires ReadUnit(b, 'm') == Some(m) && ReadUnit(c, 's') == Some(s)
    ensures ReadTime(Join([b, c], ' ')) == Some(m * 60 + s)
  {
    ReadJoined([b, c]);
  }

  /** Reading joined pieces that hold no space reads the pieces themselves. */
  lemma ReadJoined(parts: seq<string>)
    requires 1 <= |parts| && forall k :: 0 <= k < |parts| ==> ' ' !in parts[k]
    ensures Split(Join(parts, ' '), ' ') == parts
  {
    SplitJoin(parts, ' ');
  }

  /** The tracking state of the workout page: `exerciseSets`, keyed by workout exercise id. */
  class SetTracker {
    var exerciseSets: map<nat, seq<TrackedSet>>

    /** Loading a workout builds the map from its exercises. */
    constructor(exs: seq<ServerExercise>)
      ensures exerciseSets == InitialSets(exs)
    {
      var m := BuildInitialSets(exs);
      exerciseSets := m;
    }

    /** `handleSetComplete`: ticks set `setIndex` of exercise `exerciseId` on or off; nothing else changes. */
    method SetComplete(exerciseId: nat, setIndex: nat, completed: bool)
      requires exerciseId in exerciseSets && setIndex < |exerciseSets[exerciseId]|
      modifies this
      ensures exerciseSets.Keys == old(exerciseSets).Keys
      ensures forall k :: k in exerciseSets && k != exerciseId ==> exerciseSets[k] == old(exerciseSets)[k]
      ensures exerciseSets[exerciseId] ==
        old(exerciseSets)[exerciseId][setIndex := old(exerciseSets)[exerciseId][setIndex].(isCompleted := completed)]
    {
      var updated := exerciseSets[exerciseId];
      updated := updated[setIndex := updated[setIndex].(isCompleted := completed)];
      exerciseSets := exerciseSets[exerciseId := updated];
    }

    /** `handleSetDataChange`: overwrites the actual reps or weight of one set; nothing else changes. */
    method SetDataChange(exerciseId: nat, setIndex: nat, change: SetChange)
      requires exerciseId in exerciseSets && setIndex < |exerciseSets[exerciseId]|
      modifies this
      ensures exerciseSets.Keys == old(exerciseSets).Keys
      ensures forall k :: k in exerciseSets && k != exerciseId ==> exerciseSets[k] == old(exerciseSets)[k]
      ensures exerciseSets[exerciseId] ==
        old(exerciseSets)[exerciseId][setIndex := Changed(old(exerciseSets)[exerciseId][setIndex], change)]
    {
      var updated := exerciseSets[exerciseId];
      updated := updated[setIndex := Changed(updated[setIndex], change)];
      exerciseSets := exerciseSets[exerciseId := updated];
    }

    /**
     * The `exerciseSets` of the completion request: for each exercise in key order, its
     * completed sets with their set id and actual reps and weight.
     */
    method CollectCompleted() returns (completed: seq<CompletedSet>)
      ensures completed == CompletedOver(exerciseSets, Order(exerciseSets))
    {
      completed := CollectOver(exerciseSets, Order(exerciseSets));
    }

    /** `calculateProgress`: totals and completed counts summed over the exercises. */
    method Progress(loaded: bool) returns (p: real)
      ensures p == ProgressOf(exerciseSets, loaded)
    {
      var total, done := CountSets(exerciseSets, Order(exerciseSets));
      p := if loaded then Percent(done, total) else 0.0;
    }
  }

  /** The `Object.values(exerciseSets).forEach` loop of `calculateProgress`. */
  method CountSets(m: map<nat, seq<TrackedSet>>, keys: seq<nat>) returns (total: nat, done: nat)
    requires KeysIn(m, keys)
    ensures total == TotalOver(m, keys) && done == DoneOver(m, keys)
  {
    total, done := 0, 0;
    var i := 0;
    while i < |keys|
      invariant 0 <= i <= |keys|
      invariant total == TotalOver(m, keys[..i])
      invariant done == DoneOver(m, keys[..i])
    {
      var sets := m[keys[i]];
      FilterLength(sets, IsDone);
      total := total + |sets|;
      done := done + |Filter(sets, IsDone)|;
      OverStep(m, keys, i);
      i := i + 1;
    }
    assert keys[..i] == keys;
  }

  /** The outer `Object.entries(exerciseSets).forEach` loop of the completion handler. */
  method CollectOver(m: map<nat, seq<TrackedSet>>, keys: seq<nat>) returns (completed: seq<CompletedSet>)
    requires KeysIn(m, keys)
    ensures completed == CompletedOver(m, keys)
  {
    completed := [];
    var i := 0;
    while i < |keys|
      invariant 0 <= i <= |keys|
      invariant completed == CompletedOver(m, keys[..i])
    {
      var reported := CollectFrom(m[keys[i]]);
      completed := completed + reported;
      OverStep(m, keys, i);
      i := i + 1;
    }
    assert keys[..i] == keys;
  }

  /** The inner `sets.forEach`: the completed sets of one exercise, in order. */
  method CollectFrom(sets: seq<TrackedSet>) returns (reported: seq<CompletedSet>)
    ensures reported == CompletedIn(sets)
  {
    reported := [];
    var j := 0;
    while j < |sets|
      invariant 0 <= j <= |sets|
      invariant reported == CompletedIn(sets[..j])
    {
      if sets[j].isCompleted {
        reported := reported + [CompletedSet(sets[j].server.setId, sets[j].actualReps, sets[j].actualWeight)];
      }
      assert sets[..j + 1][..j] == sets[..j];
      j := j + 1;
    }
    assert sets[..j] == sets;
  }

  /** Extending the visited keys by one adds that exercise's share to each sum. */
  lemma OverStep(m: map<nat, seq<TrackedSet>>, keys: seq<nat>, i: nat)
    requires KeysIn(m, keys) && i < |keys|
    ensures KeysIn(m, keys[..i]) && KeysIn(m, keys[..i + 1])
    ensures CompletedOver(m, keys[..i + 1]) == CompletedOver(m, keys[..i]) + CompletedIn(m[keys[i]])
    ensures TotalOver(m, keys[..i + 1]) == TotalOver(m, keys[..i]) + |m[keys[i]]|
    ensures DoneOver(m, keys[..i + 1]) == DoneOver(m, keys[..i]) + Count(m[keys[i]], IsDone)
  {
    assert keys[..i + 1][..i] == keys[..i];
  }

  /** The completion report over the whole map is the per-exercise filters of completed sets, concatenated. */
  lemma {:induction false} CompletedOverIsFilter(m: map<nat, seq<TrackedSet>>, keys: seq<nat>)
    requires KeysIn(m, keys)
    ensures |CompletedOver(m, keys)| == DoneOver(m, keys)
  {
    if keys != [] {
      var prefix := keys[..|keys| - 1];
      var sets := m[keys[|keys| - 1]];
      assert KeysIn(m, prefix);
      CompletedOverIsFilter(m, prefix);
      CompletedInIsFilter(sets);
      FilterLength(sets, IsDone);
    }
  }
}
