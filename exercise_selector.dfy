/**
 * The exercise picker: the four filter criteria and the list they leave, the equipment choices
 * offered (taken from the exercises themselves) and the heading over the results.
 */
module ExerciseSelector {
  import opened Js
  import opened Text
  import opened Seqs
  import opened Exercises

  /** The picker's four criteria; the empty string means "any". */
  datatype Filters = Filters(searchTerm: string, category: string, muscleGroup: string, equipment: string)

  /** The search test: the lower-cased term inside the lower-cased name, or inside a non-empty description. */
  predicate SearchHit(ex: Exercise, search: string) {
    Includes(ToLower(ex.name), search)
    || (ex.description.Some? && ex.description.value != "" && Includes(ToLower(ex.description.value), search))
  }

  /** Some target muscle of the exercise belongs to group `g`. */
  predicate HasMuscle(ex: Exercise, g: string) {
    ex.targetMuscles.Some? && exists k :: 0 <= k < |ex.targetMuscles.value| && ex.targetMuscles.value[k].muscleGroup == g
  }

  /** A term that trims to nothing does not search; any other term is searched for as typed, lower-cased. */
  predicate MatchesSearch(ex: Exercise, term: string) {
    Trim(term) == "" || SearchHit(ex, ToLower(term))
  }

  predicate MatchesCategory(ex: Exercise, c: string) {
    c == "" || ex.category == Some(c)
  }

  predicate MatchesMuscle(ex: Exercise, g: string) {
    g == "" || HasMuscle(ex, g)
  }

  predicate MatchesEquipment(ex: Exercise, e: string) {
    e == "" || ex.equipment == Some(e)
  }

  /** What the criteria ask of one exercise, all at once and in no particular order. */
  predicate Matches(ex: Exercise, f: Filters) {
    MatchesSearch(ex, f.searchTerm) && MatchesCategory(ex, f.category)
    && MatchesMuscle(ex, f.muscleGroup) && MatchesEquipment(ex, f.equipment)
  }

  /** The search step of `applyFilters`. */
  function SearchStep(s: seq<Exercise>, term: string): (r: seq<Exercise>)
    ensures r == Filter(s, (x: Exercise) => MatchesSearch(x, term))
  {
    if Trim(term) != "" then
      FilterSame(s, (x: Exercise) => SearchHit(x, ToLower(term)), (x: Exercise) => MatchesSearch(x, term));
      Filter(s, (x: Exercise) => SearchHit(x, ToLower(term)))
    else
      FilterAll(s, (x: Exercise) => MatchesSearch(x, term));
      s
  }

  /** The category step. */
  function CategoryStep(s: seq<Exercise>, c: string): (r: seq<Exercise>)
    ensures r == Filter(s, (x: Exercise) => MatchesCategory(x, c))
  {
    if c != "" then
      FilterSame(s, (x: Exercise) => x.category == Some(c), (x: Exercise) => MatchesCategory(x, c));
      Filter(s, (x: Exercise) => x.category == Some(c))
    else
      FilterAll(s, (x: Exercise) => MatchesCategory(x, c));
      s
  }

  /** The muscle group step. */
  function MuscleStep(s: seq<Exercise>, g: string): (r: seq<Exercise>)
    ensures r == Filter(s, (x: Exercise) => MatchesMuscle(x, g))
  {
    if g != "" then
      FilterSame(s, (x: Exercise) => HasMuscle(x, g), (x: Exercise) => MatchesMuscle(x, g));
      Filter(s, (x: Exercise) => HasMuscle(x, g))
    else
      FilterAll(s, (x: Exercise) => MatchesMuscle(x, g));
      s
  }

  /** The equipment step. */
  function EquipmentStep(s: seq<Exercise>, e: string): (r: seq<Exercise>)
    ensures r == Filter(s, (x: Exercise) => MatchesEquipment(x, e))
  {
    if e != "" then
      FilterSame(s, (x: Exercise) => x.equipment == Some(e), (x: Exercise) => MatchesEquipment(x, e));
      Filter(s, (x: Exercise) => x.equipment == Some(e))
    else
      FilterAll(s, (x: Exercise) => MatchesEquipment(x, e));
      s
  }

  /**
   * `applyFilters`: search, category, muscle group and equipment, one after the other. The result
   * keeps, in their original order, exactly the exercises that meet every criterion.
   */
  function ApplyFilters(list: seq<Exercise>, f: Filters): (r: seq<Exercise>)
    ensures r == Filter(list, (x: Exercise) => Matches(x, f))
    ensures forall x :: x in r <==> x in list && Matches(x, f)
  {
    var t, c, g, e := f.searchTerm, f.category, f.muscleGroup, f.equipment;
    FilterFilter(list, (x: Exercise) => MatchesSearch(x, t), (x: Exercise) => MatchesCategory(x, c),
                 (x: Exercise) => MatchesSearch(x, t) && MatchesCategory(x, c));
    FilterFilter(list, (x: Exercise) => MatchesSearch(x, t) && MatchesCategory(x, c), (x: Exercise) => MatchesMuscle(x, g),
                 (x: Exercise) => MatchesSearch(x, t) && MatchesCategory(x, c) && MatchesMuscle(x, g));
    FilterFilter(list, (x: Exercise) => MatchesSearch(x, t) && MatchesCategory(x, c) && MatchesMuscle(x, g),
                 (x: Exercise) => MatchesEquipment(x, e), (x: Exercise) => Matches(x, f));
    EquipmentStep(MuscleStep(CategoryStep(SearchStep(list, f.searchTerm), f.category), f.muscleGroup), f.equipment)
  }

  /** The steps in the opposite order leave the same list: the criteria combine as a conjunction. */
  lemma StepOrderIrrelevant(list: seq<Exercise>, f: Filters)
    ensures SearchStep(CategoryStep(MuscleStep(EquipmentStep(list, f.equipment), f.muscleGroup), f.category), f.searchTerm)
         == ApplyFilters(list, f)
  {
    var t, c, g, e := f.searchTerm, f.category, f.muscleGroup, f.equipment;
    FilterFilter(list, (x: Exercise) => MatchesEquipment(x, e), (x: Exercise) => MatchesMuscle(x, g),
                 (x: Exercise) => MatchesEquipment(x, e) && MatchesMuscle(x, g));
    FilterFilter(list, (x: Exercise) => MatchesEquipment(x, e) && MatchesMuscle(x, g), (x: Exercise) => MatchesCategory(x, c),
                 (x: Exercise) => MatchesEquipment(x, e) && MatchesMuscle(x, g) && MatchesCategory(x, c));
    FilterFilter(list, (x: Exercise) => MatchesEquipment(x, e) && MatchesMuscle(x, g) && MatchesCategory(x, c),
                 (x: Exercise) => MatchesSearch(x, t), (x: Exercise) => Matches(x, f));
  }

  /** Filtering the filtered list again changes nothing. */
  lemma FilterTwiceIsOnce(list: seq<Exercise>, f: Filters)
    ensures ApplyFilters(ApplyFilters(list, f), f) == ApplyFilters(list, f)
  {
    var r := ApplyFilters(list, f);
    FilterAll(r, (x: Exercise) => Matches(x, f));
  }

  /** `handleClearFilters`: all four criteria back to empty. */
  function ClearFilters(): (f: Filters)
    ensures f.searchTerm == "" && f.category == "" && f.muscleGroup == "" && f.equipment == ""
  {
    Filters("", "", "", "")
  }

  /** With the criteria cleared the picker lists every exercise, in the order they came. */
  lemma ClearedShowsAll(list: seq<Exercise>)
    ensures ApplyFilters(list, ClearFilters()) == list
  {
    FilterAll(list, (x: Exercise) => Matches(x, ClearFilters()));
  }

  /** `ex.equipment` when it is a string that does not trim to nothing. */
  function EquipmentValues(exs: seq<Exercise>): (vs: seq<string>)
    ensures forall v :: v in vs <==> exists k :: 0 <= k < |exs| && exs[k].equipment == Some(v) && Trim(v) != ""
  {
    if exs == [] then []
    else
      var rest := EquipmentValues(exs[1..]);
      assert forall k :: 0 < k < |exs| ==> exs[k] == exs[1..][k - 1];
      var e := exs[0].equipment;
      if e.Some? && e.value != "" && Trim(e.value) != "" then [e.value] + rest else rest
  }

  /** `[...new Set(s)]`: each value once, at the place it first occurs. */
  function Distinct(s: seq<string>): (r: seq<string>)
    ensures forall x :: x in r <==> x in s
    ensures forall i, j :: 0 <= i < j < |r| ==> r[i] != r[j]
  {
    if s == [] then []
    else
      var init := s[..|s| - 1];
      assert s == init + [s[|s| - 1]];
      var r := Distinct(init);
      if s[|s| - 1] in r then r else r + [s[|s| - 1]]
  }

  /** The position of the first occurrence of `x` in `s`. */
  function FirstIndex(s: seq<string>, x: string): (i: nat)
    requires x in s
    ensures i < |s| && s[i] == x && forall k :: 0 <= k < i ==> s[k] != x
  {
    if s[0] == x then 0 else 1 + FirstIndex(s[1..], x)
  }

  /** The first occurrence of a value in a prefix is its first occurrence in the whole sequence. */
  lemma FirstIndexInPrefix(s: seq<string>, m: nat, x: string)
    requires m <= |s| && x in s[..m]
    ensures FirstIndex(s, x) == FirstIndex(s[..m], x)
  {
  }

  /** Distinct values come out in the order of their first occurrences. */
  lemma {:induction false} DistinctKeepsFirstOrder(s: seq<string>)
    ensures forall i, j :: 0 <= i < j < |Distinct(s)| ==> FirstIndex(s, Distinct(s)[i]) < FirstIndex(s, Distinct(s)[j])
  {
    if s != [] {
      var n := |s| - 1;
      var init := s[..n];
      var r := Distinct(init);
      DistinctKeepsFirstOrder(init);
      forall x | x in r ensures FirstIndex(s, x) == FirstIndex(init, x) && FirstIndex(init, x) < n {
        FirstIndexInPrefix(s, n, x);
      }
      if s[n] !in r {
        assert s[n] !in init;
        assert FirstIndex(s, s[n]) == n;
        var d := r + [s[n]];
        assert Distinct(s) == d;
        forall i, j | 0 <= i < j < |d| ensures FirstIndex(s, d[i]) < FirstIndex(s, d[j]) {
          assert d[i] == r[i];
          if j < |r| {
            assert d[j] == r[j];
          }
        }
      }
    }
  }

  /**
   * The equipment choices: every non-blank equipment value of the exercises, each once, in the
   * order the values first appear.
   */
  function EquipmentOptions(exs: seq<Exercise>): (r: seq<string>)
    ensures forall v :: v in r <==> exists k :: 0 <= k < |exs| && exs[k].equipment == Some(v) && Trim(v) != ""
    ensures forall i, j :: 0 <= i < j < |r| ==> r[i] != r[j]
    ensures forall i, j :: 0 <= i < j < |r| ==>
      FirstIndex(EquipmentValues(exs), r[i]) < FirstIndex(EquipmentValues(exs), r[j])
  {
    DistinctKeepsFirstOrder(EquipmentValues(exs));
    Distinct(EquipmentValues(exs))
  }

  /** Some criterion holds any text at all, white space included. */
  predicate AnyCriterion(f: Filters) {
    f.searchTerm != "" || f.category != "" || f.muscleGroup != "" || f.equipment != ""
  }

  /** The noun of the heading. */
  function ResultsNoun(count: nat): (w: string)
    ensures w == " Exercise" <==> count == 1
    ensures w == " Exercise" || w == " Exercises"
  {
    if count == 1 then " Exercise" else " Exercises"
  }

  /** The heading over the results: the count, the noun, and " Found" while a criterion is set. */
  function ResultsHeader(count: nat, f: Filters): string {
    NatToString(count) + ResultsNoun(count) + (if AnyCriterion(f) then " Found" else "")
  }

  predicate EndsWith(s: string, t: string) {
    |t| <= |s| && s[|s| - |t|..] == t
  }

  /** The heading ends in " Found" exactly when a criterion is set. */
  lemma HeaderSaysFound(count: nat, f: Filters)
    ensures EndsWith(ResultsHeader(count, f), " Found") <==> AnyCriterion(f)
  {
    var h := ResultsHeader(count, f);
    var w := ResultsNoun(count);
    if !AnyCriterion(f) {
      assert h == NatToString(count) + w;
      assert h[|h| - 1] == w[|w| - 1];
      assert " Found"[5] == 'd';
      if w == " Exercise" {
        assert w[|w| - 1] == 'e';
      } else {
        assert w[|w| - 1] == 's';
      }
    }
  }

  /** A search of blanks lists every exercise, yet the heading still says " Found". */
  lemma BlankSearchSaysFound(list: seq<Exercise>, term: string)
    requires term != "" && Trim(term) == ""
    ensures ApplyFilters(list, Filters(term, "", "", "")) == list
    ensures EndsWith(ResultsHeader(|list|, Filters(term, "", "", "")), " Found")
  {
    FilterAll(list, (x: Exercise) => Matches(x, Filters(term, "", "", "")));
    HeaderSaysFound(|list|, Filters(term, "", "", ""));
  }
}
