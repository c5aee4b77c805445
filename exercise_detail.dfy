/**
 * The exercise detail page: the target muscles split into primary and secondary lists, the
 * instruction text shown one non-blank line per paragraph, and the element each attached medium
 * is shown with.
 */
module ExerciseDetail {
  import opened Js
  import opened Text
  import opened Seqs
  import opened Exercises

  predicate IsPrimary(m: TargetMuscle) {
    m.isPrimary
  }

  predicate IsSecondary(m: TargetMuscle) {
    !m.isPrimary
  }

  /** The primary and the secondary muscles together are the target muscles, each in one list only. */
  lemma MusclesPartition(muscles: seq<TargetMuscle>)
    ensures |Filter(muscles, IsPrimary)| + |Filter(muscles, IsSecondary)| == |muscles|
    ensures forall m :: m in muscles ==> (m in Filter(muscles, IsPrimary) <==> m !in Filter(muscles, IsSecondary))
  {
    FilterPartition(muscles, IsPrimary, IsSecondary);
  }

  /** The muscle groups named by a list of target muscles, in its order. */
  function Groups(muscles: seq<TargetMuscle>): (gs: seq<string>)
    ensures |gs| == |muscles| && forall k :: 0 <= k < |muscles| ==> gs[k] == muscles[k].muscleGroup
  {
    seq(|muscles|, k requires 0 <= k < |muscles| => muscles[k].muscleGroup)
  }

  /** The "Target Muscles" section: no data, or the primary list and, when there is one, the secondary list. */
  datatype MuscleSection = NoMuscleData | MuscleLists(primary: seq<string>, secondary: Option<seq<string>>)

  /**
   * The section for an exercise: "No muscle data available" without target muscles; otherwise the
   * primary groups in order, and the secondary groups in order when some muscle is not primary.
   */
  function MuscleSectionOf(ex: Exercise): (v: MuscleSection)
    ensures v.NoMuscleData? <==> ex.targetMuscles.None? || ex.targetMuscles.value == []
    ensures v.MuscleLists? ==> v.primary == Groups(Filter(ex.targetMuscles.value, IsPrimary))
    ensures v.MuscleLists? ==>
      (v.secondary.Some? <==> exists k :: 0 <= k < |ex.targetMuscles.value| && !ex.targetMuscles.value[k].isPrimary)
    ensures v.MuscleLists? && v.secondary.Some? ==> v.secondary.value == Groups(Filter(ex.targetMuscles.value, IsSecondary))
  {
    if ex.targetMuscles.None? || ex.targetMuscles.value == [] then NoMuscleData
    else
      var muscles := ex.targetMuscles.value;
      var anySecondary := exists k :: 0 <= k < |muscles| && !muscles[k].isPrimary;
      MuscleLists(Groups(Filter(muscles, IsPrimary)),
                  if anySecondary then Some(Groups(Filter(muscles, IsSecondary))) else None)
  }

  /** The secondary list is shown exactly when it would not be empty. */
  lemma SecondaryShownIffNonEmpty(ex: Exercise)
    requires MuscleSectionOf(ex).MuscleLists?
    ensures MuscleSectionOf(ex).secondary.Some? <==> Filter(ex.targetMuscles.value, IsSecondary) != []
  {
    var muscles := ex.targetMuscles.value;
    if Filter(muscles, IsSecondary) != [] {
      assert Filter(muscles, IsSecondary)[0] in muscles;
    }
  }

  predicate NonBlank(line: string) {
    Trim(line) != ""
  }

  /**
   * The instruction paragraphs: None ("No instructions available") for missing or empty text,
   * otherwise the lines of the text, in order and unaltered, without those that trim to nothing.
   */
  function InstructionLines(instructions: Option<string>): (r: Option<seq<string>>)
    ensures r.None? <==> instructions.None? || instructions.value == ""
    ensures r.Some? ==> r.value == Filter(Split(instructions.value, '\n'), NonBlank)
    ensures r.Some? ==> forall k :: 0 <= k < |r.value| ==> NonBlank(r.value[k]) && '\n' !in r.value[k]
    ensures r.Some? ==> forall line :: line in Split(instructions.value, '\n') ==> (line in r.value <==> NonBlank(line))
  {
    if instructions.None? || instructions.value == "" then None
    else Some(Filter(Split(instructions.value, '\n'), NonBlank))
  }

  /** Text without blank lines is shown in full: its paragraphs joined with line breaks give the text back. */
  lemma InstructionsShownInFull(instructions: string)
    requires instructions != ""
    requires forall k :: 0 <= k < |Split(instructions, '\n')| ==> NonBlank(Split(instructions, '\n')[k])
    ensures Join(InstructionLines(Some(instructions)).value, '\n') == instructions
  {
    FilterAll(Split(instructions, '\n'), NonBlank);
    JoinSplit(instructions, '\n');
  }

  /** How a medium is shown. */
  datatype MediaElement = ImageElement | VideoElement | LinkElement

  /** 'Image' is shown as an image, 'Video' as a video player, every other type as a link. */
  function ElementFor(mediaType: string): (e: MediaElement)
    ensures e == ImageElement <==> mediaType == "Image"
    ensures e == VideoElement <==> mediaType == "Video"
    ensures e == LinkElement <==> mediaType != "Image" && mediaType != "Video"
  {
    if mediaType == "Image" then ImageElement
    else if mediaType == "Video" then VideoElement
    else LinkElement
  }

  /** The media gallery: None for the placeholder (no media), otherwise one element per medium, in order. */
  function MediaGallery(ex: Exercise): (r: Option<seq<MediaElement>>)
    ensures r.None? <==> ex.media.None? || ex.media.value == []
    ensures r.Some? ==> |r.value| == |ex.media.value|
    ensures r.Some? ==> forall k :: 0 <= k < |r.value| ==> r.value[k] == ElementFor(ex.media.value[k].mediaType)
  {
    if ex.media.None? || ex.media.value == [] then None
    else
      var media := ex.media.value;
      Some(seq(|media|, k requires 0 <= k < |media| => ElementFor(media[k].mediaType)))
  }
}
