/**
 * The exercise library's records, as the exercise endpoints return them: optional text fields,
 * the target muscles (each marked primary or not) and the media attached to an exercise.
 */
module Exercises {
  import opened Js

  datatype TargetMuscle = TargetMuscle(muscleGroup: string, isPrimary: bool)

  datatype Media = Media(mediaId: int, mediaType: string, url: string)

  datatype Exercise = Exercise(
    exerciseId: int,
    name: string,
    description: Option<string>,
    category: Option<string>,
    equipment: Option<string>,
    targetMuscles: Option<seq<TargetMuscle>>,
    instructions: Option<string>,
    media: Option<seq<Media>>)
}
