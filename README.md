# Fitness tracker data rules in Dafny

This project models the data rules inside the React front end of a fitness-tracking
application. Users plan workouts from an exercise library, track a workout set by set while a
timer runs, plan meals and log food and water, and record body measurements, photos and goals.
Most of the front end is markup, routing and HTTP calls. Inside its components sit small rules
that decide what the pages show and send:

- editing the exercise list of a workout;
- the completion percentage and estimates of a tracked workout;
- the servings clamp and the nutrition totals of a meal;
- the water counter;
- the weight-chart ranges and statistics;
- goal progress, days left and status;
- the exercise filters;
- the choice of the plan in force;
- the search parameters and the form validators.

Each rule is a Dafny function, method or class over plain records. Contracts and lemmas state what
the rule guarantees. Components whose handlers update their state step by step are classes or
methods with loops:

- the workout builder (`WorkoutForm.WorkoutBuilder`);
- the set tracker (`WorkoutDetails.SetTracker`);
- the meal editor (`MealForm.MealEditor`);
- the day's meals and the water counter (`MealsList.DayMeals`, `MealsList.WaterTracker`);
- the photo viewer (`ProgressDetail.PhotoViewer`).

Each such method is proved against a specification function.

The model rests on a few conventions:

- **Time:** a `Date` is an integer count of milliseconds since the epoch, and the local time zone
  is taken to be UTC. "Now" and "today" are parameters.
- **Calendar arithmetic:** `setHours(0, 0, 0, 0)`, `getDay()`, `setMonth` and `setFullYear` follow
  the ECMAScript day and month arithmetic, month overflow included (module `Calendar`).
- **Numbers:** quantities are exact `real`s. An unguarded division yields a value of `Js.Num`,
  which is finite, +Infinity, -Infinity or NaN. JavaScript's `x || fallback` is written out
  (`Js.RealOr`, `Js.IntOr`, `Js.Truthy`).
- **Sorting:** `Array.prototype.sort` with a numeric comparator is a stable insertion sort
  (`Seqs.SortBy`, and `Seqs.SortInPlace` where the source sorts an array in place).
- **Parsing and encoding:** `parseFloat`, `parseInt`, `JSON.parse` and `JSON.stringify` are
  function parameters. Their `Option` result is None where the library gives NaN or throws.

One module corresponds to each core source file:

- `WorkoutForm`, `WorkoutDetails`, `ExerciseSelector`, `ExerciseDetail`, `WorkoutList`;
- `MealForm`, `MealsList`, `MealDetail`, `FoodSearch`;
- `Goals` (the goals list), `GoalForm`, `WeightChart`, `ProgressPage`, `ProgressList`,
  `ProgressForm`, `ProgressDetail`;
- `Dashboard`, `Plans` (the workouts and meals pages), `Login`.

The shared records live in `Workouts`, `Exercises`, `Nutrition` and `Progress`. The shared
helpers live in `Js`, `Text`, `Seqs` and `Calendar`.

## Model

| member | source | states |
|---|---|---|
| WorkoutForm.NewEntry | src/components/workouts/WorkoutForm.jsx:213-235 | the appended entry copies the library exercise's id, name and category and has 3 target sets of 10 reps at 0 kg, empty notes, the old list length as sort order and three fresh standard sets |
| WorkoutForm.WorkoutBuilder.AddExercise | src/components/workouts/WorkoutForm.jsx:213-235 | the list afterwards is the old list with exactly one new entry at the end, so every earlier entry is unchanged |
| WorkoutForm.RemoveAt | src/components/workouts/WorkoutForm.jsx:241-246 | for a valid index the list loses exactly that entry, is one shorter and keeps the rest in order; an index out of range leaves the list as it was |
| WorkoutForm.RemoveAtMultiset | src/components/workouts/WorkoutForm.jsx:244 | removing an entry takes exactly one occurrence of it out of the list |
| WorkoutForm.WorkoutBuilder.RemoveExercise | src/components/workouts/WorkoutForm.jsx:241-246 | the new list is the old one with the entry at the index removed |
| WorkoutForm.ResizeSets | src/components/workouts/WorkoutForm.jsx:258-274 | a count n >= 0 leaves exactly n sets; the old sets survive as a prefix when shrinking and are followed by fresh sets with the given reps and weight when growing; a negative count drops that many sets from the end, like slice with a negative end |
| WorkoutForm.ResizeGrowShrink | src/components/workouts/WorkoutForm.jsx:262-274 | growing the set list and then setting the old count back restores the old sets |
| WorkoutForm.ResizeShrinkTwice | src/components/workouts/WorkoutForm.jsx:271-274 | two shrinking count changes in a row end where one change to the smaller count ends |
| WorkoutForm.WithField | src/components/workouts/WorkoutForm.jsx:251-275 | a field change alters only that field of the exercise, and its sets only when the field is targetSets, where the set list then has the new count |
| WorkoutForm.AddedSetsUseTargets | src/components/workouts/WorkoutForm.jsx:264-270 | sets added by a count change carry targetReps or 10 when it is 0, targetWeight, the Standard type and no completion mark |
| WorkoutForm.WorkoutBuilder.UpdateField | src/components/workouts/WorkoutForm.jsx:249-282 | the exercise at the index becomes the changed exercise, the list keeps its length and every other exercise is unchanged |
| WorkoutForm.MoveUpPermutes | src/components/workouts/WorkoutForm.jsx:285-299 | moving up keeps the same multiset of exercises, is a no-op at index 0 and otherwise swaps the entry with the one above it |
| WorkoutForm.MoveDownPermutes | src/components/workouts/WorkoutForm.jsx:302-316 | moving down keeps the same multiset of exercises, is a no-op at the last index and otherwise swaps the entry with the one below it |
| WorkoutForm.MoveUpThenDown | src/components/workouts/WorkoutForm.jsx:285-316 | moving an entry up and then moving it down again restores the list, and the reverse |
| WorkoutForm.WorkoutBuilder.MoveUp | src/components/workouts/WorkoutForm.jsx:285-299 | the swap through a temporary leaves the list moved up as specified |
| WorkoutForm.WorkoutBuilder.MoveDown | src/components/workouts/WorkoutForm.jsx:302-316 | the swap through a temporary leaves the list moved down as specified |
| WorkoutForm.ExercisesPayload | src/components/workouts/WorkoutForm.jsx:173-185 | there is one payload entry per exercise, in order, each built from its exercise and its position |
| WorkoutForm.PayloadSortOrders | src/components/workouts/WorkoutForm.jsx:179 | each payload entry's sortOrder is its position, so the sort orders are distinct and increasing whatever the form held |
| WorkoutForm.PayloadFollowsMove | src/components/workouts/WorkoutForm.jsx:173-185 | after a move the payload entries swap their contents but the sort orders stay 0, 1, 2 and so on |
| WorkoutForm.PayloadIgnoresCompletion | src/components/workouts/WorkoutForm.jsx:180-184 | each set carries only its type, reps and weight, so the payload does not depend on the sets' completion marks |
| WorkoutForm.Submit | src/components/workouts/WorkoutForm.jsx:164-203 | submit is refused exactly when there is neither a plan id nor a workout id; with a workout id it updates that workout, otherwise it creates one, sending the parsed plan id and the exercise payload |
| WorkoutForm.LoadExercise | src/components/workouts/WorkoutForm.jsx:63-78 | a loaded exercise keeps its ids, name and category, and its sets when it has some; otherwise it gets targetSets or 3 synthesised sets with targetReps or 10 reps and targetWeight or 0 weight; a negative count fails the load, as Array does |
| WorkoutForm.LoadExercises | src/components/workouts/WorkoutForm.jsx:63-79 | a missing exercise list loads as empty; otherwise the load succeeds exactly when every exercise loads, and the list holds the loaded exercises in order |
| WorkoutForm.LoadAll | src/components/workouts/WorkoutForm.jsx:63-78 | `exercises.map(...)` on a present list: it succeeds exactly when every exercise loads, and then holds the loaded exercises one for one, in order |
| WorkoutDetails.Track | src/components/workouts/WorkoutDetails.jsx:28-33 | a loaded set keeps its server fields, is completed only when the server says so, and tracks reps as reps, else targetReps, else 0, and weight as weight, else targetWeight, else 0, a 0 counting as missing |
| WorkoutDetails.TrackAll | src/components/workouts/WorkoutDetails.jsx:28 | every set of an exercise is tracked, in order |
| WorkoutDetails.InitialSets | src/components/workouts/WorkoutDetails.jsx:26-34 | the tracking map has a key exactly for each workout exercise id of the loaded workout |
| WorkoutDetails.InitialSetsLastWins | src/components/workouts/WorkoutDetails.jsx:27-28 | an exercise id maps to the tracked sets of the last exercise carrying it, since each assignment overwrites |
| WorkoutDetails.BuildInitialSets | src/components/workouts/WorkoutDetails.jsx:26-35 | the forEach loop builds exactly the initial tracking map |
| WorkoutDetails.SetTracker.constructor | src/components/workouts/WorkoutDetails.jsx:26-35 | a loaded workout starts with the initial tracking map |
| WorkoutDetails.Changed | src/components/workouts/WorkoutDetails.jsx:147-150 | a typed change overwrites only the actual reps or only the actual weight of the set |
| WorkoutDetails.SetTracker.SetComplete | src/components/workouts/WorkoutDetails.jsx:133-142 | only the completion flag of the one set changes; every other set of the exercise and every other exercise is unchanged, and no key is added or removed |
| WorkoutDetails.SetTracker.SetDataChange | src/components/workouts/WorkoutDetails.jsx:144-153 | only the one set changes, by that field; every other set and exercise is unchanged, and no key is added or removed |
| WorkoutDetails.CompletedIn | src/components/workouts/WorkoutDetails.jsx:103-111 | at most one report per set of the exercise |
| WorkoutDetails.CompletedInIsFilter | src/components/workouts/WorkoutDetails.jsx:103-111 | the reports of an exercise are exactly its sets marked completed, in order, each with its set id and actual reps and weight |
| WorkoutDetails.CollectFrom | src/components/workouts/WorkoutDetails.jsx:103-111 | the inner loop pushes exactly the reports of the completed sets of the exercise |
| WorkoutDetails.CollectOver | src/components/workouts/WorkoutDetails.jsx:101-112 | the outer loop concatenates those reports exercise after exercise in key order |
| WorkoutDetails.SetTracker.CollectCompleted | src/components/workouts/WorkoutDetails.jsx:101-112 | the completion request lists the completed sets of every exercise, in the order the keys are visited |
| WorkoutDetails.CompletedOverIsFilter | src/components/workouts/WorkoutDetails.jsx:101-112 | the request lists as many sets as are marked completed |
| WorkoutDetails.Order | src/components/workouts/WorkoutDetails.jsx:102 | the keys are visited each once, covering exactly the map, in ascending order as object integer keys are |
| WorkoutDetails.DoneEqualsTotal | src/components/workouts/WorkoutDetails.jsx:180-183 | the completed count equals the total exactly when every tracked set is completed |
| WorkoutDetails.CountSets | src/components/workouts/WorkoutDetails.jsx:177-183 | the accumulating loop ends with the total number of sets and the number of completed ones |
| WorkoutDetails.SetTracker.Progress | src/components/workouts/WorkoutDetails.jsx:174-186 | the percentage is 0 before the workout is loaded or with no sets, otherwise completed over total times 100 |
| WorkoutDetails.ProgressBounds | src/components/workouts/WorkoutDetails.jsx:174-186 | the percentage always lies in [0, 100] |
| WorkoutDetails.RatioBounds | src/components/workouts/WorkoutDetails.jsx:185 | a ratio of completed to total sets times 100 lies in [0, 100] and is 100 exactly when every set is completed |
| WorkoutDetails.IsCompleteIff | src/components/workouts/WorkoutDetails.jsx:221 | a loaded workout is complete exactly when it is flagged completed or it has sets and every tracked set is completed |
| WorkoutDetails.DurationMinutes | src/components/workouts/WorkoutDetails.jsx:116 | the duration is the number of started minutes: 0 exactly at 0 seconds, otherwise the least d with elapsed <= 60 d |
| WorkoutDetails.CaloriesBurned | src/components/workouts/WorkoutDetails.jsx:155-159 | the estimate is 5 calories per started minute |
| WorkoutDetails.EstimatesMonotone | src/components/workouts/WorkoutDetails.jsx:155-159 | neither the duration nor the calories ever decrease as the elapsed time grows |
| WorkoutDetails.SplitSeconds | src/components/workouts/WorkoutDetails.jsx:161-164 | h * 3600 + m * 60 + sec gives the seconds back, with minutes and seconds below 60 |
| WorkoutDetails.TimeParts | src/components/workouts/WorkoutDetails.jsx:160-169 | the timer shows one piece below a minute, two below an hour and three from an hour on; the last piece is always the seconds padded to two digits with `s`; from a minute on the piece before it is the minutes padded with `m`; from an hour on the first is the unpadded hours with `h` |
| WorkoutDetails.FormatTimeSamples | src/components/workouts/WorkoutDetails.jsx:161-172 | 59 seconds show as "59s", 60 as "01m 00s" and 3661 as "1h 01m 01s" |
| WorkoutDetails.ReadFormatTime | src/components/workouts/WorkoutDetails.jsx:161-172 | the timer text determines the elapsed seconds: reading it back gives the number shown, so no two times show alike |
| WorkoutDetails.FormatTime | src/components/workouts/WorkoutDetails.jsx:161-172 | `formatTime`: the pieces of `TimeParts` joined by single spaces; `ReadFormatTime` shows the text determines the seconds |
| WorkoutDetails.PartsOf | src/components/workouts/WorkoutDetails.jsx:166-169 | an hours piece only for a positive hour count, a minutes piece once hours or minutes are positive, and always the padded seconds piece last |
| MealForm.ClampQuantity | src/components/meals/MealForm.jsx:208 | the clamped quantity always lies in [0.1, 10]; unparsable or zero input becomes 0.1, a value in range is kept, and values outside are pulled to the nearer bound |
| MealForm.ClampIdempotent | src/components/meals/MealForm.jsx:208 | clamping an already clamped quantity changes nothing |
| MealForm.MealEditor.constructor | src/components/meals/MealForm.jsx:186-218 | the editor starts with the loaded foods |
| MealForm.MealEditor.AddFood | src/components/meals/MealForm.jsx:186-196 | the foods afterwards are the old foods plus exactly one entry at the end, with one serving and the clock reading as its tracking id |
| MealForm.MealEditor.RemoveFood | src/components/meals/MealForm.jsx:199-204 | exactly the foods with a different tracking id are kept, in order |
| MealForm.MealEditor.UpdateQuantity | src/components/meals/MealForm.jsx:207-218 | the list keeps its length; every food with the matching id gets the clamped quantity and every other food is untouched |
| MealForm.MealEditor.CalculateTotals | src/components/meals/MealForm.jsx:221-230 | the accumulating loop returns each of calories, protein, carbs and fat summed as per-serving value times quantity, a missing value or quantity counting 0 |
| MealForm.TotalsAppend | src/components/meals/MealForm.jsx:222-229 | the totals of two lists of foods put together are the sum of their totals, so the reduce adds food by food |
| MealForm.ContributionZero | src/components/meals/MealForm.jsx:223-227 | a food without servings, or without any figures, adds nothing, and an empty list totals zero |
| MealForm.AddFoodTotals | src/components/meals/MealForm.jsx:186-230 | adding a food raises the totals by exactly one serving of it |
| MealForm.RemoveUndoesAdd | src/components/meals/MealForm.jsx:186-204 | removing a food whose tracking id was just handed out restores the list from before the addition |
| MealForm.RemoveTwice | src/components/meals/MealForm.jsx:199-204 | removing the same id twice removes no more than removing it once |
| MealForm.PlanPayload | src/components/meals/MealForm.jsx:122-128 | an empty target becomes null, the calorie target is parsed as an integer and the other targets as numbers |
| MealForm.EmptyTargetsAreNull | src/components/meals/MealForm.jsx:124-127 | a plan saved with all four targets empty sends no targets |
| MealForm.LoadedCalorieTarget | src/components/meals/MealForm.jsx:124 | a calorie target loaded as a non-zero number goes back as that number with its fraction cut off |
| MealForm.CurrentPlanId | src/components/meals/MealForm.jsx:9 | the plan id is the prop when given, else the route parameter, and is absent only when both are |
| MealForm.MealSubmit | src/components/meals/MealForm.jsx:150-163 | a meal is refused with "No meal plan selected" exactly when there is no plan id; otherwise it is sent with the plan id parsed as an integer |
| MealsList.ListMeals | src/components/meals/MealsList.jsx:30-47 | the meals shown are exactly the plan's meals with a schedule time on the selected day, each as often as in the plan, sorted ascending by schedule time by the in-place sort, which is stable: meals at the same time keep their plan order, so the list is the stable sort of the day's meals |
| MealsList.DayMeals.constructor | src/components/meals/MealsList.jsx:137-145 | the day starts with no meals |
| MealsList.DayMeals.Load | src/components/meals/MealsList.jsx:30-47 | loading sets the day's meals to exactly the plan's meals of the selected day, ordered by schedule time, meals of one time in plan order: the stable sort of those meals |
| MealsList.DailyTotalsAreCompletedSum | src/components/meals/MealsList.jsx:137-145 | the daily totals are the sum of the stored totals of exactly the completed meals, a missing figure counting 0 |
| MealsList.SumTotalsAppend | src/components/meals/MealsList.jsx:137-145 | summing two lists of meals put together adds their sums |
| MealsList.NothingEatenYet | src/components/meals/MealsList.jsx:137-145 | with no completed meal the daily totals are all zero |
| MealsList.DayMeals.DailyTotals | src/components/meals/MealsList.jsx:137-145 | the accumulating loop returns the daily totals of the day's meals |
| MealsList.MarkCompleted | src/components/meals/MealsList.jsx:116-122 | the list keeps its length; exactly the meals with the id become completed at the current time and every other meal is unchanged |
| MealsList.CompletingAddsMeal | src/components/meals/MealsList.jsx:116-145 | completing an open meal with a unique id raises the daily totals by exactly that meal's totals |
| MealsList.UnmarkedPrefix | src/components/meals/MealsList.jsx:116-122 | completing an id no meal carries leaves the list as it was |
| MealsList.DayMeals.MealComplete | src/components/meals/MealsList.jsx:109-123 | a completion marks the meals with the id; a call with isCompleted false changes nothing |
| MealsList.WaterTracker.constructor | src/components/meals/MealsList.jsx:56-73 | the counter starts at 0 with no remembered record |
| MealsList.WaterTracker.Load | src/components/meals/MealsList.jsx:61-68 | with records the counter is the sum of their amounts and the remembered id the first record's; with none it is 0 and no id |
| MealsList.WaterTracker.LoadFailed | src/components/meals/MealsList.jsx:69-72 | a failed fetch resets the counter to 0 and keeps the remembered id |
| MealsList.AddWaterRequest | src/components/meals/MealsList.jsx:81-95 | with a remembered id (0 counting as none) the request updates that record to the counter plus the amount; otherwise it creates a record with the amount |
| MealsList.WaterTracker.AddWater | src/components/meals/MealsList.jsx:79-97 | the request is the one above and the counter rises by exactly the amount, keeping the remembered id |
| MealsList.AddWaterDoubleCounts | src/components/meals/MealsList.jsx:61-87 | as written, with two records of 100 and 200 ml, adding 250 ml leaves the counter at 550 but the server's records summing to 750 |
| MealsList.CorrectedAddWaterRequest | src/components/meals/MealsList.jsx:81-95 | the corrected request updates the first record to its own amount plus the added amount, or creates a record with the amount |
| MealsList.CorrectedAddWaterKeepsTotal | src/components/meals/MealsList.jsx:79-97 | with the corrected request the server's day total rises by exactly the amount the counter rises by |
| MealsList.WaterBarWidth | src/components/meals/MealsList.jsx:187 | the bar width is intake / 2500 * 100 percent up to 2500 ml, 100 from there on, and never negative for a non-negative intake |
| MealsList.WaterBarMonotone | src/components/meals/MealsList.jsx:187 | more water never shortens the bar |
| Nutrition.MealIcon | src/components/meals/MealsList.jsx:293-304 | the six known meal types get their icons and any other type gets utensils |
| Nutrition.MealIconCases | src/components/meals/MealDetail.jsx:223-234 | the detail view's icon is always one of the six, and utensils goes exactly to Dinner and to the unknown types |
| MealDetail.ToggleComplete | src/components/meals/MealDetail.jsx:45-56 | toggling flips the completion flag, stamps an opened meal with the current time, clears the time of a reopened one and changes no other field |
| MealDetail.ToggleTwice | src/components/meals/MealDetail.jsx:45-56 | toggling twice restores the meal except for the completion time |
| MealDetail.FoodCalories | src/components/meals/MealDetail.jsx:187 | the calories cell is calories per serving times quantity rounded to the nearest integer; a `null` factor multiplies as 0 and gives 0; the cell is NaN exactly when a factor is absent |
| MealDetail.MacroCellOf | src/components/meals/MealDetail.jsx:190-196 | a macro cell is a dash exactly when the macro is 0, `null` or absent; otherwise it shows macro times quantity, 0 for a `null` quantity and NaN exactly for an absent one |
| MealDetail.AsNumber | src/components/meals/MealDetail.jsx:187-196 | in a product a number stands for itself, `null` for 0, and an absent figure for NaN |
| MealDetail.NullQuantityShowsZero | src/components/meals/MealDetail.jsx:187-196 | a row with a `null` quantity shows 0 calories, and each macro cell is a dash or 0 grams |
| MealDetail.MacroCells | src/components/meals/MealDetail.jsx:189-197 | a food row has exactly the protein, carbs and fat cells, in that order |
| MealDetail.ServingLabel | src/components/meals/MealDetail.jsx:181 | the label is "serving" exactly when the quantity is the number 1, and "servings" otherwise, `null` and absent included |
| MealDetail.Summary | src/components/meals/MealDetail.jsx:139-156 | each summary card shows the meal's stored total, or 0 when it is absent or 0 |
| MealDetail.TypeLabel | src/components/meals/MealDetail.jsx:101 | the type label is the meal type, or "Meal" when it is empty |
| Goals.GoalProgress | src/components/progress/GoalsList.jsx:53-59 | progress is min(round((current - start) / (target - start) * 100), 100) when target and start differ; it is never NaN or +Infinity and never above 100; with target equal to start it is 0 when current equals start (the NaN guard), 100 above the start (+Infinity capped) and -Infinity below it |
| Goals.RoundMonotone | src/components/progress/GoalsList.jsx:55 | Math.round never decreases when its argument grows |
| Goals.ProgressEndpoints | src/components/progress/GoalsList.jsx:53-59 | a goal whose current value is its target shows 100 and one still at its start shows 0 |
| Goals.ProgressMonotone | src/components/progress/GoalsList.jsx:53-59 | moving the current value towards the target never lowers the progress, for a rising and for a falling goal |
| Goals.ProgressAwayFromTarget | src/components/progress/GoalsList.jsx:54-56 | with no lower clamp, a current value on the far side of the start gives a progress of at most 0 |
| Goals.DaysRemaining | src/components/progress/GoalsList.jsx:61-72 | the days remaining are the day number of the target minus today's, negative exactly when the target's midnight is before today's |
| Goals.StatusClass | src/components/progress/GoalsList.jsx:74-84 | the status is overdue exactly when d < 0, due-soon exactly when 0 <= d <= 7, and on-track exactly when d > 7 |
| Goals.StatusClassCases | src/components/progress/GoalsList.jsx:74-84 | every card gets one of the three status classes |
| Goals.DaysLabel | src/components/progress/GoalsList.jsx:160-162 | the label reads "d days left" for d > 0 and "abs(d) days overdue" otherwise |
| Goals.DaysLabelSaysOverdue | src/components/progress/GoalsList.jsx:160-162 | the label calls the goal overdue exactly when d <= 0, a goal due today included |
| Goals.DueTodayReadsOverdue | src/components/progress/GoalsList.jsx:160-162 | a goal due today reads "0 days overdue" on a card whose status class is due-soon |
| Goals.CorrectedDaysLabel | src/components/progress/GoalsList.jsx:160-162 | the corrected label reads "d days left" for d >= 0 and "-d days overdue" for d < 0 |
| Goals.CorrectedLabelAgreesWithStatus | src/components/progress/GoalsList.jsx:160-162 | the corrected label says overdue exactly when the status class is overdue |
| GoalForm.InitialForm | src/components/progress/GoalForm.jsx:12-21 | a new goal is a Weight goal, one of the listed types, starting today, with blank values, no target date and not achieved |
| GoalForm.LoadForm | src/components/progress/GoalForm.jsx:36-48 | a loaded goal defaults its type to Weight, its values to '' and isAchieved to false, and its dates are cut to their day |
| GoalForm.LoadedTypeListed | src/components/progress/GoalForm.jsx:24-40 | a loaded goal with a listed type or none has a type from the list of six |
| GoalForm.Submit | src/components/progress/GoalForm.jsx:69-95 | submit is refused with "Target date must be in the future" exactly when the target day is before today; otherwise the payload carries the three values parsed as numbers, the start value standing in for a blank current value, and every other field unchanged |
| GoalForm.TodayIsAccepted | src/components/progress/GoalForm.jsx:76-84 | a target date of today or later is accepted |
| GoalForm.BlankCurrentIsStart | src/components/progress/GoalForm.jsx:87-90 | a blank current value is sent as the start value |
| GoalForm.LoadThenSubmit | src/components/progress/GoalForm.jsx:36-95 | editing a goal with non-zero values whose target day has not passed and saving it unchanged sends back its values and its dates cut to the day |
| GoalForm.LoadedZeroCurrentBecomesStart | src/components/progress/GoalForm.jsx:43-90 | a loaded current value of 0 loads blank and is saved as the start value |
| WeightChart.MonthsBack | src/components/progress/WeightChart.jsx:81-103 | '1m', '6m' and '1y' reach back 1, 6 and 12 months; every other limited range, including an unknown one, reaches back 3 months as '3m' and the default case do |
| WeightChart.CutoffIsMonthsBack | src/components/progress/WeightChart.jsx:81-103 | the start date of each range, including the `setFullYear` of '1y', is the same date and time that many months before today |
| WeightChart.Cutoff | src/components/progress/WeightChart.jsx:79-103 | the start date of each range, an unknown range counting as '3m'; `CutoffIsMonthsBack` states it as months back from today |
| WeightChart.FilterByRange | src/components/progress/WeightChart.jsx:77-106 | 'all' returns the records unchanged; any other range keeps, in order, exactly the records dated on or after its start date |
| WeightChart.UnknownRangeIsThreeMonths | src/components/progress/WeightChart.jsx:100-102 | a range the selector does not offer keeps exactly the records '3m' keeps |
| WeightChart.WiderRangeRefines | src/components/progress/WeightChart.jsx:81-105 | the ranges nest: narrowing a wider range's records to a narrower range equals the narrower range, and the wider range keeps every record the narrower one keeps |
| WeightChart.Points | src/components/progress/WeightChart.jsx:48-50 | one point per record, in order, carrying its date, weight and body fat |
| WeightChart.ChartUpdate | src/components/progress/WeightChart.jsx:36-75 | no update without records; otherwise one point per record in range, ordered by date, oldest first: the points of an ordering of exactly the records in range, duplicates counted, in which records of one date keep their input order |
| WeightChart.ChartCoversRange | src/components/progress/WeightChart.jsx:40-50 | every record in range is plotted, and every plotted point comes from a record in range |
| WeightChart.CalculateStats | src/components/progress/WeightChart.jsx:189-217 | null exactly when there are fewer than two records or fewer than two records with a weight; otherwise the start weight is that of the first-listed of the earliest weighed records and the current weight that of the last-listed of the latest ones, the total change is their difference, the span is the rounded whole days between them and is never negative, and the weekly change is the change per day times 7, with a zero-day span dividing by zero |
| WeightChart.StatsEnds | src/components/progress/WeightChart.jsx:193-200 | after the filter and the sort, the first record is the earliest weighed record and the last is the latest |
| WeightChart.SpanDaysNonNegative | src/components/progress/WeightChart.jsx:205 | the rounded day count between two ordered dates is never negative |
| WeightChart.StatsOnOneInstant | src/components/progress/WeightChart.jsx:205-208 | when the span between the first and last weighed record rounds to 0 days (under half a day) and the weight changed, the weekly change is not a finite number |
| Progress.MeasurementsOf | src/components/progress/ProgressDetail.jsx:79-92 | falsy measurements read as null, non-empty text as what the JSON decoder gives (null when it throws), and an object as itself |
| ProgressPage.LatestStatsOf | src/pages/ProgressPage.jsx:85-119 | all figures null without records; otherwise the weight, body fat, heart rate and decoded measurements of the first-listed of the records dated last: every record before it is dated earlier |
| ProgressPage.Change | src/pages/ProgressPage.jsx:139-144 | a change is reported exactly when both ends have a truthy figure, and it is the newer minus the older |
| ProgressPage.ChangeOf | src/pages/ProgressPage.jsx:122-146 | nothing below two records; otherwise the weight and body-fat changes from the first-listed of the records dated first to the last-listed of the records dated last |
| ProgressPage.ChangeNeedsBothEnds | src/pages/ProgressPage.jsx:131-141 | with unique oldest and newest records, the weight change is shown exactly when both of them have a weight, whatever the records in between hold |
| ProgressPage.SameDateEnds | src/pages/ProgressPage.jsx:96-136 | for two records of one date the latest weight shown is the first record's while the change runs from the first to the second, so the current weight and the change can come from different records |
| ProgressPage.GoalsPartition | src/pages/ProgressPage.jsx:148-149 | the active and completed goal lists split the goals: their lengths add up, every goal is in exactly one, and neither holds anything else |
| ProgressPage.ActiveGoals | src/pages/ProgressPage.jsx:148 | the active goals are exactly the goals not achieved, in goal order |
| ProgressPage.CompletedGoals | src/pages/ProgressPage.jsx:149 | the completed goals are exactly the achieved goals, in goal order |
| ProgressPage.ViewAllGoals | src/pages/ProgressPage.jsx:306 | the button condition, more than three active goals; `ViewAllWhenHidden` states what it means |
| ProgressPage.OverviewGoals | src/pages/ProgressPage.jsx:282 | the overview shows a prefix of the active goals of at most three |
| ProgressPage.ViewAllWhenHidden | src/pages/ProgressPage.jsx:306 | the "view all goals" button shows exactly when the overview leaves an active goal out |
| ProgressPage.Bmi | src/pages/ProgressPage.jsx:245 | a BMI is shown exactly for a truthy weight, and times 1.75 squared it gives the weight back |
| ProgressPage.OverviewBar | src/pages/ProgressPage.jsx:291-293 | a finite bar width is capped at 100 |
| ProgressPage.OverviewBarMatchesCard | src/pages/ProgressPage.jsx:291-293 | the overview bar is NaN exactly for a goal whose target is its start and that has not moved; everywhere else it equals the goal card's progress |
| ProgressList.DisplayData | src/components/progress/ProgressList.jsx:8-13 | the shown records are newest first and drawn from the data, duplicates counted; records of one date appear as the first ones of that date in input order; with no limit (or limit 0) they are all the records with every date's records in input order, otherwise as many as `slice(0, limit)` keeps |
| ProgressList.LimitKeepsNewest | src/components/progress/ProgressList.jsx:8-13 | a positive limit shows min(limit, count) records, and every record left out is no newer than any record shown |
| ProgressList.EmptyStateIff | src/components/progress/ProgressList.jsx:32-41 | the empty state shows exactly when there are no records or the limit cuts the table down to nothing |
| ProgressList.ViewAllIffHidden | src/components/progress/ProgressList.jsx:90 | with a positive limit, the "view all" button shows exactly when the table leaves records out |
| ProgressList.ShowViewAll | src/components/progress/ProgressList.jsx:90 | the button condition, a comparison with an absent limit being false; `ViewAllIffHidden` states what it means |
| ProgressDetail.NextIndex | src/components/progress/ProgressDetail.jsx:56-60 | on a valid index, the next photo is the index plus one modulo the photo count |
| ProgressDetail.PrevIndex | src/components/progress/ProgressDetail.jsx:62-66 | on a valid index, the previous photo is the index minus one modulo the photo count |
| ProgressDetail.NextPrevInverse | src/components/progress/ProgressDetail.jsx:56-66 | stepping back undoes stepping on, and stepping on undoes stepping back |
| ProgressDetail.StepsAdvance | src/components/progress/ProgressDetail.jsx:56-60 | away from the last photo, k steps on advance the index by k |
| ProgressDetail.StepsCompose | src/components/progress/ProgressDetail.jsx:56-60 | a steps then b steps equal a + b steps |
| ProgressDetail.FullCircle | src/components/progress/ProgressDetail.jsx:56-60 | stepping on once per photo comes back to the starting photo |
| ProgressDetail.PhotoViewer.constructor | src/components/progress/ProgressDetail.jsx:9-10 | the viewer starts on the first photo with the modal closed, which is a valid index whenever the record has a photo |
| ProgressDetail.PhotoViewer.OpenPhotoModal | src/components/progress/ProgressDetail.jsx:47-50 | opening shows the photo at the given index, and the index is valid exactly when it names one of the record's photos |
| ProgressDetail.PhotoViewer.ClosePhotoModal | src/components/progress/ProgressDetail.jsx:52-54 | closing hides the modal and keeps the current photo |
| ProgressDetail.PhotoViewer.NextPhoto | src/components/progress/ProgressDetail.jsx:56-60 | the index moves on with wrap-around, the modal stays as it was, and a valid index stays valid |
| ProgressDetail.PhotoViewer.PrevPhoto | src/components/progress/ProgressDetail.jsx:62-66 | the index moves back with wrap-around, the modal stays as it was, and a valid index stays valid |
| ProgressDetail.NoteParagraphs | src/components/progress/ProgressDetail.jsx:186-192 | empty notes show no paragraph; otherwise the paragraphs are the notes' lines, none holding a line break |
| ProgressDetail.ParagraphsRejoin | src/components/progress/ProgressDetail.jsx:190-192 | the paragraphs joined with line breaks give the notes back, blank lines included |
| ProgressDetail.ParagraphCount | src/components/progress/ProgressDetail.jsx:190 | there is one paragraph more than there are line breaks |
| ProgressForm.BlankMeasurements | src/components/progress/ProgressForm.jsx:21-28 | the six measurement fields, all empty |
| ProgressForm.InitialForm | src/components/progress/ProgressForm.jsx:15-29 | a new record's form is dated today with every figure, the notes and the measurements empty |
| ProgressForm.DecodeMeasurements | src/components/progress/ProgressForm.jsx:41-51 | stored measurements are read as the detail page reads them, with null, a failed decode and missing measurements all becoming the empty object, and an object kept as it is |
| ProgressForm.MeasurementField | src/components/progress/ProgressForm.jsx:63-68 | a measurement field is filled in exactly when the decoded measurements hold a truthy value for it |
| ProgressForm.LoadForm | src/components/progress/ProgressForm.jsx:54-70 | the edited record's day, weight, body fat, heart rate (its number, or blank when missing or 0) and notes fill the top level, and exactly the six measurement fields are read from the decoded measurements |
| ProgressForm.HandleChange | src/components/progress/ProgressForm.jsx:82-103 | the six measurement names update the measurements, every other name the top-level fields |
| ProgressForm.ChangeTouchesOneField | src/components/progress/ProgressForm.jsx:82-103 | a change alters no other field in either place, and it leaves the other place untouched |
| ProgressForm.ChangeKeepsMeasurementKeys | src/components/progress/ProgressForm.jsx:94-101 | a change keeps the measurement fields the six known ones |
| ProgressForm.Cleaned | src/components/progress/ProgressForm.jsx:129-136 | the cleaned measurements hold exactly the filled-in fields, each parsed with `parseFloat` |
| ProgressForm.CleanMeasurements | src/components/progress/ProgressForm.jsx:129-136 | the `forEach` loop builds exactly the cleaned measurements |
| ProgressForm.BuildPayload | src/components/progress/ProgressForm.jsx:129-147 | blank figures are sent as null and the rest parsed, the heart rate as an integer; the measurements are null exactly when none is filled in, and otherwise the encoding of the cleaned measurements |
| ProgressForm.SavedMeasurementsReadBack | src/components/progress/ProgressForm.jsx:144-146 | when the encoder and decoder round-trip, the detail page reads back exactly the cleaned measurements, and reads none when none was filled in |
| ExerciseSelector.SearchStep | src/components/workouts/ExerciseSelector.jsx:59-65 | the search step keeps, in order, exactly the exercises the term matches; a term that trims to nothing keeps all of them |
| ExerciseSelector.CategoryStep | src/components/workouts/ExerciseSelector.jsx:68-72 | the category step keeps exactly the exercises of the selected category, or all of them when none is selected |
| ExerciseSelector.MuscleStep | src/components/workouts/ExerciseSelector.jsx:75-80 | the muscle step keeps exactly the exercises with a target muscle in the selected group, or all of them when none is selected |
| ExerciseSelector.EquipmentStep | src/components/workouts/ExerciseSelector.jsx:83-87 | the equipment step keeps exactly the exercises with the selected equipment, or all of them when none is selected |
| ExerciseSelector.ApplyFilters | src/components/workouts/ExerciseSelector.jsx:55-90 | the four steps in a row keep, in their original order, exactly the exercises that meet every criterion |
| ExerciseSelector.StepOrderIrrelevant | src/components/workouts/ExerciseSelector.jsx:58-87 | running the steps in the opposite order gives the same list |
| ExerciseSelector.FilterTwiceIsOnce | src/components/workouts/ExerciseSelector.jsx:55-90 | filtering the filtered list again changes nothing |
| ExerciseSelector.ClearFilters | src/components/workouts/ExerciseSelector.jsx:111-116 | clearing sets all four criteria back to empty |
| ExerciseSelector.ClearedShowsAll | src/components/workouts/ExerciseSelector.jsx:111-116 | with the criteria cleared, every exercise is listed in the order it came |
| ExerciseSelector.EquipmentValues | src/components/workouts/ExerciseSelector.jsx:37-39 | the values kept are exactly the equipment strings of the exercises that do not trim to nothing |
| ExerciseSelector.Distinct | src/components/workouts/ExerciseSelector.jsx:37 | `new Set` keeps the same values, each once |
| ExerciseSelector.FirstIndex | src/components/workouts/ExerciseSelector.jsx:37 | the position of a value's first occurrence |
| ExerciseSelector.FirstIndexInPrefix | src/components/workouts/ExerciseSelector.jsx:37 | a value's first occurrence in a prefix is its first occurrence in the whole sequence |
| ExerciseSelector.DistinctKeepsFirstOrder | src/components/workouts/ExerciseSelector.jsx:37 | the distinct values come out in the order of their first occurrences |
| ExerciseSelector.EquipmentOptions | src/components/workouts/ExerciseSelector.jsx:37-41 | the equipment choices are the non-blank equipment values of the exercises, each once, in first-appearance order |
| ExerciseSelector.ResultsNoun | src/components/workouts/ExerciseSelector.jsx:205 | the singular noun is used exactly for a count of one |
| ExerciseSelector.HeaderSaysFound | src/components/workouts/ExerciseSelector.jsx:203-207 | the heading ends in " Found" exactly when a criterion holds any text |
| ExerciseSelector.ResultsHeader | src/components/workouts/ExerciseSelector.jsx:203-207 | the heading: the count, the singular noun for exactly one result and the plural otherwise, and " Found" when a criterion is set (its meaning is stated by `HeaderSaysFound`) |
| ExerciseSelector.BlankSearchSaysFound | src/components/workouts/ExerciseSelector.jsx:203-207 | a search of blanks lists every exercise, and the heading still says " Found" |
| ExerciseDetail.MusclesPartition | src/components/workouts/ExerciseDetail.jsx:128-148 | the primary and the secondary lists split the target muscles: their lengths add up and each muscle is in exactly one |
| ExerciseDetail.Groups | src/components/workouts/ExerciseDetail.jsx:130-133 | one muscle group name per muscle, in order |
| ExerciseDetail.MuscleSectionOf | src/components/workouts/ExerciseDetail.jsx:123-155 | "No muscle data" exactly when there are no target muscles; otherwise the primary groups in order, plus the secondary groups in order exactly when some muscle is not primary |
| ExerciseDetail.SecondaryShownIffNonEmpty | src/components/workouts/ExerciseDetail.jsx:138-148 | the secondary list is shown exactly when it would not be empty |
| ExerciseDetail.InstructionLines | src/components/workouts/ExerciseDetail.jsx:160-170 | "No instructions" exactly for missing or empty text; otherwise the text's lines in order and unaltered, holding no line break, with exactly the lines that trim to nothing left out |
| ExerciseDetail.InstructionsShownInFull | src/components/workouts/ExerciseDetail.jsx:162-166 | text without a blank line is shown in full: its paragraphs joined with line breaks give the text back |
| ExerciseDetail.ElementFor | src/components/workouts/ExerciseDetail.jsx:90-101 | 'Image' is shown as an image, 'Video' as a video player, and every other type as a link |
| ExerciseDetail.MediaGallery | src/components/workouts/ExerciseDetail.jsx:86-110 | the placeholder exactly when there is no medium; otherwise one element per medium, in order |
| WorkoutList.ByScheduledDate | src/components/workouts/WorkoutList.jsx:59-63 | the sort keeps the same workouts with the same multiplicities, orders the dated ones by scheduled time with workouts of one time in input order, and puts every undated one after every dated one, in input order |
| WorkoutList.DatedThenUndated | src/components/workouts/WorkoutList.jsx:59-63 | sorted dated workouts followed by undated ones are in the comparator's order |
| WorkoutList.DayWorkoutsAsWritten | src/components/workouts/WorkoutList.jsx:37-63 | the list as written holds exactly the plan's workouts whose day, normalised to midnight, equals the un-normalised selected date (scheduled ones from today on, completed ones before), duplicates counted, in the comparator's order with ties and undated workouts in input order |
| WorkoutList.InitialSelectionListsNothing | src/components/workouts/WorkoutList.jsx:9-55 | with the selected date starting at the current instant, the list is empty unless that instant is exactly midnight |
| WorkoutList.DayWorkouts | src/components/workouts/WorkoutList.jsx:37-63 | the list holds exactly the workouts scheduled on the selected day (today or later) or completed on it (earlier days), with the same multiplicities, in comparator order with ties and undated workouts in input order |
| WorkoutList.InitialSelectionListsToday | src/components/workouts/WorkoutList.jsx:9-47 | on first display the day-compared list shows exactly the workouts scheduled today |
| WorkoutList.AgreesOnMidnights | src/components/workouts/WorkoutList.jsx:40-55 | for a selected date that is a midnight, as a calendar pick is, the day-compared list is the list as written |
| WorkoutList.TileClass | src/components/workouts/WorkoutList.jsx:111-121 | a tile is highlighted exactly in the month view on Monday to Friday, and otherwise has no class |
| WorkoutList.TileClassWeekly | src/components/workouts/WorkoutList.jsx:111-121 | the highlighting repeats every seven days |
| WorkoutList.ActionFor | src/components/workouts/WorkoutList.jsx:225-243 | a completed workout shows the badge, an open one "Log Workout" exactly on a past date and "Start Workout" otherwise |
| WorkoutList.IsPastDate | src/components/workouts/WorkoutList.jsx:137 | the selected date lies before the current day's midnight; `ActionFor` and `ActionMatchesView` state what it decides |
| WorkoutList.ActionMatchesView | src/components/workouts/WorkoutList.jsx:225-243 | where scheduled workouts are listed no "Log" button appears, and where completed ones are listed no "Start" button appears |
| Plans.ActivePlan | src/pages/WorkoutsPage.jsx:24-32 | no plan exactly when there are none; otherwise a listed plan, which is the first current plan when any plan is current and the first plan when none is |
| Plans.Current | src/pages/WorkoutsPage.jsx:25-29 | a plan is current when it has a start date no later than now and no end date or one no earlier than now |
| Plans.ActivePlanPrefersCurrent | src/pages/MealsPage.jsx:26-34 | whenever some plan is current, the chosen plan is current |
| Plans.ActivePlanFirstCurrent | src/pages/DashboardPage.jsx:58-62 | a current first plan is always the one chosen |
| Plans.SelectPlan | src/pages/WorkoutsPage.jsx:49-52 | the selected plan is the first listed plan with the id, and nothing exactly when no plan has it |
| Plans.SelectListedPlan | src/pages/MealsPage.jsx:51-54 | selecting the unique id of a listed plan selects exactly that plan |
| Dashboard.RecentWorkouts | src/pages/DashboardPage.jsx:44-47 | at most five completed workouts drawn from the list, duplicates counted, most recently completed first; any completed workout left out was completed no later than every one shown, and of each completion time the shown ones are the first of that time in list order |
| Dashboard.UpcomingWorkouts | src/pages/DashboardPage.jsx:49-52 | at most three open workouts scheduled from now on, drawn from the list with duplicates counted, soonest first; any such workout left out is scheduled no sooner than every one shown, and of each time the shown ones are the first of that time in list order |
| Dashboard.UpcomingExcludesDoneAndPast | src/pages/DashboardPage.jsx:50 | a workout that is completed, undated or dated before now is never upcoming |
| Dashboard.TodaysMeals | src/pages/DashboardPage.jsx:56-70 | nothing without meal plans; otherwise the meals of the chosen plan whose schedule time falls on today, in plan order, each as often as the plan holds it, and no other meal |
| Dashboard.WeightProgress | src/pages/DashboardPage.jsx:78-84 | one point per record with a weight, oldest first, the points being exactly the date and weight pairs of such records, duplicates counted, with points of one date in record order |
| Dashboard.WeighedPoints | src/pages/DashboardPage.jsx:79-82 | the k-th point carries the date and weight of the k-th record that has a weight |
| Dashboard.PointsOfWeighed | src/pages/DashboardPage.jsx:79-83 | the points mapped from the weighed records are exactly the date and weight pairs of the weighed records |
| Dashboard.StatsOf | src/pages/DashboardPage.jsx:97-103 | every figure is the summary's, with a missing or zero one shown as 0 |
| Dashboard.EmptySummaryShowsInitial | src/pages/DashboardPage.jsx:97-103 | an empty summary shows the same figures as the page before loading |
| FoodSearch.SearchRequest | src/components/meals/FoodSearch.jsx:54-82 | nothing is sent exactly when the term trims to nothing and no category is selected; otherwise `q` is sent as typed exactly when the term is not blank, and `category` exactly when one is selected, with no other parameter |
| FoodSearch.HandleSearch | src/components/meals/FoodSearch.jsx:54-82 | the guard and the step-by-step parameter filling send exactly the search request |
| FoodSearch.HandleCustomFoodChange | src/components/meals/FoodSearch.jsx:92-100 | the name, brand and unit take the input as typed, the five figures take the parsed number, with an unparsable or zero input stored as 0, and every other field is left as it was |
| FoodSearch.UnparsableFigureIsZero | src/components/meals/FoodSearch.jsx:98 | a figure that does not parse, or parses to 0, is stored as 0 |
| FoodSearch.AddCustomFood | src/components/meals/FoodSearch.jsx:103-117 | refused with "Food name is required" exactly when the name is empty; otherwise the form is sent unchanged and marked custom |
| FoodSearch.NamedFoodIsAccepted | src/components/meals/FoodSearch.jsx:106-109 | the form as it opens is refused, and once a name is typed it is accepted |
| FoodSearch.ResultPanel | src/components/meals/FoodSearch.jsx:305-394 | exactly one of the five panels shows, by precedence: loading, results, recent foods (only with no term and no category), "no foods found" (with a term or a category), the instructions |
| FoodSearch.QuickSearchSendsNothing | src/components/meals/FoodSearch.jsx:380-390 | a quick-search button on the instructions panel, as written, sends nothing, whatever word it sets |
| FoodSearch.QuickSearchSendsWord | src/components/meals/FoodSearch.jsx:386-390 | a quick search that searches its own word sends exactly that word as `q` |
| Login.ValidationErrors | src/components/auth/Login/Login.jsx:30-40 | the username is reported exactly when it trims to nothing and the password exactly when it is empty, with their messages and no other key |
| Login.ValidateForm | src/components/auth/Login/Login.jsx:30-43 | the errors built one check at a time are the validation errors, and the form is valid exactly when there are none |
| Login.ValidIff | src/components/auth/Login/Login.jsx:33-42 | the form passes exactly when the username has a non-blank character and the password is not empty |
| Login.HandleChange | src/components/auth/Login/Login.jsx:45-59 | the named field takes the value, and its error is blanked only when it has a message |
| Login.ChangeTouchesOneField | src/components/auth/Login/Login.jsx:45-59 | a change keeps every other field and every other error, leaves the changed field without a message, and keeps both credentials present |
| Login.HandleSubmit | src/components/auth/Login/Login.jsx:61-68 | login is attempted with the form exactly when validation passes; otherwise the non-empty validation errors are shown |
| Login.InitialFormRefused | src/components/auth/Login/Login.jsx:20-64 | the form as it opens cannot be submitted and reports both fields |
| Login.BlankUnicodeUsernameRefused | src/components/auth/Login/Login.jsx:33 | a username of ideographic spaces alone is refused as blank, as `trim` removes them |
| WorkoutForm.WorkoutBuilder.constructor | src/components/workouts/WorkoutForm.jsx:30-37 | the builder starts with no exercises |
| FoodSearch.QuickSearchAsWritten | src/components/meals/FoodSearch.jsx:386-390 | a quick-search click as written sends the request of the render's term and category, so the word it sets is never sent |
| FoodSearch.QuickSearch | src/components/meals/FoodSearch.jsx:386-390 | a quick search with a non-blank word sends that word as `q` |
| Goals.LabelEndings | src/components/progress/GoalsList.jsx:160-162 | the "days overdue" suffix reads as overdue and the "days left" suffix does not |
| Calendar.Midnight | src/components/workouts/WorkoutList.jsx:38-53 | `setHours(0, 0, 0, 0)` gives a midnight no later than the time and less than a day before it |
| Calendar.MidnightSameDay | src/components/workouts/WorkoutList.jsx:45-54 | normalising twice changes nothing, and two times share a midnight exactly when they share a day |
| Calendar.BeforeMidnight | src/components/workouts/WorkoutList.jsx:137 | a time lies before today's midnight exactly when it falls on an earlier day |
| Calendar.WeekDay | src/components/workouts/WorkoutList.jsx:116 | `getDay()` is a weekday number from 0 to 6 |
| Calendar.YearIsTwelveMonths | src/components/progress/WeightChart.jsx:94-96 | `setFullYear(year - 1)` lands on the same instant as going back twelve months |
| Calendar.DaysBeforeMonth | src/components/progress/WeightChart.jsx:81-96 | the days before a month are the common-year totals 0, 31, 59, 90, 120, 151, 181, 212, 243, 273, 304, 334 and 365, plus one from March on in a leap year |
| Calendar.MonthsBeforeMonotone | src/components/progress/WeightChart.jsx:81-96 | going back more months never lands later in time, day overflow included |
| Js.Round | src/components/progress/GoalsList.jsx:55 | `Math.round` gives the integer within half of the number, halves rounded up |
| Js.Div | src/components/progress/GoalsList.jsx:55-56 | a division by zero gives +Infinity, -Infinity or NaN by the sign of the dividend, any other division the quotient |
| Js.RoundNum | src/components/progress/GoalsList.jsx:55 | rounding keeps infinities and NaN and rounds finite numbers |
| Js.MinNum | src/components/progress/GoalsList.jsx:54-56 | `Math.min` with the cap propagates NaN, keeps -Infinity, and caps everything else |
| Js.Take | src/pages/DashboardPage.jsx:47 | `slice(0, n)` keeps the first n elements, or all when there are fewer |
| Js.SliceEnd | src/components/progress/ProgressList.jsx:13 | a slice end is clamped to the length, a negative one counted from the end |
| Js.RealOr | src/pages/DashboardPage.jsx:98-102 | a falsy-fallback read is the number when present and non-zero, the fallback otherwise |
| Js.ValueField | src/components/progress/ProgressForm.jsx:58-59 | a loaded figure fills the field exactly when it is truthy, otherwise the field is blank |
| Js.FloatOrNull | src/components/progress/ProgressForm.jsx:140-141 | a blank field is sent as null, a filled one parsed with `parseFloat` |
| Js.IntOrNull | src/components/progress/ProgressForm.jsx:142 | a blank field is sent as null, a filled one parsed with `parseInt` |
| Seqs.SortBy | src/components/progress/WeightChart.jsx:43-45 | sorting with a numeric comparator gives a permutation of the input in key order |
| Seqs.SortByStable | src/components/progress/WeightChart.jsx:43-45 | the sort is stable: for every key, the elements with that key appear in the order of the input |
| Seqs.SortedClassesUnique | src/components/meals/MealsList.jsx:41-45 | two sequences sorted by key in which every key's elements come in the same order are equal, so a stable sort has exactly one result |
| Seqs.SwapKeepsClasses | src/components/meals/MealsList.jsx:41-45 | exchanging two neighbours with different keys keeps the order among equal keys |
| Seqs.FilterKeepsOrder | src/pages/DashboardPage.jsx:56-70 | `filter` keeps the kept elements in their order and each as often as the input holds it, and drops every other element |
| Seqs.SortInPlace | src/components/meals/MealsList.jsx:41-45 | the in-place sort leaves the array in key order, a permutation of what it held, with equal keys in their old order, which makes it the stable sort `Seqs.SortBy` of the old contents |
| Seqs.SortByFirstIsLeast | src/pages/ProgressPage.jsx:96-100 | the first element after sorting is an input element with the least key |
| Seqs.SortByLastIsGreatest | src/pages/ProgressPage.jsx:131-136 | the last element after sorting is an input element with the greatest key |
| Seqs.TakeSortedKeepsLeast | src/pages/DashboardPage.jsx:44-52 | a prefix of the sorted elements leaves out only elements whose keys are no smaller than any it keeps |
| Seqs.TakeSortedBy | src/pages/DashboardPage.jsx:44-52 | `sort(...).slice(0, n)` keeps at most n elements drawn from the input, duplicates counted, in key order; none left out has a smaller key than one kept, and of each key it keeps the first ones in input order |
| Seqs.SortedPrefixClasses | src/components/progress/ProgressList.jsx:8-13 | any prefix of the sorted copy is drawn from the input, duplicates counted, and lists of each key the first elements of that key in input order |
| Seqs.SortByFirstIsFirstLeast | src/pages/ProgressPage.jsx:96-100 | the first element after sorting is the first-listed input element of the least key: every element before it has a greater key |
| Seqs.SortByLastIsLastGreatest | src/pages/ProgressPage.jsx:131-136 | the last element after sorting is the last-listed input element of the greatest key: every element after it has a smaller key |
| Seqs.KeyClassHeadIsFirst | src/components/progress/WeightChart.jsx:43-45 | the elements of one key start with the first element of the input that has that key |
| Seqs.KeyClassLastIsLast | src/components/progress/WeightChart.jsx:43-45 | the elements of one key end with the last element of the input that has that key |
| Seqs.FilterNone | src/components/workouts/WorkoutList.jsx:59-63 | a filter that no element passes keeps nothing |
| Text.TrimEmptyIff | src/components/auth/Login/Login.jsx:33 | a string trims to nothing exactly when every character is white space as `trim` counts it: the ECMAScript WhiteSpace and LineTerminator characters, every Unicode space separator such as U+3000 included |
| Text.Trim | src/components/workouts/ExerciseSelector.jsx:39 | `trim`: white space taken off both ends; `TrimShape` and `TrimEmptyIff` state what it keeps |
| Text.TrimShape | src/components/workouts/ExerciseSelector.jsx:39 | the trimmed string is a slice of the input with only white space before and after it, and it neither starts nor ends with white space |
| Text.Split | src/components/progress/ProgressDetail.jsx:190 | splitting gives at least one piece, and no piece holds the separator |
| Text.JoinSplit | src/components/progress/ProgressDetail.jsx:190 | joining the pieces of a split with the separator gives the string back |
| Text.SplitJoin | src/components/workouts/ExerciseDetail.jsx:162 | splitting a join of separator-free pieces gives the pieces back |
| Text.ToLower | src/components/workouts/ExerciseSelector.jsx:60-63 | lower-casing maps A to Z to a to z and keeps every other character in its place |

## Left out

- The HTTP layer (`src/api/*.js`), the authentication context and the login call itself are network I/O. Every fetched value is a parameter, and a failed request is an explicit outcome wherever the source handles it.
- Asynchronous effects and their ordering, `useEffect` dependencies, toasts, navigation, `window.confirm`, rendering and the chart library configuration are not modelled.
- The workout timer's `setInterval` is not modelled: the elapsed seconds are an input.
- The local time zone is not modelled: every day boundary is a UTC midnight. The meals list compares local date, month and year, while the dashboard compares `toISOString` days; both are the same UTC day here, and daylight-saving effects on day spans disappear.
- Floating point, `toFixed` and number-to-string coercion are not modelled. Quantities are exact reals, and only the `Math.round` and `Math.ceil` steps that define a value are modelled. NaN arises in the model only from the divisions the source leaves unguarded; a parsed NaN is None.
- Browser validation of `required` inputs is not modelled: the forms' own checks are modelled as written.
- Photo uploads and file previews in the progress form, and the `Calendar`, `PhotoGallery`, `LoadingSpinner` and `ExerciseList` components, are not part of this model. The source uses these components without defining them.
- The plan fields of the workout form, such as its name and tags, are not modelled; the operations modelled there work on the exercise list. `isSelectedDateToday` in the workouts list is not modelled either: it only decides whether a TODAY badge is rendered.
- The generic `handleChange` of the goal form is not modelled. It only sets the named field; the load and submit handlers around it are modelled.
- The `general` error the login form records after a failed login call is not modelled: it depends on the rejected network call.
- Text.ToLower: only the ASCII letters A to Z are lowered. JavaScript's `toLowerCase` lowers every Unicode letter, and a few letters lower to more than one code unit ('İ'); a search for "üb" lists an exercise named "ÜBUNG" in the source but not in the model.
- WorkoutList.ByScheduledDate: the source's comparator is not consistent: it returns 1 whenever the first workout has no date, so two undated workouts compare as "greater" both ways. The model puts every undated workout last and keeps them in their input order. The order JavaScript would produce among them depends on the engine.
- Dashboard.RecentWorkouts: a completed workout without `completedAt` sorts as if completed at the epoch, as `new Date(null)` does. An unparseable date, which would make the comparator return NaN, is not modelled.
- WorkoutForm.Submit: `WorkoutForm.jsx` reads `propPlanId` (line 11) and `isNewPlan` (lines 45, 81, 109, 141, 328) without declaring them, so as written the component throws a ReferenceError on its first render and nothing below is reached. The model reads both as absent: `isNewPlan` as false and `currentPlanId` as an input standing for `propPlanId || paramPlanId`. Under that reading `handleWorkoutSubmit` and the exercise list of WorkoutForm.WorkoutBuilder do not depend on `isNewPlan`; the plan branches it guards (lines 45, 141) are not modelled.
- Plans.ActivePlan: a plan whose start date does not read as a date is never current. A `null` start date, which `new Date(null)` reads as the epoch, must be passed as the epoch. An end date of None stands for an absent one, so a present end date that does not read as a date cannot be given: in the source such a plan is never current, because the date is truthy and `new Date(x) >= now` is false.
- GoalForm.LoadForm, ProgressForm.LoadForm: the loaded dates are taken as readable, already cut to their day. In the source an unreadable date makes `toISOString` throw a RangeError; the progress form then shows "Failed to load progress record". That load failure is not modelled.
- FoodSearch.HandleCustomFoodChange: a change event naming a field the form does not have leaves the modelled record unchanged. The source adds a property under that name, and that property is then sent along with the custom food.
- FoodSearch.QuickSearchAsWritten: the click's `setSearchTerm` still updates the term shown in the box; only the request it sends is modelled.

## Findings

| source | as written | input that shows it | evidently intended | confidence | as-written member | corrected member |
|---|---|---|---|---|---|---|
| src/components/meals/MealsList.jsx:81-87 | with a remembered record, the update sets the first record of the day to the day's total plus the added amount | two records of 100 ml and 200 ml, add 250 ml: the counter shows 550 ml but the server's records sum to 750 ml | the first record grows by the added amount, so the server's day total rises by exactly what the counter rises by | not executed | MealsList.AddWaterDoubleCounts | MealsList.CorrectedAddWaterKeepsTotal |
| src/components/progress/GoalsList.jsx:160-162 | the label says "days left" only for d > 0, so a goal due today reads "0 days overdue" | a goal whose target date is today: d = 0, status class `due-soon`, label "(0 days overdue)" | "days left" for d >= 0, agreeing with the status class, which calls only d < 0 overdue | not executed | Goals.DueTodayReadsOverdue | Goals.CorrectedLabelAgreesWithStatus |
| src/components/workouts/WorkoutList.jsx:9 | `selectedDate` starts as `new Date()`, the current instant, and the filter compares it exactly with workout dates normalised to midnight | opening the list at 10:00 with a workout scheduled for today: nothing is listed | the first display lists today's workouts, comparing days | not executed | WorkoutList.InitialSelectionListsNothing | WorkoutList.InitialSelectionListsToday |
| src/components/meals/FoodSearch.jsx:386-390 | each quick-search button calls `setSearchTerm(word)` and then `handleSearch` in the same event, which still reads the empty term of the render | clicking "Chicken" on the instructions panel: the guard sees an empty term and no category, and nothing is searched | the button searches for its word | not executed | FoodSearch.QuickSearchSendsNothing | FoodSearch.QuickSearchSendsWord |
