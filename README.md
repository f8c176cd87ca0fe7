# Gym tracker core in Dafny

This project models the core of a gym tracker: a web app where a user records
workouts and sets, and sets fitness goals. The model covers:

- **Storage layer** (`WorkoutDataManager`): the workout and goal lists, the upsert by id,
  deletion, and the all-time quick statistics.
- **Monthly dashboard:** this calendar month against the previous one, with guarded
  percentage changes and progress towards fixed monthly targets.
- **Goals summary card:** the completed, in-progress and overdue counts, the completion
  rate, and the "upcoming" and "near completion" lists.
- **Goals screen:**
  - the progress, the complete button and the deadline label of a goal card;
  - marking a goal complete and deleting a goal;
  - the goal form's validation.
- **Progress charts:**
  - the timeline of workouts in date order;
  - the per-muscle-group and per-exercise accumulations;
  - their top-6 and top-5 bar lists.
- **Reports screen:**
  - the week, month and previous-month windows;
  - `calculateStats` with its muscle-group counts;
  - the four insight rules and the five recommendation rules;
  - the top-5 muscle list.
- **Workout list:** sorting newest first, deletion, the totals of a card and the grouping of
  its sets by exercise.
- **Workout form:**
  - adding, patching and removing sets;
  - the save handler;
  - the exercise picker's categories and filter.

Modules by concept:

| module | content |
|---|---|
| `Calendar` | ECMAScript `MakeDay` date arithmetic, proleptic Gregorian |
| `Numbers` | JavaScript division with infinities and NaN, `Math.round`/`min`/`max` |
| `Strings` | `trim` |
| `Seqs` | `filter`, `map`, `flatMap`, sums, and a stable sort with `slice` |
| `Dictionaries` | objects used as `Record<string, V>`: association lists in insertion order |
| `KeyedLists` | `findIndex`, then overwrite-or-push, and removal by id |
| `Domain` | the records, the built-in catalog, volumes and goal deadlines |
| `Repository` | the storage class |
| `Dashboard`, `GoalsSummary`, `GoalsManager`, `ProgressCharts`, `Reports`, `WorkoutList`, `SetGroups`, `WorkoutForm` | one module per screen |

Code that updates state step by step is written as methods. Each method is proved equal
to a specification function, and the properties are lemmas about those functions:

- the storage class's methods;
- the nested `forEach` accumulations of `calculateStats` and of the charts;
- the grouping `reduce`;
- the insight and recommendation generators;
- the handlers that save each goal in turn.

Where the code and its specification disagree, the model follows the code:

- **The weight insight** (`components/reports-insights.tsx:194`) divides by the previous
  month's volume without a zero guard. A previous month with workouts but no volume
  therefore gives an infinity, and the insight fires. This is modelled with
  `Numbers.JsNumber`.
- **The near-completion insight** (`components/reports-insights.tsx:224`) divides by the
  target without a guard. A goal with target 0 and a positive current value counts as near
  completion (`Reports.NearCompletionZeroTarget`). The goals summary card guards the same
  division.

## Model

| member | source | states |
|---|---|---|
| Repository.WorkoutDataManager.constructor | lib/workout-data.ts:67-71 | storage starts with no workouts and no goals |
| Repository.WorkoutDataManager.SaveWorkout | lib/workout-data.ts:73-85 | the workout list becomes the upsert of the workout; the workout is stored afterwards; unique ids stay unique; goals unchanged |
| Repository.WorkoutDataManager.DeleteWorkout | lib/workout-data.ts:87-91 | exactly the workouts with other ids remain, in order; goals unchanged |
| Repository.WorkoutDataManager.SaveGoal | lib/workout-data.ts:99-111 | the goal list becomes the upsert of the goal; the goal is stored; unique ids stay unique; workouts unchanged |
| Repository.WorkoutDataManager.GetWorkoutStats | lib/workout-data.ts:125-144 | count of workouts; volume of all their sets; mean duration rounded half-up (0 with no workouts); count of workouts dated in today's calendar month, never more than the total |
| KeyedLists.FindIndex | lib/workout-data.ts:76 | first index carrying the key, or -1 when no entry carries it |
| KeyedLists.UpsertExisting | lib/workout-data.ts:78-79 | with the key present, only the first entry with that key is replaced and the length is kept |
| KeyedLists.UpsertNew | lib/workout-data.ts:80-82 | with the key absent, the record is appended |
| KeyedLists.UpsertIdempotent | lib/workout-data.ts:73-85 | saving the same record twice equals saving it once |
| KeyedLists.UpsertKeepsUniqueKeys | lib/workout-data.ts:73-85 | an upsert keeps ids pairwise distinct |
| KeyedLists.RemoveKeySpec | lib/workout-data.ts:89 | removal keeps exactly the entries with other keys, as an ordered sub-list, and changes nothing for an absent key |
| KeyedLists.UpdateKey | components/goals-manager.tsx:48-50 | same length; entries with the key are mapped, all others kept |
| KeyedLists.UpsertAllPresent | components/goals-manager.tsx:43 | upserting records that are all already stored (unique ids) leaves storage unchanged |
| KeyedLists.UpsertAllSameKeys | components/goals-manager.tsx:52 | upserting a list with the stored ids at the same positions replaces the stored entries one by one |
| Domain.CatalogWellFormed | lib/workout-data.ts:39-59 | twelve exercises with distinct ids, each working at least one muscle group |
| Domain.FindExercise | components/reports-insights.tsx:165 | `find` returns nothing exactly when no exercise has the id; otherwise the first exercise with that id |
| Domain.FindExerciseUnique | components/progress-charts.tsx:35 | with distinct ids the lookup returns the exercise carrying the id |
| Domain.TotalsOverAllSets | components/reports-insights.tsx:153-157 | the nested per-workout volume and set-count reductions equal one sum and count over all sets |
| Domain.PerWorkoutOverAllSets | components/reports-insights.tsx:162-175 | iterating workout by workout, then set by set, visits all sets in order |
| Domain.DaysLeft | components/goals-manager.tsx:271 | the rounded-up number of whole days between now and the deadline's midnight |
| Domain.DeadlineOnDueDay | components/goals-manager.tsx:270-271 | overdue exactly after the first millisecond of the due day; days left is the difference of day numbers |
| Calendar.Weekday | components/reports-insights.tsx:26 | `getDay` lies in 0..6 |
| Calendar.CeilDiv | components/goals-manager.tsx:271 | `Math.ceil(a / b)` is the least q with a <= b * q |
| Calendar.MonthWindow | components/workout-stats.tsx:18-21 | a valid date lies within month k's day range exactly when it belongs to month k |
| Calendar.FirstDayOfMonth | components/reports-insights.tsx:35 | `new Date(y, m, 1)` is the first day of month 12y+m, with rollover |
| Calendar.LastDayOfMonth | components/reports-insights.tsx:36 | `new Date(y, m + 1, 0)` is the last day of month 12y+m, with rollover |
| Calendar.MonthWindowDays | components/reports-insights.tsx:35-41 | the inclusive first-to-last-day window holds exactly the dates of that month |
| Calendar.MakeDayShift | components/reports-insights.tsx:26 | shifting the day argument shifts the day number equally |
| Calendar.WeekWindow | components/reports-insights.tsx:26-32 | the seven days from `today - getDay()` are exactly the days of today's Sunday-to-Saturday week |
| Calendar.MonthStartStep | components/reports-insights.tsx:44-45 | a month begins where the previous one ends, across year ends too |
| Calendar.DateInItsMonth | components/workout-stats.tsx:18-21 | a valid date's day number lies inside its own month |
| Numbers.Divide | components/reports-insights.tsx:194 | division by nonzero is exact; by zero gives a signed infinity, or NaN for 0/0 |
| Numbers.Scale | components/reports-insights.tsx:194 | multiplying by 100 keeps infinities and NaN and scales finite values |
| Numbers.Round | lib/workout-data.ts:137 | `Math.round` is within half a unit, halves rounding up |
| Numbers.RoundUnique | components/progress-charts.tsx:25 | the rounding is the only such integer |
| Numbers.Min | components/workout-stats.tsx:79-81 | `Math.min` is one of its arguments and below both |
| Numbers.Max | components/progress-charts.tsx:71 | `Math.max` is one of its arguments and above both |
| Strings.TrimSpec | components/workout-form.tsx:46 | `trim` neither starts nor ends with whitespace, and is empty exactly for blank input |
| Seqs.SortDescSpec | components/workout-list.tsx:21 | the comparator sort orders by non-increasing key and is a permutation of its input |
| Seqs.FilterSortDesc | components/workout-list.tsx:28 | filtering a stably sorted list equals sorting the filtered list |
| Seqs.TopNSpec | components/progress-charts.tsx:51-53 | sort-then-slice yields min(n, length) entries, sorted, drawn from the input, none beaten by a left-out entry |
| Seqs.Distinct | components/workout-list.tsx:67 | `new Set(...)` holds exactly the elements of the input, each once |
| Seqs.FirstIndex | components/workout-list.tsx:67 | the position of the first occurrence of an element, or the length when it is absent |
| Seqs.DistinctOrder | components/workout-list.tsx:67 | `new Set(...)` keeps insertion order: its elements come in the order of their first occurrences |
| Seqs.FilterIsSubsequence | components/goals-summary.tsx:20-31 | a filter yields an ordered sub-list |
| Seqs.SumPermutation | components/workout-list.tsx:65 | a `reduce` sum does not depend on the order of the summands |
| Dictionaries.GetPut | components/reports-insights.tsx:168 | after `d[k] = v`, `d[k]` is v and other keys read as before |
| Dictionaries.AccumulateGet | components/progress-charts.tsx:38-42 | a create-then-update accumulation has an entry for k exactly when some event has key k; the entry is the fold over those events |
| Dictionaries.AccumulateKeys | components/workout-list.tsx:124-134 | the accumulated keys are the distinct event keys in first-seen order |
| Dashboard.PreviousMonth | components/workout-stats.tsx:12-15 | the previous month is one month earlier; January gives December of the year before |
| Dashboard.MonthFiltersDisjoint | components/workout-stats.tsx:18-27 | no workout is in both this month's and last month's filter |
| Dashboard.LastMonthSpec | components/workout-stats.tsx:24-27 | a valid-dated workout is in last month's list exactly when dated in the month just before today's |
| Dashboard.GuardedChangeSpec | components/workout-stats.tsx:45-55 | against a positive baseline the change is the percentage difference, with the sign of the growth; otherwise 0 |
| Dashboard.ProgressSpec | components/workout-stats.tsx:79-81 | progress is capped at 100, equal to 100 exactly when the target is met, and the plain percentage below it |
| Dashboard.ComputeDashboardSpec | components/workout-stats.tsx:18-83 | this month's figures are those of today's calendar month; each progress is at most 100; workout progress is 100 exactly from 12 workouts |
| Dashboard.FormatChangeSpec | components/workout-stats.tsx:86-90 | neutral strictly inside (-0.1, 0.1), up from 0.1, down from -0.1: the three cases partition the reals |
| GoalsSummary.CountsPartition | components/goals-summary.tsx:12-15 | completed + in progress + overdue = total |
| GoalsSummary.CompletionRate | components/goals-summary.tsx:17 | 0 with no goals; otherwise the percentage of completed goals, within 0..100 |
| GoalsSummary.UpcomingSpec | components/goals-summary.tsx:20-24 | upcoming exactly for open goals due between today and 7 days from today |
| GoalsSummary.NearCompletionSpec | components/goals-summary.tsx:27-31 | near completion exactly for open goals with a positive target and at least 80% of it |
| GoalsSummary.BucketsAreSublists | components/goals-summary.tsx:20-31 | both lists are ordered sub-lists of the goals |
| GoalsManager.ProgressSpec | components/goals-manager.tsx:269 | progress is at most 100; 0 without a positive target; 100 exactly when a positive target is met |
| GoalsManager.CanCompleteSpec | components/goals-manager.tsx:329 | the complete button shows exactly for open goals with a positive target that is met |
| GoalsManager.LabelTodayOnlyAtMidnight | components/goals-manager.tsx:362-366 | as written, "today" shows only at the due day's first millisecond; later on that day the goal is labelled late |
| GoalsManager.DayLabelSpec | components/goals-manager.tsx:362-366 | the day-based label: "today" for the whole due day, late exactly after it; it agrees with the card's label elsewhere |
| GoalsManager.CompleteGoalSpec | components/goals-manager.tsx:48-50 | same length, order and ids; goals with the id become completed at their target, everything else unchanged |
| GoalsManager.SaveAll | components/goals-manager.tsx:52 | storage becomes the stored goals with each listed goal upserted in turn |
| GoalsManager.HandleCompleteGoal | components/goals-manager.tsx:47-53 | returns the completed list and upserts each goal of it into storage |
| GoalsManager.CompletionIsStored | components/goals-manager.tsx:47-53 | when the list shown is the stored list, storage afterwards holds exactly the completed list |
| GoalsManager.HandleDeleteGoalAsWritten | components/goals-manager.tsx:38-45 | on confirmation the shown list loses the goal and storage only gets the survivors upserted; without it nothing changes |
| GoalsManager.DeletedGoalStaysStored | components/goals-manager.tsx:38-45 | as written, storage is left exactly as it was: the deleted goal is still stored |
| GoalsManager.HandleDeleteGoal | components/goals-manager.tsx:38-45 | on confirmation the shown list and storage both lose exactly the goals with the id; without it nothing changes |
| GoalsManager.SubmitGoalSpec | components/goals-manager.tsx:123-140 | rejected exactly for a blank title, a zero target or no deadline; otherwise carries the form's fields and the edited goal's id and completion flag, or a fresh id and open |
| ProgressCharts.TimelineSpec | components/progress-charts.tsx:15-29 | one point per workout, oldest first, a permutation of the workouts' points; each mean set volume rounded to within half a unit (0 without sets) |
| ProgressCharts.MuscleShareSpec | components/progress-charts.tsx:37-42 | a set adds its volume to a muscle group once per listing of that group |
| ProgressCharts.MuscleHitPush | components/progress-charts.tsx:37-43 | each muscle group of a set is one create-if-missing-then-update of its entry |
| ProgressCharts.AddSetMuscles | components/progress-charts.tsx:34-45 | the inner loops apply exactly the set's hits to the dictionary |
| ProgressCharts.AccumulateMuscles | components/progress-charts.tsx:32-49 | the `reduce` yields the muscle dictionary |
| ProgressCharts.MuscleTotalsSpec | components/progress-charts.tsx:32-49 | a muscle group has an entry exactly when some known set works it; the entry is its name, its event count and the sum of the sets' shares |
| ProgressCharts.MuscleTotalsAgreeWithCounts | components/progress-charts.tsx:32-49 | the chart and `calculateStats` have the same muscle groups, in the same order, with the same counts |
| ProgressCharts.MuscleValueEntry | components/progress-charts.tsx:51 | every value is the entry of its own muscle group |
| ProgressCharts.Heaviest | components/progress-charts.tsx:71 | the running `Math.max` is an upper bound attained by the start value or some set's weight |
| ProgressCharts.ExerciseHitPush | components/progress-charts.tsx:58-73 | a known set creates or updates its exercise's entry; an unknown one changes nothing |
| ProgressCharts.AccumulateExercises | components/progress-charts.tsx:56-81 | the `reduce` yields the exercise dictionary |
| ProgressCharts.ExerciseTotalsSpec | components/progress-charts.tsx:56-81 | an exercise id has an entry exactly when it is in the catalog and recorded; the entry holds catalog name, category, total volume, heaviest weight and set count |
| ProgressCharts.MuscleChartSpec | components/progress-charts.tsx:16-53 | over the workouts sorted oldest first: up to six muscle groups by volume, heaviest first, each its full entry, none beaten by a left-out one |
| ProgressCharts.ExerciseChartSpec | components/progress-charts.tsx:16-85 | over the workouts sorted oldest first: up to five exercises by volume, heaviest first, drawn from the dictionary, none beaten by a left-out one |
| ProgressCharts.ComputeChartData | components/progress-charts.tsx:13-90 | the memo sorts the workouts oldest first, then computes the timeline, the two accumulations over the sorted workouts and their top lists |
| Reports.WeekWindowSpec | components/reports-insights.tsx:25-32 | the week window holds exactly the workouts of today's Sunday-to-Saturday week |
| Reports.MonthSpanSpec | components/reports-insights.tsx:35-40 | a valid date lies in the month span exactly when it is in that month, after rollover |
| Reports.MonthWindowSpec | components/reports-insights.tsx:34-50 | the month windows hold exactly the valid-dated workouts of today's month (shift 0) or the month before (shift -1) |
| Reports.PreviousMonthWindow | components/reports-insights.tsx:43-50 | the previous-month window is the month before; January gives December of the year before |
| Reports.TallySpec | components/reports-insights.tsx:168 | a muscle has an entry exactly when it occurs among the events; the count is its number of occurrences |
| Reports.TallyTotal | components/reports-insights.tsx:162-175 | the counts add up to the number of events |
| Reports.MuscleCountsSpec | components/reports-insights.tsx:162-175 | the counts are per-muscle occurrence counts over known sets; they total the known sets' muscle-group counts; keys in first-seen order |
| Reports.AddMuscleCounts | components/reports-insights.tsx:166-168 | the innermost loop adds one to each muscle group of a set in the tally |
| Reports.CountMuscleGroups | components/reports-insights.tsx:162-175 | the nested loops yield the muscle-count dictionary |
| Reports.MeanSpec | components/reports-insights.tsx:159 | the mean times the count is the total; 0 for no workouts |
| Reports.CalculateStats | components/reports-insights.tsx:151-185 | the result is `StatsOf` the workouts: counts, volume, sets, duration, mean and muscle counts; all zero and empty for no workouts |
| Reports.NearCompletionZeroTarget | components/reports-insights.tsx:223-224 | an open goal with target 0 is near completion exactly when its current value is positive |
| Reports.MaxEntry | components/reports-insights.tsx:238 | the reduce picks an entry with the largest count |
| Reports.MinEntry | components/reports-insights.tsx:239 | the reduce picks an entry with the smallest count |
| Reports.MaxEntryLastWins | components/reports-insights.tsx:238 | on a tie the reduce keeps the later entry: every entry after the chosen one has a strictly smaller count |
| Reports.MinEntryLastWins | components/reports-insights.tsx:239 | on a tie the reduce keeps the later entry: every entry after the chosen one has a strictly larger count |
| Reports.ImbalanceIff | components/reports-insights.tsx:236-249 | `max > 2 * min` holds exactly when some group has more than twice another's count; never with one group |
| Reports.InsightOfItsRule | components/reports-insights.tsx:187-252 | each rule yields only insights of its kind, exactly when it fires |
| Reports.InsightsSpec | components/reports-insights.tsx:187-252 | an insight is present exactly when its rule fires; insights come in strict rule order, at most four |
| Reports.GenerateInsights | components/reports-insights.tsx:187-252 | the pushes yield the insights of the four rules, in rule order |
| Reports.OverdueNonEmpty | components/reports-insights.tsx:278-279 | the overdue filter is non-empty exactly when some open goal is past its deadline |
| Reports.ConditionalRecommendationsSpec | components/reports-insights.tsx:257-286 | each conditional recommendation is present exactly when its condition holds, in rule order |
| Reports.RecommendationsSpec | components/reports-insights.tsx:254-304 | 2 to 5 recommendations: the conditional ones, then always variety and recovery, in strict rule order |
| Reports.GenerateRecommendations | components/reports-insights.tsx:254-304 | the pushes yield the recommendation list |
| Reports.CalculateChange | components/reports-insights.tsx:346-349 | 0 against a zero baseline; otherwise the percentage change |
| Reports.CalculateChangeSame | components/reports-insights.tsx:346-349 | no change against itself |
| Reports.TopMusclesSpec | components/reports-insights.tsx:388-390 | up to five muscle groups by count, sorted, drawn from the dictionary, none beaten by a left-out one |
| Reports.Analyze | components/reports-insights.tsx:12-75 | no reports, insights or recommendations without workouts; otherwise the window filters, each report's stats equal to `StatsOf` its window, and the rule-based insights and recommendations |
| WorkoutList.NewestFirstSpec | components/workout-list.tsx:21 | the list is a permutation of the stored workouts, newest first |
| WorkoutList.LoadWorkouts | components/workout-list.tsx:19-23 | loading shows the stored workouts sorted newest first |
| WorkoutList.DeleteMatchesReload | components/workout-list.tsx:25-30 | deleting from the sorted list equals reloading after deleting from storage |
| WorkoutList.HandleDeleteWorkout | components/workout-list.tsx:25-30 | on confirmation, storage and the list both lose the workout and the list still matches a reload; without it nothing changes |
| WorkoutList.TotalsSpec | components/workout-list.tsx:65-67 | card volume equals the volume of its groups; one exercise per group; no more exercises than sets; none exactly without sets |
| SetGroups.GroupsSpec | components/workout-list.tsx:124-134 | a group exists exactly for recorded exercises; it holds that exercise's sets in order; groups in first-seen order |
| SetGroups.GroupsSnoc | components/workout-form.tsx:60-69 | one more set joins the end of its group, or starts it; other groups unchanged |
| SetGroups.GroupsDistinctKeys | components/workout-list.tsx:124-134 | each exercise has one group |
| SetGroups.GroupsPermute | components/workout-list.tsx:124-134 | the groups laid end to end are a permutation of the sets |
| SetGroups.GroupByExercise | components/workout-form.tsx:60-69 | the set-by-set `reduce` yields the groups |
| SetGroups.ShowGroupSpec | components/workout-list.tsx:135-137 | a group renders exactly when the catalog has its exercise |
| SetGroups.ShownGroupSound | components/workout-form.tsx:125-127 | every shown group is its catalog exercise with all its sets in order |
| SetGroups.ShownGroupComplete | components/workout-form.tsx:125-127 | every catalog exercise with sets is shown with all of them |
| SetGroups.ShownGroupsSpec | components/workout-form.tsx:125-127 | shown exactly for catalog exercises with sets, each holding all of them in order |
| WorkoutForm.AddSetSpec | components/workout-form.tsx:25-35 | one blank set (weight 0, reps 0, rest 60) is appended for the exercise; everything else kept; volume unchanged |
| WorkoutForm.AddSetGroups | components/workout-form.tsx:25-35 | the new set goes at the end of its exercise's group; other groups unchanged |
| WorkoutForm.UpdateSetSpec | components/workout-form.tsx:37-39 | same sets and form fields, except that sets with the id take exactly the supplied fields |
| WorkoutForm.UpdateNothing | components/workout-form.tsx:37-39 | an empty patch changes nothing |
| WorkoutForm.UpdateSetIdempotent | components/workout-form.tsx:37-39 | applying the same patch twice equals once, unless it changes the id |
| WorkoutForm.UpdateKeepsIds | components/workout-form.tsx:37-39 | a patch without an id keeps every set's id |
| WorkoutForm.RemoveSetSpec | components/workout-form.tsx:41-43 | exactly the sets with other ids remain, in order; no change for an absent id |
| WorkoutForm.RemoveUndoesAdd | components/workout-form.tsx:25-43 | removing a just-added set with a fresh id restores the form |
| WorkoutForm.HandleSaveSpec | components/workout-form.tsx:45-58 | refused exactly for a blank name; otherwise the form's fields, the edited workout's id and date, or a fresh id and today |
| WorkoutForm.EditRoundTrip | components/workout-form.tsx:20-58 | opening a named workout with id and notes and saving it unchanged gives it back |
| WorkoutForm.CategoriesSpec | components/workout-form.tsx:195 | "all", then each catalog category once |
| WorkoutForm.FilterExercisesSpec | components/workout-form.tsx:196-197 | "all" lists the catalog; otherwise exactly that category's exercises, in order, never empty for an offered category |

## Left out

- Persistence through `localStorage` and JSON is not modelled. Storage is the fields of
  `WorkoutDataManager`, and the server-side `typeof window` early returns are left out.
- `getExercises` and `saveExercises` are not modelled, because every screen reads the
  built-in catalog directly. The catalog is a parameter of the operations that look
  exercises up; `Reports.Analyze` passes `Domain.DefaultExercises()`.
- Clocks become a `Calendar.Clock` parameter: today's date plus milliseconds since midnight.
- Date parsing is not modelled. All dates are read as local midnights, with no time
  zones or daylight-saving shifts.
- `Date.now()` ids become a `freshId` parameter.
- `confirm()` becomes a `confirmed` parameter.
- React state, effects and callbacks are not modelled. The handlers return the new list
  or an `Option` instead of calling `setState` or `onSave`.
- Display text is not modelled:
  - Arabic titles and descriptions;
  - `toFixed` and `toLocaleDateString`;
  - the per-set text of a workout card;
  - colours and icons;
  - the `SetInput` field parsing and `Number()` of empty inputs;
  - the goal form's `|| 0` defaults;
  - empty-state rendering.
- Floating point is modelled as exact reals. Rounding error is not modelled; infinities
  and NaN appear only where the code divides without a guard (`Numbers.JsNumber`).
- `Array.prototype.sort` sorts in place. It is modelled as a stable sort on values
  (`Seqs.SortDesc`), so aliasing of the sorted array is not captured.
- JavaScript lists integer-like object keys (such as the exercise ids "1" to "12") in
  numeric order. Dictionaries are modelled in insertion order, which can change the
  display order of groups and the order of equal entries in a top-N list.
- Strings.TrimSpec: the whitespace set is the common ECMAScript WhiteSpace and
  LineTerminator characters, not every Unicode space separator.
- The goal form's `handleSaveGoal` wrapper in the goals screen is not modelled.
  `GoalsManager.SubmitGoal` produces the goal and `Repository.WorkoutDataManager.SaveGoal`
  stores it.
- Dashboard.ComputeDashboardSpec: the four change figures are not restated; each is
  `GuardedChange` of a pair of figures, which `Dashboard.GuardedChangeSpec` describes.
- Reports.Analyze: the weekly and monthly report period strings are not modelled.

## Findings

| source | as written | input that shows it | evidently intended | confidence | as-written member | corrected member |
|---|---|---|---|---|---|---|
| components/goals-manager.tsx:38-45 | deleting a goal filters it out of the list shown, then upserts each remaining goal into storage | stored goals [g1, g2], delete g1's id: storage still holds g1, so it returns on the next load | storage loses the deleted goal, as `deleteWorkout` does for workouts | high (not executed) | GoalsManager.DeletedGoalStaysStored | GoalsManager.HandleDeleteGoal |
| components/goals-manager.tsx:270-271 | the card compares the deadline's midnight with now, so a goal due today is overdue from 00:00:00.001 and the "today" label (line 366) appears only at exactly midnight | a goal due today, viewed at noon: labelled late, not "today" | the due day counts as "today" and the goal is late only once that day is over | medium (not executed) | GoalsManager.LabelTodayOnlyAtMidnight | GoalsManager.DayLabelSpec |
