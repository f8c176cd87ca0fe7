/** The storage layer `WorkoutDataManager`: the workout and goal lists it keeps,
    the upserts and the deletion that rewrite them, and the quick all-time
    summary. The browser's `localStorage` and its JSON encoding are replaced by
    the two lists themselves. */
module Repository {
  import opened Seqs
  import opened Calendar
  import opened Numbers
  import opened Domain
  import opened KeyedLists

  /** The result of `getWorkoutStats`. */
  datatype QuickStats = QuickStats(totalWorkouts: nat, totalWeight: real, averageDuration: int, thisMonthWorkouts: nat)

  class WorkoutDataManager {
    /** The stored workouts, in storage order. */
    var workouts: seq<Workout>
    /** The stored goals, in storage order. */
    var goals: seq<Goal>

    /** Empty storage: both getters return `[]` when nothing was saved. */
    constructor ()
      ensures workouts == [] && goals == []
    {
      workouts := [];
      goals := [];
    }

    /** `saveWorkout`: overwrite the first workout with the same id in place, or push. */
    method SaveWorkout(w: Workout)
      modifies this
      ensures workouts == Upsert(old(workouts), WorkoutKey, w)
      ensures w in workouts
      ensures UniqueKeys(old(workouts), WorkoutKey) ==> UniqueKeys(workouts, WorkoutKey)
      ensures goals == old(goals)
    {
      if UniqueKeys(workouts, WorkoutKey) {
        UpsertKeepsUniqueKeys(workouts, WorkoutKey, w);
      }
      var i := FindIndex(workouts, WorkoutKey, w.id);
      if i >= 0 {
        workouts := workouts[i := w];
        assert workouts[i] == w;
      } else {
        workouts := workouts + [w];
        assert workouts[|workouts| - 1] == w;
      }
    }

    /** `deleteWorkout`: keep the workouts whose id differs. */
    method DeleteWorkout(id: string)
      modifies this
      ensures workouts == RemoveKey(old(workouts), WorkoutKey, id)
      ensures forall w :: w in workouts <==> w in old(workouts) && w.id != id
      ensures goals == old(goals)
    {
      RemoveKeySpec(workouts, WorkoutKey, id);
      workouts := Filter(workouts, KeyIsNot(WorkoutKey, id));
    }

    /** `saveGoal`: the same upsert on the goal list. */
    method SaveGoal(g: Goal)
      modifies this
      ensures goals == Upsert(old(goals), GoalKey, g)
      ensures g in goals
      ensures UniqueKeys(old(goals), GoalKey) ==> UniqueKeys(goals, GoalKey)
      ensures workouts == old(workouts)
    {
      if UniqueKeys(goals, GoalKey) {
        UpsertKeepsUniqueKeys(goals, GoalKey, g);
      }
      var i := FindIndex(goals, GoalKey, g.id);
      if i >= 0 {
        goals := goals[i := g];
        assert goals[i] == g;
      } else {
        goals := goals + [g];
        assert goals[|goals| - 1] == g;
      }
    }

    /** `getWorkoutStats`: the number of workouts, the volume of all their sets, the
        mean duration rounded by `Math.round` (0 without workouts), and the number of
        workouts in the calendar month of `today`. */
    method GetWorkoutStats(today: Date) returns (s: QuickStats)
      ensures s.totalWorkouts == |workouts|
      ensures s.totalWeight == Sum(AllSets(workouts), SetVolume)
      ensures |workouts| == 0 ==> s.averageDuration == 0
      ensures |workouts| > 0 ==>
        s.averageDuration as real - 0.5 <= TotalDuration(workouts) / |workouts| as real < s.averageDuration as real + 0.5
      ensures s.thisMonthWorkouts <= |workouts|
      ensures s.thisMonthWorkouts == |Filter(workouts, InCalendarMonth(today.year, today.month))|
    {
      TotalsOverAllSets(workouts);
      var average := if |workouts| > 0 then TotalDuration(workouts) / |workouts| as real else 0.0;
      s := QuickStats(
        |workouts|,
        TotalVolume(workouts),
        Round(average),
        |Filter(workouts, InCalendarMonth(today.year, today.month))|);
    }
  }
}
