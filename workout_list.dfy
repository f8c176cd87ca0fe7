/** The workout history screen: the stored workouts sorted newest first, the
    delete handler that removes a workout from storage and from the list shown,
    and the totals of each workout card. */
module WorkoutList {
  import opened Seqs
  import opened Calendar
  import opened Domain
  import opened Dictionaries
  import opened KeyedLists
  import opened Repository
  import opened SetGroups

  // ---------------------------------------------------------------------------
  // The list
  // ---------------------------------------------------------------------------

  /** The sort key of `(a, b) => new Date(b.date).getTime() - new Date(a.date).getTime()`:
      whole days stand in for the midnights they begin with. */
  function LaterFirst(w: Workout): real
  {
    DayNumber(w.date) as real
  }

  /** `getWorkouts().sort(...)`: the stored workouts, newest first; workouts of the same
      day keep their storage order. */
  function NewestFirst(ws: seq<Workout>): seq<Workout>
  {
    SortDesc(ws, LaterFirst)
  }

  /** The list shows every stored workout exactly as often as it is stored, and no
      workout is listed before one of a later day. */
  lemma NewestFirstSpec(ws: seq<Workout>)
    ensures |NewestFirst(ws)| == |ws|
    ensures multiset(NewestFirst(ws)) == multiset(ws)
    ensures forall i, j :: 0 <= i < j < |ws| ==> DayNumber(NewestFirst(ws)[i].date) >= DayNumber(NewestFirst(ws)[j].date)
  {
    SortDescSpec(ws, LaterFirst);
    var r := NewestFirst(ws);
    forall i, j | 0 <= i < j < |ws|
      ensures DayNumber(r[i].date) >= DayNumber(r[j].date)
    {
      assert LaterFirst(r[i]) >= LaterFirst(r[j]);
    }
  }

  /** The `useEffect` that loads the list. */
  method LoadWorkouts(store: WorkoutDataManager) returns (shown: seq<Workout>)
    ensures shown == NewestFirst(store.workouts)
  {
    shown := NewestFirst(store.workouts);
  }

  /** `workouts.filter((w) => w.id !== workoutId)`. */
  function WithoutWorkout(ws: seq<Workout>, id: string): seq<Workout>
  {
    RemoveKey(ws, WorkoutKey, id)
  }

  /** Deleting from the sorted list gives the list a fresh load would show after the
      deletion: removing workouts does not change the order of the others. */
  lemma DeleteMatchesReload(stored: seq<Workout>, id: string)
    ensures WithoutWorkout(NewestFirst(stored), id) == NewestFirst(WithoutWorkout(stored, id))
  {
    FilterSortDesc(stored, LaterFirst, KeyIsNot(WorkoutKey, id));
  }

  /** `handleDeleteWorkout`: once the user confirms, the workout is deleted from storage
      and from the list shown; without confirmation nothing changes. A list that showed
      the stored workouts before still shows them after. */
  method HandleDeleteWorkout(store: WorkoutDataManager, shown: seq<Workout>, id: string, confirmed: bool)
    returns (updated: seq<Workout>)
    modifies store
    ensures confirmed ==> updated == WithoutWorkout(shown, id) && store.workouts == WithoutWorkout(old(store.workouts), id)
    ensures !confirmed ==> updated == shown && store.workouts == old(store.workouts)
    ensures forall w :: w in updated <==> w in shown && (confirmed ==> w.id != id)
    ensures shown == NewestFirst(old(store.workouts)) ==> updated == NewestFirst(store.workouts)
    ensures store.goals == old(store.goals)
  {
    if confirmed {
      DeleteMatchesReload(store.workouts, id);
      RemoveKeySpec(shown, WorkoutKey, id);
      store.DeleteWorkout(id);
      updated := WithoutWorkout(shown, id);
    } else {
      updated := shown;
    }
  }

  // ---------------------------------------------------------------------------
  // A workout card
  // ---------------------------------------------------------------------------

  /** The figures of a card. */
  datatype CardTotals = CardTotals(totalWeight: real, totalSets: nat, uniqueExercises: nat)

  /** `totalWeight`, `totalSets` and `new Set(exerciseIds).size` of a card. */
  function Totals(w: Workout): CardTotals
  {
    CardTotals(Sum(w.sets, SetVolume), |w.sets|, |Distinct(Map(w.sets, ExerciseKey))|)
  }

  /** The card's weight is the workout's volume and also the volume of its exercise
      groups laid end to end; it counts one exercise per group shown or hidden, never
      more exercises than sets, and at least one exercise as soon as there is a set. */
  lemma TotalsSpec(w: Workout)
    ensures Totals(w).totalWeight == WorkoutVolume(w)
    ensures Totals(w).totalWeight == Sum(Concatenated(Groups(w.sets)), SetVolume)
    ensures Totals(w).totalSets == SetCount(w)
    ensures Totals(w).uniqueExercises == |Groups(w.sets)|
    ensures Totals(w).uniqueExercises <= Totals(w).totalSets
    ensures Totals(w).uniqueExercises == 0 <==> w.sets == []
  {
    GroupsPermute(w.sets);
    SumPermutation(Concatenated(Groups(w.sets)), w.sets, SetVolume);
    GroupsSpec(w.sets, "");
    assert |Keys(Groups(w.sets))| == |Groups(w.sets)|;
    if w.sets != [] {
      assert ExerciseKey(w.sets[0]) in Map(w.sets, ExerciseKey);
    }
  }
}
