/** The records the application stores (`Exercise`, `WorkoutSet`, `Workout`,
    `Goal`), the built-in exercise catalog, and the quantities every screen
    derives from them in the same way: the volume `weight * reps` of a set, the
    totals over a list of workouts, the catalog lookup of a set's exercise and
    the deadline checks of a goal. */
module Domain {
  import opened Wrappers
  import opened Seqs
  import opened Calendar

  datatype Exercise = Exercise(id: string, name: string, category: string, muscleGroups: seq<string>)

  /** One set of an exercise; `restTime` and `notes` are optional fields. */
  datatype WorkoutSet = WorkoutSet(
    id: string,
    exerciseId: string,
    weight: real,
    reps: real,
    restTime: Option<real>,
    notes: Option<string>)

  /** A workout session; `date` is the `YYYY-MM-DD` day it was recorded for. */
  datatype Workout = Workout(
    id: string,
    name: string,
    date: Date,
    duration: real,
    sets: seq<WorkoutSet>,
    notes: Option<string>)

  datatype GoalCategory = Strength | Endurance | BodyWeight | Frequency

  /** A goal; `deadline` is the `YYYY-MM-DD` day it is due. */
  datatype Goal = Goal(
    id: string,
    title: string,
    description: string,
    targetValue: real,
    currentValue: real,
    unit: string,
    deadline: Date,
    category: GoalCategory,
    isCompleted: bool)

  /** The `id` of each record, the key of the lists that hold them. */
  function WorkoutKey(w: Workout): string { w.id }

  function GoalKey(g: Goal): string { g.id }

  function SetKey(s: WorkoutSet): string { s.id }

  /** The fixed catalog of twelve exercises (chest, back, legs, shoulders). */
  function DefaultExercises(): seq<Exercise>
  {
    [
      Exercise("1", "ضغط البنش المسطح", "صدر", ["صدر", "كتف أمامي", "ترايسبس"]),
      Exercise("2", "ضغط البنش المائل", "صدر", ["صدر علوي", "كتف أمامي", "ترايسبس"]),
      Exercise("3", "فتح دمبل مسطح", "صدر", ["صدر", "كتف أمامي"]),
      Exercise("4", "سحب عالي", "ظهر", ["ظهر علوي", "بايسبس", "كتف خلفي"]),
      Exercise("5", "سحب أرضي", "ظهر", ["ظهر سفلي", "بايسبس", "ترابيس"]),
      Exercise("6", "تجديف بالبار", "ظهر", ["ظهر متوسط", "بايسبس", "كتف خلفي"]),
      Exercise("7", "سكوات", "أرجل", ["فخذ أمامي", "فخذ خلفي", "مؤخرة"]),
      Exercise("8", "ديد ليفت", "أرجل", ["فخذ خلفي", "مؤخرة", "ظهر سفلي"]),
      Exercise("9", "ضغط أرجل", "أرجل", ["فخذ أمامي", "فخذ خلفي", "مؤخرة"]),
      Exercise("10", "ضغط كتف واقف", "كتف", ["كتف", "ترايسبس"]),
      Exercise("11", "رفرفة جانبي", "كتف", ["كتف جانبي"]),
      Exercise("12", "رفرفة خلفي", "كتف", ["كتف خلفي", "ظهر علوي"])
    ]
  }

  /** Catalog ids are pairwise distinct and every exercise works at least one muscle group. */
  lemma CatalogWellFormed()
    ensures |DefaultExercises()| == 12
    ensures forall i, j :: 0 <= i < j < |DefaultExercises()| ==> DefaultExercises()[i].id != DefaultExercises()[j].id
    ensures forall i :: 0 <= i < |DefaultExercises()| ==> |DefaultExercises()[i].muscleGroups| >= 1
  {
  }

  /** `i` is the first position of `catalog` whose exercise has the id. */
  predicate FirstWithId(catalog: seq<Exercise>, id: string, i: int)
  {
    0 <= i < |catalog| && catalog[i].id == id && forall j :: 0 <= j < i ==> catalog[j].id != id
  }

  /** `catalog.find((e) => e.id === id)`: the first exercise with that id, if any. */
  function FindExercise(catalog: seq<Exercise>, id: string): (r: Option<Exercise>)
    ensures r.None? <==> forall i :: 0 <= i < |catalog| ==> catalog[i].id != id
    ensures r.Some? ==> r.value.id == id
    ensures r.Some? ==> exists i :: FirstWithId(catalog, id, i) && catalog[i] == r.value
  {
    if catalog == [] then None
    else if catalog[0].id == id then Some(catalog[0])
    else
      var r := FindExercise(catalog[1..], id);
      if r.None? then r
      else
        var i :| FirstWithId(catalog[1..], id, i) && catalog[1..][i] == r.value;
        assert FirstWithId(catalog, id, i + 1);
        r
  }

  /** With distinct ids, the lookup returns the exercise that carries the id. */
  lemma FindExerciseUnique(catalog: seq<Exercise>, i: nat)
    requires i < |catalog|
    requires forall a, b :: 0 <= a < b < |catalog| ==> catalog[a].id != catalog[b].id
    ensures FindExercise(catalog, catalog[i].id) == Some(catalog[i])
  {
  }

  // ---------------------------------------------------------------------------
  // Volumes and totals
  // ---------------------------------------------------------------------------

  /** `set.weight * set.reps`. */
  function SetVolume(s: WorkoutSet): real
  {
    s.weight * s.reps
  }

  /** `w.sets.reduce((sum, set) => sum + set.weight * set.reps, 0)`. */
  function WorkoutVolume(w: Workout): real
  {
    Sum(w.sets, SetVolume)
  }

  function SetCount(w: Workout): nat
  {
    |w.sets|
  }

  function Duration(w: Workout): real
  {
    w.duration
  }

  function Sets(w: Workout): seq<WorkoutSet>
  {
    w.sets
  }

  /** Total volume of a list of workouts. */
  function TotalVolume(ws: seq<Workout>): real
  {
    Sum(ws, WorkoutVolume)
  }

  function TotalSets(ws: seq<Workout>): nat
  {
    Count(ws, SetCount)
  }

  function TotalDuration(ws: seq<Workout>): real
  {
    Sum(ws, Duration)
  }

  /** All sets of a list of workouts, in order. */
  function AllSets(ws: seq<Workout>): seq<WorkoutSet>
  {
    FlatMap(ws, Sets)
  }

  /** The nested per-workout sums equal one sum over every set of every workout, and the
      set count is the length of that list. */
  lemma {:induction false} TotalsOverAllSets(ws: seq<Workout>)
    ensures TotalVolume(ws) == Sum(AllSets(ws), SetVolume)
    ensures TotalSets(ws) == |AllSets(ws)|
  {
    if ws != [] {
      var n := |ws| - 1;
      TotalsOverAllSets(ws[..n]);
      SumConcat(AllSets(ws[..n]), ws[n].sets, SetVolume);
    }
  }

  /** `w.sets.flatMap(g)`: what a per-set function yields for a whole workout. */
  function PerWorkout<U>(g: WorkoutSet -> seq<U>): Workout -> seq<U>
  {
    (w: Workout) => FlatMap(w.sets, g)
  }

  /** Going workout by workout and then set by set yields the same sequence as going over
      the list of all sets. */
  lemma {:induction false} PerWorkoutOverAllSets<U>(ws: seq<Workout>, g: WorkoutSet -> seq<U>)
    ensures FlatMap(ws, PerWorkout(g)) == FlatMap(AllSets(ws), g)
  {
    if ws != [] {
      var n := |ws| - 1;
      PerWorkoutOverAllSets(ws[..n], g);
      FlatMapConcat(AllSets(ws[..n]), ws[n].sets, g);
    }
  }

  /** One more workout contributes what its sets yield. */
  lemma PerWorkoutPush<U>(ws: seq<Workout>, i: nat, g: WorkoutSet -> seq<U>)
    requires i < |ws|
    ensures FlatMap(ws[..i + 1], PerWorkout(g)) == FlatMap(ws[..i], PerWorkout(g)) + FlatMap(ws[i].sets[..|ws[i].sets|], g)
  {
    FlatMapSnoc(ws, i, PerWorkout(g));
    assert ws[i].sets[..|ws[i].sets|] == ws[i].sets;
  }

  /** Workouts whose date lies in calendar month `month` of `year` (`getMonth`/`getFullYear`). */
  function InCalendarMonth(year: int, month: Month): Workout -> bool
  {
    (w: Workout) => w.date.year == year && w.date.month == month
  }

  // ---------------------------------------------------------------------------
  // Goal deadlines
  // ---------------------------------------------------------------------------

  /** `new Date(g.deadline) < new Date()`: the deadline's midnight has passed. */
  predicate DeadlinePassed(g: Goal, now: Clock)
  {
    MidnightMs(g.deadline) < NowMs(now)
  }

  /** `(g) => !g.isCompleted && new Date(g.deadline) < new Date()`: an open goal past its
      deadline. */
  function IsOverdue(now: Clock): Goal -> bool
  {
    (g: Goal) => !g.isCompleted && DeadlinePassed(g, now)
  }

  /** `Math.ceil((new Date(g.deadline).getTime() - new Date().getTime()) / (1000 * 60 * 60 * 24))`. */
  function DaysLeft(g: Goal, now: Clock): (n: int)
    ensures DAY_MS * (n - 1) < MidnightMs(g.deadline) - NowMs(now) <= DAY_MS * n
  {
    CeilDiv(MidnightMs(g.deadline) - NowMs(now), DAY_MS)
  }

  /** For a valid clock, a goal is past its deadline from the first millisecond of its due
      day onwards, and it has a non-negative number of days left until the end of that
      day: the two checks overlap on the due day itself. */
  lemma DeadlineOnDueDay(g: Goal, now: Clock)
    requires ValidClock(now)
    ensures DeadlinePassed(g, now) <==> DayNumber(g.deadline) < DayNumber(now.today) || (DayNumber(g.deadline) == DayNumber(now.today) && now.msOfDay > 0)
    ensures DaysLeft(g, now) == DayNumber(g.deadline) - DayNumber(now.today)
  {
    var dd, dt := DayNumber(g.deadline), DayNumber(now.today);
    assert MidnightMs(g.deadline) - NowMs(now) == DAY_MS * (dd - dt) - now.msOfDay;
  }
}
