/** The progress charts: the timeline of workouts in date order; the muscle-group
    chart (how many times and with how much volume each muscle group was worked,
    the six largest by volume); and the exercise chart (volume, heaviest weight
    and number of sets per catalog exercise, the five largest by volume). */
module ProgressCharts {
  import opened Wrappers
  import opened Seqs
  import opened Calendar
  import opened Numbers
  import opened Domain
  import opened Dictionaries
  import opened Reports

  // ---------------------------------------------------------------------------
  // Timeline
  // ---------------------------------------------------------------------------

  /** The key under which the descending sort puts earlier dates first. */
  function EarlierFirst(w: Workout): real
  {
    -(DayNumber(w.date) as real)
  }

  datatype TimelinePoint = TimelinePoint(date: Date, totalWeight: real, avgWeight: int, sets: nat, duration: real)

  /** `totalSets > 0 ? totalWeight / totalSets : 0`. */
  function AverageSetVolume(total: real, sets: nat): real
  {
    if sets > 0 then total / sets as real else 0.0
  }

  /** The point of one workout: its volume, the rounded mean volume per set, its number
      of sets and its duration. */
  function TimelinePointOf(w: Workout): TimelinePoint
  {
    var total := WorkoutVolume(w);
    TimelinePoint(w.date, total, Round(AverageSetVolume(total, |w.sets|)), |w.sets|, w.duration)
  }

  /** The workouts sorted by date, oldest first, each mapped to its point. */
  function Timeline(ws: seq<Workout>): seq<TimelinePoint>
  {
    Map(SortDesc(ws, EarlierFirst), TimelinePointOf)
  }

  /** The timeline has one point per workout, in non-decreasing date order, and its points
      are exactly the workouts' points rearranged; every point's mean is within half a unit
      of the volume per set, and 0 for a workout without sets. */
  lemma TimelineSpec(ws: seq<Workout>)
    ensures |Timeline(ws)| == |ws|
    ensures forall i, j :: 0 <= i < j < |Timeline(ws)| ==>
      DayNumber(Timeline(ws)[i].date) <= DayNumber(Timeline(ws)[j].date)
    ensures multiset(Timeline(ws)) == multiset(Map(ws, TimelinePointOf))
    ensures forall i :: 0 <= i < |Timeline(ws)| ==>
      var p := Timeline(ws)[i];
      (p.sets == 0 ==> p.avgWeight == 0)
      && (p.sets > 0 ==> p.avgWeight as real - 0.5 <= p.totalWeight / p.sets as real < p.avgWeight as real + 0.5)
  {
    var s := SortDesc(ws, EarlierFirst);
    SortDescSpec(ws, EarlierFirst);
    MapPermutation(s, ws, TimelinePointOf);
    forall i, j | 0 <= i < j < |s|
      ensures DayNumber(s[i].date) <= DayNumber(s[j].date)
    {
      assert EarlierFirst(s[i]) >= EarlierFirst(s[j]);
    }
  }

  // ---------------------------------------------------------------------------
  // Muscle groups
  // ---------------------------------------------------------------------------

  /** One muscle group of a known set's exercise, with that set's volume. */
  datatype MuscleHit = MuscleHit(muscle: string, volume: real)

  function HitOf(volume: real): string -> MuscleHit
  {
    (m: string) => MuscleHit(m, volume)
  }

  /** The hits of a set: one per muscle group of its catalog exercise, none for an unknown
      exercise id. */
  function SetHits(catalog: seq<Exercise>): WorkoutSet -> seq<MuscleHit>
  {
    (s: WorkoutSet) => Map(SetMuscles(catalog)(s), HitOf(SetVolume(s)))
  }

  /** The hits in iteration order: workout by workout, set by set, muscle by muscle. */
  function MuscleHits(catalog: seq<Exercise>, ws: seq<Workout>): seq<MuscleHit>
  {
    FlatMap(ws, PerWorkout(SetHits(catalog)))
  }

  function HitMuscle(h: MuscleHit): string { h.muscle }

  function HitVolume(h: MuscleHit): real { h.volume }

  datatype MuscleStat = MuscleStat(name: string, count: nat, totalWeight: real)

  /** `{ name: muscle, count: 0, totalWeight: 0 }`. */
  function NewMuscleStat(h: MuscleHit): MuscleStat
  {
    MuscleStat(h.muscle, 0, 0.0)
  }

  /** `count += 1; totalWeight += set.weight * set.reps`. */
  function AddHit(st: MuscleStat, h: MuscleHit): MuscleStat
  {
    st.(count := st.count + 1, totalWeight := st.totalWeight + h.volume)
  }

  function MuscleAcc(hs: seq<MuscleHit>): seq<Entry<MuscleStat>>
  {
    Accumulate([], hs, HitMuscle, NewMuscleStat, AddHit)
  }

  /** The `muscleGroupData` dictionary. */
  function MuscleTotals(catalog: seq<Exercise>, ws: seq<Workout>): seq<Entry<MuscleStat>>
  {
    MuscleAcc(MuscleHits(catalog, ws))
  }

  /** The number of times `m` occurs in `ms`. */
  function Occurrences(ms: seq<string>, m: string): nat
  {
    if ms == [] then 0 else (if ms[0] == m then 1 else 0) + Occurrences(ms[1..], m)
  }

  lemma {:induction false} OccurrencesSpec(ms: seq<string>, m: string)
    ensures Occurrences(ms, m) == multiset(ms)[m]
  {
    if ms != [] {
      OccurrencesSpec(ms[1..], m);
      assert ms == [ms[0]] + ms[1..];
    }
  }

  /** `v` added `n` times to 0. */
  function Times(n: nat, v: real): real
  {
    if n == 0 then 0.0 else Times(n - 1, v) + v
  }

  lemma {:induction false} TimesSpec(n: nat, v: real)
    ensures Times(n, v) == n as real * v
  {
    if n > 0 {
      TimesSpec(n - 1, v);
      assert (n - 1) as real * v + v == n as real * v;
    }
  }

  /** The volume a set adds to muscle group `m`: its volume once per time `m` is listed
      for its exercise. */
  function MuscleShare(catalog: seq<Exercise>, m: string): WorkoutSet -> real
  {
    (s: WorkoutSet) => Times(Occurrences(SetMuscles(catalog)(s), m), SetVolume(s))
  }

  /** A set's share of `m` is its volume added once per occurrence of `m` among its
      exercise's muscle groups (`TimesSpec`: the multiplicity times the volume). */
  lemma MuscleShareSpec(catalog: seq<Exercise>, m: string, s: WorkoutSet)
    ensures MuscleShare(catalog, m)(s) == Times(multiset(SetMuscles(catalog)(s))[m], SetVolume(s))
  {
    OccurrencesSpec(SetMuscles(catalog)(s), m);
  }

  lemma {:induction false} FoldAddHit(st: MuscleStat, hs: seq<MuscleHit>)
    ensures Fold(st, hs, AddHit) == MuscleStat(st.name, st.count + |hs|, st.totalWeight + Sum(hs, HitVolume))
  {
    if hs != [] {
      FoldAddHit(st, hs[..|hs| - 1]);
    }
  }

  /** The elements with key `k` are as many as the occurrences of `k` among the keys. */
  lemma {:induction false} KeyCount<E>(xs: seq<E>, key: E -> string, k: string)
    ensures |Filter(xs, HasKey(key, k))| == multiset(Map(xs, key))[k]
  {
    if xs != [] {
      KeyCount(xs[1..], key, k);
      MapConcat([xs[0]], xs[1..], key);
      assert xs == [xs[0]] + xs[1..];
      assert HasKey(key, k)(xs[0]) <==> key(xs[0]) == k;
    }
  }

  /** The hits that name `m` and the rest. */
  lemma HitStep(h: MuscleHit, rest: seq<MuscleHit>, m: string)
    ensures Sum(Filter([h] + rest, HasKey(HitMuscle, m)), HitVolume)
      == Sum(Filter(rest, HasKey(HitMuscle, m)), HitVolume) + if h.muscle == m then h.volume else 0.0
  {
    var p := HasKey(HitMuscle, m);
    FilterConcat([h], rest, p);
    FilterSingleton(h, p);
    SumConcat(Filter([h], p), Filter(rest, p), HitVolume);
    SumSingleton(h, HitVolume);
    assert HitMuscle(h) == h.muscle && HitVolume(h) == h.volume;
  }

  /** The hits of one set that name `m` add up to the set's share of `m`. */
  lemma {:induction false} HitShare(ms: seq<string>, v: real, m: string)
    ensures Sum(Filter(Map(ms, HitOf(v)), HasKey(HitMuscle, m)), HitVolume) == Times(Occurrences(ms, m), v)
  {
    if ms != [] {
      var h := HitOf(v)(ms[0]);
      assert h == MuscleHit(ms[0], v);
      var rest := Map(ms[1..], HitOf(v));
      HitShare(ms[1..], v, m);
      MapConcat([ms[0]], ms[1..], HitOf(v));
      assert ms == [ms[0]] + ms[1..];
      assert Map(ms, HitOf(v)) == [h] + rest;
      HitStep(h, rest, m);
      var o := Occurrences(ms[1..], m);
      assert Occurrences(ms, m) == (if ms[0] == m then 1 else 0) + o;
      if ms[0] == m {
        assert Times(o + 1, v) == Times(o, v) + v;
      }
    }
  }

  /** The volume of the hits naming `m` is the sum of every set's share of `m`. */
  lemma {:induction false} MuscleWeightOverSets(catalog: seq<Exercise>, xs: seq<WorkoutSet>, m: string)
    ensures Sum(Filter(FlatMap(xs, SetHits(catalog)), HasKey(HitMuscle, m)), HitVolume) == Sum(xs, MuscleShare(catalog, m))
  {
    if xs != [] {
      var n := |xs| - 1;
      var p := HasKey(HitMuscle, m);
      var before, last := FlatMap(xs[..n], SetHits(catalog)), SetHits(catalog)(xs[n]);
      MuscleWeightOverSets(catalog, xs[..n], m);
      FilterConcat(before, last, p);
      SumConcat(Filter(before, p), Filter(last, p), HitVolume);
      HitShare(SetMuscles(catalog)(xs[n]), SetVolume(xs[n]), m);
    }
  }

  /** Dropping the volumes from the hits leaves the muscle-group events counted by
      `calculateStats`. */
  lemma MuscleHitsAreEvents(catalog: seq<Exercise>, ws: seq<Workout>)
    ensures Map(MuscleHits(catalog, ws), HitMuscle) == MuscleEvents(catalog, ws)
  {
    forall s: WorkoutSet
      ensures Map(SetHits(catalog)(s), HitMuscle) == SetMuscles(catalog)(s)
    {
      var ms := SetMuscles(catalog)(s);
      assert forall i :: 0 <= i < |ms| ==> Map(SetHits(catalog)(s), HitMuscle)[i] == ms[i];
    }
    forall w: Workout
      ensures Map(PerWorkout(SetHits(catalog))(w), HitMuscle) == WorkoutMuscles(catalog)(w)
    {
      MapFlatMap(w.sets, SetHits(catalog), HitMuscle, SetMuscles(catalog));
    }
    MapFlatMap(ws, PerWorkout(SetHits(catalog)), HitMuscle, WorkoutMuscles(catalog));
  }

  /** A muscle group has an entry exactly when some known set works it; the entry is named
      after it, counts the (set, muscle group) pairs that work it, and holds the sum of
      those sets' volumes. */
  lemma MuscleTotalsSpec(catalog: seq<Exercise>, ws: seq<Workout>, m: string)
    ensures var es := MuscleEvents(catalog, ws);
      Get(MuscleTotals(catalog, ws), m)
        == if m in es then Some(MuscleStat(m, multiset(es)[m], Sum(AllSets(ws), MuscleShare(catalog, m)))) else None
  {
    var hits := MuscleHits(catalog, ws);
    var f := Filter(hits, HasKey(HitMuscle, m));
    AccumulateGet(hits, HitMuscle, NewMuscleStat, AddHit, m);
    KeyCount(hits, HitMuscle, m);
    MuscleHitsAreEvents(catalog, ws);
    PerWorkoutOverAllSets(ws, SetHits(catalog));
    MuscleWeightOverSets(catalog, AllSets(ws), m);
    if f != [] {
      assert HasKey(HitMuscle, m)(f[0]);
      FoldAddHit(NewMuscleStat(f[0]), f);
    }
  }

  /** The chart and `calculateStats` agree on which muscle groups were worked, in the same
      first-seen order, and on how many times each was. */
  lemma MuscleTotalsAgreeWithCounts(catalog: seq<Exercise>, ws: seq<Workout>, m: string)
    ensures Keys(MuscleTotals(catalog, ws)) == Keys(MuscleCounts(catalog, ws))
    ensures Get(MuscleTotals(catalog, ws), m).Some? <==> Get(MuscleCounts(catalog, ws), m).Some?
    ensures Get(MuscleTotals(catalog, ws), m).Some? ==>
      Get(MuscleTotals(catalog, ws), m).value.count == Get(MuscleCounts(catalog, ws), m).value
  {
    MuscleTotalsSpec(catalog, ws, m);
    MuscleCountsSpec(catalog, ws, m);
    MuscleHitsAreEvents(catalog, ws);
    AccumulateKeys(MuscleHits(catalog, ws), HitMuscle, NewMuscleStat, AddHit);
  }

  /** Hits applied to an existing dictionary `acc`. */
  function AddHits(acc: seq<Entry<MuscleStat>>, hs: seq<MuscleHit>): seq<Entry<MuscleStat>>
  {
    Accumulate(acc, hs, HitMuscle, NewMuscleStat, AddHit)
  }

  /** `acc[muscle]` created when missing, then counted once more with the set's volume. */
  function RecordMuscle(acc: seq<Entry<MuscleStat>>, muscle: string, volume: real): seq<Entry<MuscleStat>>
  {
    var st := GetOr(acc, muscle, MuscleStat(muscle, 0, 0.0));
    Put(acc, muscle, st.(count := st.count + 1, totalWeight := st.totalWeight + volume))
  }

  /** One more muscle group of the set is one more update of its entry. */
  lemma MuscleHitPush(acc0: seq<Entry<MuscleStat>>, muscles: seq<string>, v: real, k: nat)
    requires k < |muscles|
    ensures AddHits(acc0, Map(muscles[..k + 1], HitOf(v)))
      == RecordMuscle(AddHits(acc0, Map(muscles[..k], HitOf(v))), muscles[k], v)
  {
    var h := MuscleHit(muscles[k], v);
    var prefix := Map(muscles[..k], HitOf(v));
    MapSnoc(muscles, k, HitOf(v));
    AccumulateSnoc(acc0, prefix, h, HitMuscle, NewMuscleStat, AddHit);
    assert HitMuscle(h) == muscles[k] && NewMuscleStat(h) == MuscleStat(muscles[k], 0, 0.0);
    var st := GetOr(AddHits(acc0, prefix), muscles[k], MuscleStat(muscles[k], 0, 0.0));
    assert AddHit(st, h) == st.(count := st.count + 1, totalWeight := st.totalWeight + v);
  }

  /** The body of `workout.sets.forEach` in `muscleGroupData`: when the set's exercise is in
      the catalog, each of its muscle groups gets its entry created when missing, one more
      count and the set's volume. */
  method AddSetMuscles(catalog: seq<Exercise>, s: WorkoutSet, acc0: seq<Entry<MuscleStat>>) returns (acc: seq<Entry<MuscleStat>>)
    ensures acc == AddHits(acc0, SetHits(catalog)(s))
  {
    acc := acc0;
    var exercise := FindExercise(catalog, s.exerciseId);
    if exercise.Some? {
      var volume := SetVolume(s);
      var muscles := exercise.value.muscleGroups;
      assert Map(muscles[..0], HitOf(volume)) == [];
      for k := 0 to |muscles|
        invariant acc == AddHits(acc0, Map(muscles[..k], HitOf(volume)))
      {
        var muscle := muscles[k];
        MuscleHitPush(acc0, muscles, volume, k);
        acc := RecordMuscle(acc, muscle, volume);
      }
      assert muscles[..|muscles|] == muscles;
      assert SetMuscles(catalog)(s) == muscles;
      assert SetHits(catalog)(s) == Map(muscles, HitOf(volume));
    } else {
      assert SetMuscles(catalog)(s) == [];
      assert SetHits(catalog)(s) == [];
    }
  }

  /** The `workouts.reduce` that builds `muscleGroupData`, set by set. */
  method AccumulateMuscles(catalog: seq<Exercise>, ws: seq<Workout>) returns (acc: seq<Entry<MuscleStat>>)
    ensures acc == MuscleTotals(catalog, ws)
  {
    acc := [];
    for i := 0 to |ws|
      invariant acc == MuscleAcc(MuscleHits(catalog, ws[..i]))
    {
      var sets := ws[i].sets;
      ghost var before := MuscleHits(catalog, ws[..i]);
      assert before + FlatMap(sets[..0], SetHits(catalog)) == before;
      for j := 0 to |sets|
        invariant acc == MuscleAcc(before + FlatMap(sets[..j], SetHits(catalog)))
      {
        ghost var done := before + FlatMap(sets[..j], SetHits(catalog));
        acc := AddSetMuscles(catalog, sets[j], acc);
        AccumulateConcat([], done, SetHits(catalog)(sets[j]), HitMuscle, NewMuscleStat, AddHit);
        FlatMapSnoc(sets, j, SetHits(catalog));
        ConcatAssoc(before, FlatMap(sets[..j], SetHits(catalog)), SetHits(catalog)(sets[j]));
      }
      PerWorkoutPush(ws, i, SetHits(catalog));
    }
    assert ws[..|ws|] == ws;
  }

  // ---------------------------------------------------------------------------
  // Exercises
  // ---------------------------------------------------------------------------

  /** A set whose exercise id is in the catalog, with that catalog exercise. */
  datatype ExerciseHit = ExerciseHit(exercise: Exercise, workoutSet: WorkoutSet)

  function HitWith(e: Exercise): WorkoutSet -> ExerciseHit
  {
    (s: WorkoutSet) => ExerciseHit(e, s)
  }

  /** The hit of a set: one when its exercise id is in the catalog, none otherwise. */
  function SetExerciseHits(catalog: seq<Exercise>): WorkoutSet -> seq<ExerciseHit>
  {
    (s: WorkoutSet) =>
      match FindExercise(catalog, s.exerciseId)
      case None => []
      case Some(e) => [ExerciseHit(e, s)]
  }

  function ExerciseHits(catalog: seq<Exercise>, ws: seq<Workout>): seq<ExerciseHit>
  {
    FlatMap(ws, PerWorkout(SetExerciseHits(catalog)))
  }

  function HitExercise(h: ExerciseHit): string { h.exercise.id }

  datatype ExerciseStat = ExerciseStat(name: string, category: string, totalWeight: real, maxWeight: real, sessions: nat)

  /** `{ name, category, totalWeight: 0, maxWeight: 0, sessions: 0 }`. */
  function NewExerciseStat(h: ExerciseHit): ExerciseStat
  {
    ExerciseStat(h.exercise.name, h.exercise.category, 0.0, 0.0, 0)
  }

  /** `totalWeight += weight * reps; maxWeight = Math.max(maxWeight, weight); sessions += 1`. */
  function AddExerciseHit(st: ExerciseStat, h: ExerciseHit): ExerciseStat
  {
    st.(totalWeight := st.totalWeight + SetVolume(h.workoutSet), maxWeight := Max(st.maxWeight, h.workoutSet.weight), sessions := st.sessions + 1)
  }

  function ExerciseAcc(hs: seq<ExerciseHit>): seq<Entry<ExerciseStat>>
  {
    Accumulate([], hs, HitExercise, NewExerciseStat, AddExerciseHit)
  }

  /** The `exerciseData` dictionary, keyed by exercise id. */
  function ExerciseTotals(catalog: seq<Exercise>, ws: seq<Workout>): seq<Entry<ExerciseStat>>
  {
    ExerciseAcc(ExerciseHits(catalog, ws))
  }

  /** The sets recorded for exercise id `k`. */
  function ForExercise(k: string): WorkoutSet -> bool
  {
    (s: WorkoutSet) => s.exerciseId == k
  }

  /** The larger of `m` and the heaviest weight among `sets`. */
  function Heaviest(m: real, sets: seq<WorkoutSet>): (r: real)
    ensures r >= m
    ensures forall i :: 0 <= i < |sets| ==> r >= sets[i].weight
    ensures r == m || exists i :: 0 <= i < |sets| && r == sets[i].weight
  {
    if sets == [] then m
    else
      var n := |sets| - 1;
      var prev := Heaviest(m, sets[..n]);
      assert forall i :: 0 <= i < n ==> sets[..n][i] == sets[i];
      Max(prev, sets[n].weight)
  }

  lemma {:induction false} FoldExercise(st: ExerciseStat, e: Exercise, sets: seq<WorkoutSet>)
    ensures Fold(st, Map(sets, HitWith(e)), AddExerciseHit)
      == ExerciseStat(st.name, st.category, st.totalWeight + Sum(sets, SetVolume), Heaviest(st.maxWeight, sets), st.sessions + |sets|)
  {
    if sets != [] {
      var n := |sets| - 1;
      FoldExercise(st, e, sets[..n]);
      assert Map(sets, HitWith(e))[..n] == Map(sets[..n], HitWith(e));
    }
  }

  /** The hit of one set has exercise id `k` exactly when the set records `k` and `k` is
      in the catalog. */
  lemma ExerciseHitFor(catalog: seq<Exercise>, x: WorkoutSet, k: string)
    ensures Filter(SetExerciseHits(catalog)(x), HasKey(HitExercise, k))
      == match FindExercise(catalog, k)
         case None => []
         case Some(e) => if ForExercise(k)(x) then [HitWith(e)(x)] else []
  {
    var p := HasKey(HitExercise, k);
    match FindExercise(catalog, x.exerciseId)
    case None =>
      assert SetExerciseHits(catalog)(x) == [];
    case Some(f) =>
      var h := ExerciseHit(f, x);
      assert SetExerciseHits(catalog)(x) == [h];
      FilterSingleton(h, p);
      assert HitExercise(h) == x.exerciseId;
  }

  /** The hits with exercise id `k` are the sets recorded for `k` paired with its catalog
      exercise, and there are none when `k` is not in the catalog. */
  lemma {:induction false} ExerciseHitsFor(catalog: seq<Exercise>, xs: seq<WorkoutSet>, k: string)
    ensures Filter(FlatMap(xs, SetExerciseHits(catalog)), HasKey(HitExercise, k))
      == match FindExercise(catalog, k)
         case None => []
         case Some(e) => Map(Filter(xs, ForExercise(k)), HitWith(e))
  {
    if xs != [] {
      var init, x := xs[..|xs| - 1], xs[|xs| - 1];
      var p := HasKey(HitExercise, k);
      assert xs == init + [x];
      ExerciseHitsFor(catalog, init, k);
      FilterConcat(FlatMap(init, SetExerciseHits(catalog)), SetExerciseHits(catalog)(x), p);
      ExerciseHitFor(catalog, x, k);
      match FindExercise(catalog, k)
      case None =>
      case Some(e) =>
        var ys := Filter(init, ForExercise(k));
        FilterSnoc(init, x, ForExercise(k));
        if ForExercise(k)(x) {
          MapAppend(ys, x, HitWith(e));
        } else {
          assert ys + [] == ys;
        }
    }
  }

  /** An exercise id has an entry exactly when it is in the catalog and some set records
      it; the entry carries the catalog name and category, the total volume of those sets,
      the heaviest weight lifted in them (or 0 when all are lighter), and their number. */
  lemma ExerciseTotalsSpec(catalog: seq<Exercise>, ws: seq<Workout>, k: string)
    ensures var sets := Filter(AllSets(ws), ForExercise(k));
      Get(ExerciseTotals(catalog, ws), k)
        == match FindExercise(catalog, k)
           case None => None
           case Some(e) =>
             if sets == [] then None
             else Some(ExerciseStat(e.name, e.category, Sum(sets, SetVolume), Heaviest(0.0, sets), |sets|))
  {
    var hits := ExerciseHits(catalog, ws);
    var sets := Filter(AllSets(ws), ForExercise(k));
    AccumulateGet(hits, HitExercise, NewExerciseStat, AddExerciseHit, k);
    PerWorkoutOverAllSets(ws, SetExerciseHits(catalog));
    ExerciseHitsFor(catalog, AllSets(ws), k);
    match FindExercise(catalog, k)
    case None =>
    case Some(e) =>
      if sets != [] {
        var st := NewExerciseStat(Map(sets, HitWith(e))[0]);
        assert st == ExerciseStat(e.name, e.category, 0.0, 0.0, 0);
        FoldExercise(st, e, sets);
      }
  }

  /** `acc[exercise.id]` created when missing, then updated with one more set. */
  function RecordSet(acc: seq<Entry<ExerciseStat>>, e: Exercise, s: WorkoutSet): seq<Entry<ExerciseStat>>
  {
    var st := GetOr(acc, e.id, ExerciseStat(e.name, e.category, 0.0, 0.0, 0));
    Put(acc, e.id, st.(totalWeight := st.totalWeight + SetVolume(s),
                       maxWeight := Max(st.maxWeight, s.weight),
                       sessions := st.sessions + 1))
  }

  /** One known set creates its exercise's entry when missing and updates it. */
  lemma ExerciseSingleHit(acc0: seq<Entry<ExerciseStat>>, e: Exercise, s: WorkoutSet)
    ensures Accumulate(acc0, [ExerciseHit(e, s)], HitExercise, NewExerciseStat, AddExerciseHit) == RecordSet(acc0, e, s)
  {
    var h := ExerciseHit(e, s);
    AccumulateSnoc(acc0, [], h, HitExercise, NewExerciseStat, AddExerciseHit);
    assert [] + [h] == [h];
    assert HitExercise(h) == e.id && NewExerciseStat(h) == ExerciseStat(e.name, e.category, 0.0, 0.0, 0);
    var st := GetOr(acc0, e.id, ExerciseStat(e.name, e.category, 0.0, 0.0, 0));
    assert AddExerciseHit(st, h)
      == st.(totalWeight := st.totalWeight + SetVolume(s), maxWeight := Max(st.maxWeight, s.weight), sessions := st.sessions + 1);
  }

  /** A known set updates its exercise's entry; a set with an unknown exercise id leaves
      the dictionary as it is. */
  lemma ExerciseHitPush(acc0: seq<Entry<ExerciseStat>>, catalog: seq<Exercise>, s: WorkoutSet)
    ensures Accumulate(acc0, SetExerciseHits(catalog)(s), HitExercise, NewExerciseStat, AddExerciseHit)
      == match FindExercise(catalog, s.exerciseId)
         case None => acc0
         case Some(e) => RecordSet(acc0, e, s)
  {
    match FindExercise(catalog, s.exerciseId)
    case None =>
      assert SetExerciseHits(catalog)(s) == [];
    case Some(e) =>
      assert SetExerciseHits(catalog)(s) == [ExerciseHit(e, s)];
      ExerciseSingleHit(acc0, e, s);
  }

  /** The `workouts.reduce` that builds `exerciseData`: for each workout and each set with
      a catalog exercise, create the exercise's entry when missing, then add the set's
      volume, raise the heaviest weight and count the set. */
  method AccumulateExercises(catalog: seq<Exercise>, ws: seq<Workout>) returns (acc: seq<Entry<ExerciseStat>>)
    ensures acc == ExerciseTotals(catalog, ws)
  {
    acc := [];
    for i := 0 to |ws|
      invariant acc == ExerciseAcc(ExerciseHits(catalog, ws[..i]))
    {
      var sets := ws[i].sets;
      ghost var before := ExerciseHits(catalog, ws[..i]);
      assert before + FlatMap(sets[..0], SetExerciseHits(catalog)) == before;
      for j := 0 to |sets|
        invariant acc == ExerciseAcc(before + FlatMap(sets[..j], SetExerciseHits(catalog)))
      {
        ghost var done := before + FlatMap(sets[..j], SetExerciseHits(catalog));
        ghost var prev := acc;
        var s := sets[j];
        var exercise := FindExercise(catalog, s.exerciseId);
        if exercise.Some? {
          var e := exercise.value;
          acc := RecordSet(acc, e, s);
        }
        ExerciseHitPush(prev, catalog, s);
        AccumulateConcat([], done, SetExerciseHits(catalog)(s), HitExercise, NewExerciseStat, AddExerciseHit);
        FlatMapSnoc(sets, j, SetExerciseHits(catalog));
        ConcatAssoc(before, FlatMap(sets[..j], SetExerciseHits(catalog)), SetExerciseHits(catalog)(s));
      }
      PerWorkoutPush(ws, i, SetExerciseHits(catalog));
    }
    assert ws[..|ws|] == ws;
  }

  // ---------------------------------------------------------------------------
  // The chart data
  // ---------------------------------------------------------------------------

  /** The bar charts show the six heaviest muscle groups and the five heaviest exercises. */
  const TOP_MUSCLES: nat := 6
  const TOP_EXERCISES: nat := 5

  function MuscleWeight(st: MuscleStat): real { st.totalWeight }

  function ExerciseWeight(st: ExerciseStat): real { st.totalWeight }

  datatype ChartData = ChartData(timeline: seq<TimelinePoint>, muscles: seq<MuscleStat>, exercises: seq<ExerciseStat>)

  /** The stored workouts oldest first. The memo sorts the array in place before the
      timeline, so both accumulations that follow see this order. */
  function Chronological(ws: seq<Workout>): seq<Workout>
  {
    SortDesc(ws, EarlierFirst)
  }

  /** The value of the `chartData` memo. */
  function Charts(catalog: seq<Exercise>, ws: seq<Workout>): ChartData
  {
    var sorted := Chronological(ws);
    ChartData(
      Timeline(ws),
      TopN(Values(MuscleTotals(catalog, sorted)), MuscleWeight, TOP_MUSCLES),
      TopN(Values(ExerciseTotals(catalog, sorted)), ExerciseWeight, TOP_EXERCISES))
  }

  /** Every value of the muscle dictionary is the entry of its own muscle group. */
  lemma MuscleValueEntry(catalog: seq<Exercise>, ws: seq<Workout>, st: MuscleStat)
    requires st in Values(MuscleTotals(catalog, ws))
    ensures Get(MuscleTotals(catalog, ws), st.name) == Some(st)
  {
    var d := MuscleTotals(catalog, ws);
    assert d == Accumulate([], MuscleHits(catalog, ws), HitMuscle, NewMuscleStat, AddHit);
    var i :| 0 <= i < |Values(d)| && Values(d)[i] == st;
    AccumulateEntry(MuscleHits(catalog, ws), HitMuscle, NewMuscleStat, AddHit, i);
    MuscleTotalsSpec(catalog, ws, d[i].key);
  }

  /** The muscle chart shows the six muscle groups with the most volume (all of them when
      fewer were worked), heaviest first; every bar is the complete entry of its muscle
      group, and no muscle group left out has more volume than one shown. */
  lemma MuscleChartSpec(catalog: seq<Exercise>, ws: seq<Workout>)
    ensures var sorted := Chronological(ws);
      var bars := Charts(catalog, ws).muscles;
      var worked := |Distinct(MuscleEvents(catalog, sorted))|;
      |bars| == (if worked <= TOP_MUSCLES then worked else TOP_MUSCLES)
      && SortedDesc(bars, MuscleWeight)
      && (forall st :: st in bars ==> Get(MuscleTotals(catalog, sorted), st.name) == Some(st))
      && (forall y, z :: y in multiset(Values(MuscleTotals(catalog, sorted))) - multiset(bars) && z in bars ==>
            y.totalWeight <= z.totalWeight)
  {
    var sorted := Chronological(ws);
    var d := MuscleTotals(catalog, sorted);
    var bars := Charts(catalog, ws).muscles;
    TopNSpec(Values(d), MuscleWeight, TOP_MUSCLES);
    MuscleHitsAreEvents(catalog, sorted);
    AccumulateKeys(MuscleHits(catalog, sorted), HitMuscle, NewMuscleStat, AddHit);
    assert |Keys(d)| == |d| == |Values(d)|;
    assert |Values(d)| == |Distinct(MuscleEvents(catalog, sorted))|;
    forall st | st in bars
      ensures Get(d, st.name) == Some(st)
    {
      assert st in multiset(bars);
      assert st in Values(d);
      MuscleValueEntry(catalog, sorted, st);
    }
    forall y, z | y in multiset(Values(d)) - multiset(bars) && z in bars
      ensures y.totalWeight <= z.totalWeight
    {
      assert MuscleWeight(y) <= MuscleWeight(z);
    }
  }

  /** The exercise chart shows the five exercises with the most volume (all of them when
      fewer were done), heaviest first, each one an entry of the exercise dictionary, and
      no exercise left out has more volume than one shown. */
  lemma ExerciseChartSpec(catalog: seq<Exercise>, ws: seq<Workout>)
    ensures var sorted := Chronological(ws);
      var bars := Charts(catalog, ws).exercises;
      var done := |ExerciseTotals(catalog, sorted)|;
      |bars| == (if done <= TOP_EXERCISES then done else TOP_EXERCISES)
      && SortedDesc(bars, ExerciseWeight)
      && multiset(bars) <= multiset(Values(ExerciseTotals(catalog, sorted)))
      && (forall y, z :: y in multiset(Values(ExerciseTotals(catalog, sorted))) - multiset(bars) && z in bars ==>
            y.totalWeight <= z.totalWeight)
  {
    var d := ExerciseTotals(catalog, Chronological(ws));
    var bars := Charts(catalog, ws).exercises;
    TopNSpec(Values(d), ExerciseWeight, TOP_EXERCISES);
    assert |Values(d)| == |d|;
    forall y: ExerciseStat, z: ExerciseStat | y in multiset(Values(d)) - multiset(bars) && z in bars
      ensures y.totalWeight <= z.totalWeight
    {
      assert ExerciseWeight(y) <= ExerciseWeight(z);
    }
  }

  /** The `chartData` memo computed as the component does: the in-place sort and the
      timeline, then the two accumulations over the sorted workouts, then the two top
      lists. */
  method ComputeChartData(catalog: seq<Exercise>, ws: seq<Workout>) returns (c: ChartData)
    ensures c == Charts(catalog, ws)
  {
    var sorted := Chronological(ws);
    var timeline := Timeline(ws);
    var muscles := AccumulateMuscles(catalog, sorted);
    var exercises := AccumulateExercises(catalog, sorted);
    c := ChartData(timeline, TopN(Values(muscles), MuscleWeight, TOP_MUSCLES), TopN(Values(exercises), ExerciseWeight, TOP_EXERCISES));
  }
}
