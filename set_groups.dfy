/** The grouping of a workout's sets by exercise that the workout card and the
    workout form both build with `reduce` into a `Record<string, WorkoutSet[]>`
    (`groups[id] = []` for a new exercise, then `groups[id].push(set)`), and the
    groups that are shown: those whose exercise id is found in the catalog. */
module SetGroups {
  import opened Wrappers
  import opened Seqs
  import opened Domain
  import opened Dictionaries

  /** `set.exerciseId`, the key of the grouping. */
  function ExerciseKey(s: WorkoutSet): string { s.exerciseId }

  /** `groups[set.exerciseId] = []` for an exercise seen for the first time. */
  function NoSets(s: WorkoutSet): seq<WorkoutSet> { [] }

  /** `groups[set.exerciseId].push(set)`. */
  function PushSet(g: seq<WorkoutSet>, s: WorkoutSet): seq<WorkoutSet> { g + [s] }

  /** The dictionary the `reduce` returns, in key insertion order. */
  function Groups(sets: seq<WorkoutSet>): seq<Entry<seq<WorkoutSet>>>
  {
    Accumulate([], sets, ExerciseKey, NoSets, PushSet)
  }

  /** The sets of exercise `id`, in the order they were entered. */
  function SetsOf(sets: seq<WorkoutSet>, id: string): seq<WorkoutSet>
  {
    Filter(sets, HasKey(ExerciseKey, id))
  }

  /** The sets of one group. */
  function GroupSets(e: Entry<seq<WorkoutSet>>): seq<WorkoutSet> { e.value }

  /** The groups laid end to end, in the order `Object.entries` lists them. */
  function Concatenated(groups: seq<Entry<seq<WorkoutSet>>>): seq<WorkoutSet>
  {
    FlatMap(groups, GroupSets)
  }

  /** Pushing sets one by one onto a group appends them in order. */
  lemma {:induction false} FoldPushSet(g: seq<WorkoutSet>, f: seq<WorkoutSet>)
    ensures Fold(g, f, PushSet) == g + f
  {
    if f != [] {
      var n := |f| - 1;
      FoldPushSet(g, f[..n]);
      assert f == f[..n] + [f[n]];
    }
  }

  /** An exercise has sets exactly when some set records it. */
  lemma SetsOfNonEmpty(sets: seq<WorkoutSet>, id: string)
    ensures SetsOf(sets, id) != [] <==> exists i :: 0 <= i < |sets| && sets[i].exerciseId == id
  {
    var f := SetsOf(sets, id);
    FilterMembers(sets, HasKey(ExerciseKey, id));
    if f != [] {
      assert f[0] in f;
      assert HasKey(ExerciseKey, id)(f[0]);
      var i :| 0 <= i < |sets| && sets[i] == f[0];
      assert ExerciseKey(sets[i]) == id;
    }
    if exists i :: 0 <= i < |sets| && sets[i].exerciseId == id {
      var i :| 0 <= i < |sets| && sets[i].exerciseId == id;
      assert ExerciseKey(sets[i]) == id;
      assert HasKey(ExerciseKey, id)(sets[i]);
      assert sets[i] in f;
    }
  }

  /** There is a group for exactly the exercises that have a set; each group holds the
      sets of its exercise in their original order; and the groups come in the order
      their exercises first appear. */
  lemma GroupsSpec(sets: seq<WorkoutSet>, id: string)
    ensures Get(Groups(sets), id).Some? <==> exists i :: 0 <= i < |sets| && sets[i].exerciseId == id
    ensures Get(Groups(sets), id).None? <==> SetsOf(sets, id) == []
    ensures Get(Groups(sets), id).Some? ==>
      var g := Get(Groups(sets), id).value;
      g == SetsOf(sets, id) && g != [] && Subsequence(g, sets)
    ensures Keys(Groups(sets)) == Distinct(Map(sets, ExerciseKey))
  {
    var f := SetsOf(sets, id);
    AccumulateGet(sets, ExerciseKey, NoSets, PushSet, id);
    AccumulateKeys(sets, ExerciseKey, NoSets, PushSet);
    SetsOfNonEmpty(sets, id);
    FilterIsSubsequence(sets, HasKey(ExerciseKey, id));
    if f != [] {
      assert NoSets(f[0]) == [];
      FoldPushSet([], f);
    }
  }

  /** One more set joins the end of its exercise's group, or starts that group, and
      leaves every other group as it was. */
  lemma GroupsSnoc(sets: seq<WorkoutSet>, x: WorkoutSet, k: string)
    ensures Get(Groups(sets + [x]), k)
      == if x.exerciseId == k then Some(SetsOf(sets, k) + [x]) else Get(Groups(sets), k)
  {
    var prev := Groups(sets);
    var e := x.exerciseId;
    AccumulateSnoc([], sets, x, ExerciseKey, NoSets, PushSet);
    GetPut(prev, e, GetOr(prev, e, []) + [x], k);
    GroupsSpec(sets, e);
  }

  /** Each exercise has one group. */
  lemma GroupsDistinctKeys(sets: seq<WorkoutSet>)
    ensures forall a, b :: 0 <= a < b < |Groups(sets)| ==> Groups(sets)[a].key != Groups(sets)[b].key
  {
    var d := Groups(sets);
    AccumulateKeys(sets, ExerciseKey, NoSets, PushSet);
    forall a, b | 0 <= a < b < |d|
      ensures d[a].key != d[b].key
    {
      assert Keys(d)[a] == d[a].key && Keys(d)[b] == d[b].key;
    }
  }

  /** One more set pushed onto its group adds exactly that set to the groups laid end
      to end. */
  lemma PushAddsOne(d: seq<Entry<seq<WorkoutSet>>>, s: WorkoutSet)
    ensures var k := s.exerciseId;
      multiset(Concatenated(Put(d, k, GetOr(d, k, []) + [s]))) == multiset(Concatenated(d)) + multiset{s}
  {
    var k := s.exerciseId;
    var i := IndexOf(d, k);
    var v := GetOr(d, k, []);
    var e := Entry(k, v + [s]);
    FlatMapSingleton(e, GroupSets);
    if i < 0 {
      FlatMapConcat(d, [e], GroupSets);
    } else {
      var a, b := d[..i], d[i + 1..];
      assert d == a + [d[i]] + b;
      assert Put(d, k, v + [s]) == a + [e] + b;
      FlatMapSingleton(d[i], GroupSets);
      FlatMapConcat(a + [d[i]], b, GroupSets);
      FlatMapConcat(a, [d[i]], GroupSets);
      FlatMapConcat(a + [e], b, GroupSets);
      FlatMapConcat(a, [e], GroupSets);
    }
  }

  /** The groups partition the sets: laid end to end they are a rearrangement of the
      set list, with nothing lost and nothing repeated. */
  lemma {:induction false} GroupsPermute(sets: seq<WorkoutSet>)
    ensures multiset(Concatenated(Groups(sets))) == multiset(sets)
  {
    if sets != [] {
      var n := |sets| - 1;
      assert sets == sets[..n] + [sets[n]];
      GroupsPermute(sets[..n]);
      PushAddsOne(Groups(sets[..n]), sets[n]);
    }
  }

  /** The `reduce` of both screens, one set at a time. */
  method GroupByExercise(sets: seq<WorkoutSet>) returns (groups: seq<Entry<seq<WorkoutSet>>>)
    ensures groups == Groups(sets)
  {
    groups := [];
    for i := 0 to |sets|
      invariant groups == Groups(sets[..i])
    {
      var s := sets[i];
      assert sets[..i + 1] == sets[..i] + [s];
      AccumulateSnoc([], sets[..i], s, ExerciseKey, NoSets, PushSet);
      if Get(groups, s.exerciseId).None? {
        PutOverPlaceholder(groups, s.exerciseId, [], [s]);
        groups := groups + [Entry(s.exerciseId, [])];
      }
      var g := GetOr(groups, s.exerciseId, []);
      groups := Put(groups, s.exerciseId, g + [s]);
    }
    assert sets[..|sets|] == sets;
  }

  // ---------------------------------------------------------------------------
  // The groups shown
  // ---------------------------------------------------------------------------

  /** A group displayed under its catalog exercise. */
  datatype ExerciseGroup = ExerciseGroup(exercise: Exercise, sets: seq<WorkoutSet>)

  /** `find` the group's exercise in the catalog; a group without one renders `null`. */
  function ShowGroup(catalog: seq<Exercise>): Entry<seq<WorkoutSet>> -> seq<ExerciseGroup>
  {
    (e: Entry<seq<WorkoutSet>>) =>
      match FindExercise(catalog, e.key)
      case None => []
      case Some(x) => [ExerciseGroup(x, e.value)]
  }

  /** `Object.entries(groups).map(...)` without the `null`s. */
  function ShownGroups(catalog: seq<Exercise>, sets: seq<WorkoutSet>): seq<ExerciseGroup>
  {
    FlatMap(Groups(sets), ShowGroup(catalog))
  }

  /** A group is rendered exactly when the catalog has its exercise. */
  lemma ShowGroupSpec(catalog: seq<Exercise>, e: Entry<seq<WorkoutSet>>, g: ExerciseGroup)
    ensures g in ShowGroup(catalog)(e) <==> FindExercise(catalog, e.key) == Some(g.exercise) && g.sets == e.value
  {
    var found := FindExercise(catalog, e.key);
    if found.Some? {
      assert ShowGroup(catalog)(e) == [ExerciseGroup(found.value, e.value)];
    } else {
      assert ShowGroup(catalog)(e) == [];
    }
  }

  /** Every group shown is the catalog's exercise for its id with all the sets of that
      exercise, in order. */
  lemma ShownGroupSound(catalog: seq<Exercise>, sets: seq<WorkoutSet>, g: ExerciseGroup)
    requires g in ShownGroups(catalog, sets)
    ensures FindExercise(catalog, g.exercise.id) == Some(g.exercise)
    ensures g.sets == SetsOf(sets, g.exercise.id) && g.sets != []
  {
    var d := Groups(sets);
    FlatMapMember(d, ShowGroup(catalog), g);
    var i :| 0 <= i < |d| && g in ShowGroup(catalog)(d[i]);
    ShowGroupSpec(catalog, d[i], g);
    GroupsDistinctKeys(sets);
    GetDistinct(d, i);
    GroupsSpec(sets, d[i].key);
  }

  /** Every exercise of the catalog that has sets is shown with all of them, in order. */
  lemma ShownGroupComplete(catalog: seq<Exercise>, sets: seq<WorkoutSet>, g: ExerciseGroup)
    requires FindExercise(catalog, g.exercise.id) == Some(g.exercise)
    requires g.sets == SetsOf(sets, g.exercise.id) && g.sets != []
    ensures g in ShownGroups(catalog, sets)
  {
    var d := Groups(sets);
    var id := g.exercise.id;
    GroupsSpec(sets, id);
    var i := IndexOf(d, id);
    ShowGroupSpec(catalog, d[i], g);
    FlatMapMember(d, ShowGroup(catalog), g);
  }

  /** A group is shown exactly when its exercise is the catalog's exercise for that id
      and it has sets; it then holds every set of that exercise, in order. Sets of an
      exercise missing from the catalog are not shown at all. */
  lemma ShownGroupsSpec(catalog: seq<Exercise>, sets: seq<WorkoutSet>, g: ExerciseGroup)
    ensures g in ShownGroups(catalog, sets) <==>
      FindExercise(catalog, g.exercise.id) == Some(g.exercise)
      && g.sets == SetsOf(sets, g.exercise.id) && g.sets != []
  {
    if g in ShownGroups(catalog, sets) {
      ShownGroupSound(catalog, sets, g);
    }
    if FindExercise(catalog, g.exercise.id) == Some(g.exercise) && g.sets == SetsOf(sets, g.exercise.id) && g.sets != [] {
      ShownGroupComplete(catalog, sets, g);
    }
  }
}
