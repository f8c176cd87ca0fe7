/** The workout form: its fields, adding a blank set for an exercise, patching
    and removing a set, the save handler, and the exercise picker's category
    buttons and filter. The sets are grouped for display by `SetGroups`. */
module WorkoutForm {
  import opened Wrappers
  import opened Seqs
  import opened Strings
  import opened Calendar
  import opened Domain
  import opened Dictionaries
  import opened KeyedLists
  import opened SetGroups

  /** The form's state: name, notes, the sets entered and the duration in minutes. */
  datatype FormState = FormState(name: string, notes: string, sets: seq<WorkoutSet>, duration: real)

  /** The initial state: the edited workout's fields, or an empty form. */
  function InitialState(editing: Option<Workout>): FormState
  {
    match editing
    case None => FormState("", "", [], 0.0)
    case Some(w) => FormState(w.name, w.notes.GetOr(""), w.sets, w.duration)
  }

  // ---------------------------------------------------------------------------
  // Adding, patching and removing sets
  // ---------------------------------------------------------------------------

  /** The blank set `addSet` creates; `freshId` stands for `Date.now().toString()`. */
  function NewSet(exerciseId: string, freshId: string): WorkoutSet
  {
    WorkoutSet(freshId, exerciseId, 0.0, 0.0, Some(60.0), Some(""))
  }

  /** `setSets([...sets, newSet])`. */
  function AddSet(st: FormState, exerciseId: string, freshId: string): FormState
  {
    st.(sets := st.sets + [NewSet(exerciseId, freshId)])
  }

  /** Adding appends one blank set for the exercise and keeps every other set and
      field; a blank set adds no volume. */
  lemma AddSetSpec(st: FormState, exerciseId: string, freshId: string)
    ensures var r := AddSet(st, exerciseId, freshId);
      |r.sets| == |st.sets| + 1 && r.sets[..|st.sets|] == st.sets
      && r.name == st.name && r.notes == st.notes && r.duration == st.duration
    ensures var n := AddSet(st, exerciseId, freshId).sets[|st.sets|];
      n.id == freshId && n.exerciseId == exerciseId && n.weight == 0.0 && n.reps == 0.0
      && n.restTime == Some(60.0) && n.notes == Some("")
    ensures Sum(AddSet(st, exerciseId, freshId).sets, SetVolume) == Sum(st.sets, SetVolume)
  {
    var x := NewSet(exerciseId, freshId);
    var sets := st.sets + [x];
    assert sets[..|st.sets|] == st.sets;
    assert SetVolume(x) == 0.0;
  }

  /** The added set goes at the end of its exercise's group and every other group is
      unchanged. */
  lemma AddSetGroups(st: FormState, exerciseId: string, freshId: string, k: string)
    ensures Get(Groups(AddSet(st, exerciseId, freshId).sets), exerciseId)
      == Some(SetsOf(st.sets, exerciseId) + [NewSet(exerciseId, freshId)])
    ensures k != exerciseId ==> Get(Groups(AddSet(st, exerciseId, freshId).sets), k) == Get(Groups(st.sets), k)
  {
    GroupsSnoc(st.sets, NewSet(exerciseId, freshId), exerciseId);
    GroupsSnoc(st.sets, NewSet(exerciseId, freshId), k);
  }

  /** `Partial<WorkoutSet>`: each field is either absent (`None`) or supplied. A
      supplied optional field may itself be `undefined`. */
  datatype SetPatch = SetPatch(
    id: Option<string>,
    exerciseId: Option<string>,
    weight: Option<real>,
    reps: Option<real>,
    restTime: Option<Option<real>>,
    notes: Option<Option<string>>)

  /** `{}`. */
  function NoChanges(): SetPatch
  {
    SetPatch(None, None, None, None, None, None)
  }

  /** `{ ...set, ...updates }`. */
  function ApplyPatch(p: SetPatch): WorkoutSet -> WorkoutSet
  {
    (s: WorkoutSet) => WorkoutSet(
      p.id.GetOr(s.id),
      p.exerciseId.GetOr(s.exerciseId),
      p.weight.GetOr(s.weight),
      p.reps.GetOr(s.reps),
      p.restTime.GetOr(s.restTime),
      p.notes.GetOr(s.notes))
  }

  /** `sets.map((set) => set.id === setId ? { ...set, ...updates } : set)`. */
  function UpdateSet(st: FormState, id: string, p: SetPatch): FormState
  {
    st.(sets := UpdateKey(st.sets, SetKey, id, ApplyPatch(p)))
  }

  /** Patching keeps the number and order of the sets and every field of the form; only
      the sets with the id change, and in them exactly the supplied fields take the
      supplied values while the others keep theirs. */
  lemma UpdateSetSpec(st: FormState, id: string, p: SetPatch)
    ensures var r := UpdateSet(st, id, p);
      |r.sets| == |st.sets| && r.name == st.name && r.notes == st.notes && r.duration == st.duration
    ensures forall i :: 0 <= i < |st.sets| && st.sets[i].id != id ==> UpdateSet(st, id, p).sets[i] == st.sets[i]
    ensures forall i :: 0 <= i < |st.sets| && st.sets[i].id == id ==>
      var s, t := st.sets[i], UpdateSet(st, id, p).sets[i];
      (if p.id.Some? then t.id == p.id.value else t.id == s.id)
      && (if p.exerciseId.Some? then t.exerciseId == p.exerciseId.value else t.exerciseId == s.exerciseId)
      && (if p.weight.Some? then t.weight == p.weight.value else t.weight == s.weight)
      && (if p.reps.Some? then t.reps == p.reps.value else t.reps == s.reps)
      && (if p.restTime.Some? then t.restTime == p.restTime.value else t.restTime == s.restTime)
      && (if p.notes.Some? then t.notes == p.notes.value else t.notes == s.notes)
  {
  }

  /** An empty patch changes nothing. */
  lemma UpdateNothing(st: FormState, id: string)
    ensures UpdateSet(st, id, NoChanges()) == st
  {
    var r := UpdateSet(st, id, NoChanges());
    assert r.sets == st.sets;
  }

  /** Applying the same patch twice is applying it once, unless the patch moves the
      set to another id. */
  lemma UpdateSetIdempotent(st: FormState, id: string, p: SetPatch)
    requires p.id.None? || p.id == Some(id)
    ensures UpdateSet(UpdateSet(st, id, p), id, p) == UpdateSet(st, id, p)
  {
    var once := UpdateSet(st, id, p);
    var twice := UpdateSet(once, id, p);
    assert twice.sets == once.sets;
  }

  /** A patch without an id leaves every set where it was under its own id, so later
      patches and removals still find it. */
  lemma UpdateKeepsIds(st: FormState, id: string, p: SetPatch)
    requires p.id.None?
    ensures Map(UpdateSet(st, id, p).sets, SetKey) == Map(st.sets, SetKey)
  {
  }

  /** `setSets(sets.filter((set) => set.id !== setId))`. */
  function RemoveSet(st: FormState, id: string): FormState
  {
    st.(sets := RemoveKey(st.sets, SetKey, id))
  }

  /** Removing drops the sets with the id, keeps every other set in its order and every
      field of the form, and changes nothing when no set has the id. */
  lemma RemoveSetSpec(st: FormState, id: string)
    ensures var r := RemoveSet(st, id);
      r.name == st.name && r.notes == st.notes && r.duration == st.duration
    ensures forall s :: s in RemoveSet(st, id).sets <==> s in st.sets && s.id != id
    ensures Subsequence(RemoveSet(st, id).sets, st.sets)
    ensures (forall i :: 0 <= i < |st.sets| ==> st.sets[i].id != id) ==> RemoveSet(st, id) == st
  {
    RemoveKeySpec(st.sets, SetKey, id);
  }

  /** Removing a set just added under an id no other set has restores the form. */
  lemma RemoveUndoesAdd(st: FormState, exerciseId: string, freshId: string)
    requires forall i :: 0 <= i < |st.sets| ==> st.sets[i].id != freshId
    ensures RemoveSet(AddSet(st, exerciseId, freshId), freshId) == st
  {
    var p := KeyIsNot(SetKey, freshId);
    assert !p(NewSet(exerciseId, freshId));
    FilterConcat(st.sets, [NewSet(exerciseId, freshId)], p);
    FilterSingleton(NewSet(exerciseId, freshId), p);
    forall i | 0 <= i < |st.sets|
      ensures p(st.sets[i])
    {
      assert SetKey(st.sets[i]) != freshId;
    }
    FilterKeepsAll(st.sets, p);
  }

  // ---------------------------------------------------------------------------
  // Saving
  // ---------------------------------------------------------------------------

  /** `handleSave`: nothing is saved while the name is blank (the save button is then
      disabled too); otherwise the workout keeps the edited workout's id, unless it is
      empty, and its date, and takes a fresh id and today's date when new. */
  function HandleSave(st: FormState, editing: Option<Workout>, freshId: string, today: Date): Option<Workout>
  {
    if Trim(st.name) == [] then None
    else
      Some(Workout(
        if editing.Some? && editing.value.id != "" then editing.value.id else freshId,
        st.name,
        if editing.Some? then editing.value.date else today,
        st.duration,
        st.sets,
        Some(st.notes)))
  }

  /** The form is refused exactly for a name made only of whitespace; a saved workout
      carries the form's fields, the edited workout's id and date when editing, and the
      fresh id and today's date otherwise. */
  lemma HandleSaveSpec(st: FormState, editing: Option<Workout>, freshId: string, today: Date)
    ensures HandleSave(st, editing, freshId, today).None? <==> forall i :: 0 <= i < |st.name| ==> IsWhitespace(st.name[i])
    ensures HandleSave(st, editing, freshId, today).Some? ==>
      var w := HandleSave(st, editing, freshId, today).value;
      w.name == st.name && w.duration == st.duration && w.sets == st.sets && w.notes == Some(st.notes)
      && (editing.Some? ==> w.date == editing.value.date)
      && (editing.Some? && editing.value.id != "" ==> w.id == editing.value.id)
      && (editing.None? ==> w.id == freshId && w.date == today)
  {
    TrimSpec(st.name);
  }

  /** Opening a workout for editing and saving it without changes gives back the same
      workout, when it has a name, an id and notes. */
  lemma EditRoundTrip(w: Workout, freshId: string, today: Date)
    requires Trim(w.name) != [] && w.id != "" && w.notes.Some?
    ensures HandleSave(InitialState(Some(w)), Some(w), freshId, today) == Some(w)
  {
  }

  // ---------------------------------------------------------------------------
  // The exercise picker
  // ---------------------------------------------------------------------------

  function CategoryOf(e: Exercise): string { e.category }

  /** `["all", ...Array.from(new Set(exercises.map((e) => e.category)))]`. */
  function Categories(catalog: seq<Exercise>): seq<string>
  {
    ["all"] + Distinct(Map(catalog, CategoryOf))
  }

  function InCategory(c: string): Exercise -> bool
  {
    (e: Exercise) => e.category == c
  }

  /** The exercises listed for the selected category button. */
  function FilterExercises(catalog: seq<Exercise>, selected: string): seq<Exercise>
  {
    if selected == "all" then catalog else Filter(catalog, InCategory(selected))
  }

  /** The buttons are "all" followed by each category of the catalog once. */
  lemma CategoriesSpec(catalog: seq<Exercise>)
    ensures Categories(catalog)[0] == "all"
    ensures forall c :: c in Categories(catalog)[1..] <==> exists i :: 0 <= i < |catalog| && catalog[i].category == c
    ensures forall i, j :: 1 <= i < j < |Categories(catalog)| ==> Categories(catalog)[i] != Categories(catalog)[j]
    ensures |Categories(catalog)| <= |catalog| + 1
  {
    var cs := Map(catalog, CategoryOf);
    assert Categories(catalog)[1..] == Distinct(cs);
    forall c | c in Distinct(cs)
      ensures exists i :: 0 <= i < |catalog| && catalog[i].category == c
    {
      var i :| 0 <= i < |cs| && cs[i] == c;
      assert catalog[i].category == c;
    }
    forall c | exists i :: 0 <= i < |catalog| && catalog[i].category == c
      ensures c in Distinct(cs)
    {
      var i :| 0 <= i < |catalog| && catalog[i].category == c;
      assert cs[i] == c;
    }
  }

  /** "all" lists the whole catalog in order; any other category lists exactly its
      exercises, in catalog order, and a category offered by a button is never empty. */
  lemma FilterExercisesSpec(catalog: seq<Exercise>, selected: string)
    ensures selected == "all" ==> FilterExercises(catalog, selected) == catalog
    ensures selected != "all" ==>
      (forall e :: e in FilterExercises(catalog, selected) <==> e in catalog && e.category == selected)
    ensures Subsequence(FilterExercises(catalog, selected), catalog)
    ensures selected in Categories(catalog) && catalog != [] ==> FilterExercises(catalog, selected) != []
  {
    FilterMembers(catalog, InCategory(selected));
    FilterIsSubsequence(catalog, InCategory(selected));
    if selected == "all" {
      SubsequenceRefl(catalog);
    } else if selected in Categories(catalog) {
      CategoriesSpec(catalog);
      assert selected in Categories(catalog)[1..];
      var i :| 0 <= i < |catalog| && catalog[i].category == selected;
      assert catalog[i] in FilterExercises(catalog, selected);
    }
  }

  /** A list is a sub-list of itself. */
  lemma {:induction false} SubsequenceRefl(xs: seq<Exercise>)
    ensures Subsequence(xs, xs)
  {
    if xs != [] {
      SubsequenceRefl(xs[1..]);
    }
  }
}
