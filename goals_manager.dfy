/** The goals screen: the progress, overdue check, days left, completion button
    and deadline label of a goal card; the "mark complete" and "delete" list
    transformations and how each handler writes the list back to storage; and
    the validation of the goal form. */
module GoalsManager {
  import opened Wrappers
  import opened Strings
  import opened Calendar
  import opened Numbers
  import opened Domain
  import opened KeyedLists
  import opened Repository

  // ---------------------------------------------------------------------------
  // The goal card
  // ---------------------------------------------------------------------------

  /** `targetValue > 0 ? Math.min((currentValue / targetValue) * 100, 100) : 0`. */
  function Progress(g: Goal): real
  {
    if g.targetValue > 0.0 then Min(g.currentValue / g.targetValue * 100.0, 100.0) else 0.0
  }

  /** Progress never exceeds 100 and is 0 without a positive target; it reaches 100
      exactly when a positive target is met, and it is not negative for a non-negative
      current value. */
  lemma ProgressSpec(g: Goal)
    ensures Progress(g) <= 100.0
    ensures g.targetValue <= 0.0 ==> Progress(g) == 0.0
    ensures Progress(g) == 100.0 <==> g.targetValue > 0.0 && g.currentValue >= g.targetValue
    ensures g.currentValue >= 0.0 ==> Progress(g) >= 0.0
  {
    if g.targetValue > 0.0 {
      var q := g.currentValue / g.targetValue;
      assert q * g.targetValue == g.currentValue;
      assert q >= 1.0 <==> g.currentValue >= g.targetValue;
      assert g.currentValue >= 0.0 ==> q >= 0.0;
    }
  }

  /** The complete button is shown for an open goal whose progress is at least 100. */
  predicate CanComplete(g: Goal)
  {
    !g.isCompleted && Progress(g) >= 100.0
  }

  /** The button is offered exactly for an open goal with a positive target it has met. */
  lemma CanCompleteSpec(g: Goal)
    ensures CanComplete(g) <==> !g.isCompleted && g.targetValue > 0.0 && g.currentValue >= g.targetValue
  {
    ProgressSpec(g);
  }

  /** The text shown under an open goal. */
  datatype DeadlineLabel = Late | Today | Tomorrow | DaysRemaining(days: int)

  /** The label of the card as written: none for a completed goal, otherwise late when
      overdue, then today, tomorrow or the number of days left by `daysLeft`. */
  function Label(g: Goal, now: Clock): Option<DeadlineLabel>
  {
    if g.isCompleted then None
    else if IsOverdue(now)(g) then Some(Late)
    else if DaysLeft(g, now) == 0 then Some(Today)
    else if DaysLeft(g, now) == 1 then Some(Tomorrow)
    else Some(DaysRemaining(DaysLeft(g, now)))
  }

  /** As written, an open goal is labelled "today" only at the very first millisecond of
      its due day: from then on its deadline midnight has passed and it is labelled late. */
  lemma LabelTodayOnlyAtMidnight(g: Goal, now: Clock)
    requires ValidClock(now) && !g.isCompleted
    ensures Label(g, now) == Some(Today) <==> DayNumber(g.deadline) == DayNumber(now.today) && now.msOfDay == 0
    ensures DayNumber(g.deadline) == DayNumber(now.today) && now.msOfDay > 0 ==> Label(g, now) == Some(Late)
  {
    DeadlineOnDueDay(g, now);
  }

  /** The label by calendar day: late only once the due day is over, "today" for the
      whole due day. */
  function DayLabel(g: Goal, now: Clock): Option<DeadlineLabel>
  {
    var d := DayNumber(g.deadline) - DayNumber(now.today);
    if g.isCompleted then None
    else if d < 0 then Some(Late)
    else if d == 0 then Some(Today)
    else if d == 1 then Some(Tomorrow)
    else Some(DaysRemaining(d))
  }

  /** For a valid clock the day label shows "today" for the whole due day, late exactly
      after it, and otherwise agrees with the card's label, which only differs on the due
      day after midnight. */
  lemma DayLabelSpec(g: Goal, now: Clock)
    requires ValidClock(now) && !g.isCompleted
    ensures DayLabel(g, now) == Some(Today) <==> DayNumber(g.deadline) == DayNumber(now.today)
    ensures DayLabel(g, now) == Some(Late) <==> DayNumber(g.deadline) < DayNumber(now.today)
    ensures DayNumber(g.deadline) != DayNumber(now.today) || now.msOfDay == 0 ==> DayLabel(g, now) == Label(g, now)
  {
    DeadlineOnDueDay(g, now);
  }

  // ---------------------------------------------------------------------------
  // Completing and deleting
  // ---------------------------------------------------------------------------

  /** `{ ...goal, isCompleted: true, currentValue: goal.targetValue }`. */
  function Complete(g: Goal): Goal
  {
    g.(isCompleted := true, currentValue := g.targetValue)
  }

  /** `goals.map((goal) => goal.id === goalId ? Complete(goal) : goal)`. */
  function CompleteGoal(goals: seq<Goal>, id: string): seq<Goal>
  {
    UpdateKey(goals, GoalKey, id, Complete)
  }

  /** Completing keeps the list's length, order and ids; the goals with the id become
      completed with their current value at the target, all their other fields unchanged,
      and are no longer offered for completion; every other goal is unchanged. */
  lemma CompleteGoalSpec(goals: seq<Goal>, id: string)
    ensures |CompleteGoal(goals, id)| == |goals|
    ensures forall i :: 0 <= i < |goals| ==> CompleteGoal(goals, id)[i].id == goals[i].id
    ensures forall i :: 0 <= i < |goals| && goals[i].id != id ==> CompleteGoal(goals, id)[i] == goals[i]
    ensures forall i :: 0 <= i < |goals| && goals[i].id == id ==>
      var c := CompleteGoal(goals, id)[i];
      c.isCompleted && c.currentValue == goals[i].targetValue && !CanComplete(c)
      && c == goals[i].(isCompleted := true, currentValue := goals[i].targetValue)
  {
  }

  /** The persistence loop `updatedGoals.forEach((goal) => saveGoal(goal))`. */
  method SaveAll(store: WorkoutDataManager, gs: seq<Goal>)
    modifies store
    ensures store.goals == UpsertAll(old(store.goals), GoalKey, gs)
    ensures store.workouts == old(store.workouts)
  {
    for i := 0 to |gs|
      invariant store.goals == UpsertAll(old(store.goals), GoalKey, gs[..i])
      invariant store.workouts == old(store.workouts)
    {
      store.SaveGoal(gs[i]);
      assert gs[..i + 1][..i] == gs[..i];
    }
    assert gs[..|gs|] == gs;
  }

  /** `handleCompleteGoal`: complete the goal in the list shown and save every goal. */
  method HandleCompleteGoal(store: WorkoutDataManager, goals: seq<Goal>, id: string) returns (updated: seq<Goal>)
    modifies store
    ensures updated == CompleteGoal(goals, id)
    ensures store.goals == UpsertAll(old(store.goals), GoalKey, updated)
    ensures store.workouts == old(store.workouts)
  {
    updated := CompleteGoal(goals, id);
    SaveAll(store, updated);
  }

  /** When the list shown is the stored list (with unique ids), saving every goal after
      completing one stores exactly the completed list. */
  lemma CompletionIsStored(stored: seq<Goal>, id: string)
    requires UniqueKeys(stored, GoalKey)
    ensures UpsertAll(stored, GoalKey, CompleteGoal(stored, id)) == CompleteGoal(stored, id)
  {
    var ys := CompleteGoal(stored, id);
    CompleteGoalSpec(stored, id);
    UpsertAllSameKeys(stored, GoalKey, ys, |stored|);
    assert ys[..|stored|] == ys;
  }

  /** `handleDeleteGoal` as written: once the user confirms, drop the goal from the list
      shown, then save each remaining goal; nothing removes the deleted goal from storage.
      Without confirmation nothing changes. */
  method HandleDeleteGoalAsWritten(store: WorkoutDataManager, goals: seq<Goal>, id: string, confirmed: bool)
    returns (updated: seq<Goal>)
    modifies store
    ensures confirmed ==> updated == RemoveKey(goals, GoalKey, id) && store.goals == UpsertAll(old(store.goals), GoalKey, updated)
    ensures !confirmed ==> updated == goals && store.goals == old(store.goals)
    ensures store.workouts == old(store.workouts)
  {
    if confirmed {
      updated := RemoveKey(goals, GoalKey, id);
      SaveAll(store, updated);
    } else {
      updated := goals;
    }
  }

  /** When the list shown is the stored list (with unique ids), the handler as written
      leaves storage exactly as it was: a deleted goal is still stored and comes back the
      next time the goals are loaded. */
  lemma DeletedGoalStaysStored(stored: seq<Goal>, id: string, i: nat)
    requires UniqueKeys(stored, GoalKey) && i < |stored| && stored[i].id == id
    ensures UpsertAll(stored, GoalKey, RemoveKey(stored, GoalKey, id)) == stored
    ensures stored[i] !in RemoveKey(stored, GoalKey, id)
  {
    var survivors := RemoveKey(stored, GoalKey, id);
    RemoveKeySpec(stored, GoalKey, id);
    forall j | 0 <= j < |survivors|
      ensures survivors[j] in stored
    {
      assert survivors[j] in survivors;
    }
    UpsertAllPresent(stored, GoalKey, survivors);
  }

  /** `handleDeleteGoal` with the deletion written through: once the user confirms,
      storage drops the goal too, as `deleteWorkout` does for workouts. Without
      confirmation nothing changes. */
  method HandleDeleteGoal(store: WorkoutDataManager, goals: seq<Goal>, id: string, confirmed: bool)
    returns (updated: seq<Goal>)
    modifies store
    ensures confirmed ==> updated == RemoveKey(goals, GoalKey, id) && store.goals == RemoveKey(old(store.goals), GoalKey, id)
    ensures !confirmed ==> updated == goals && store.goals == old(store.goals)
    ensures forall g :: g in store.goals <==> g in old(store.goals) && (confirmed ==> g.id != id)
    ensures store.workouts == old(store.workouts)
  {
    if confirmed {
      updated := RemoveKey(goals, GoalKey, id);
      RemoveKeySpec(store.goals, GoalKey, id);
      store.goals := RemoveKey(store.goals, GoalKey, id);
    } else {
      updated := goals;
    }
  }

  // ---------------------------------------------------------------------------
  // The goal form
  // ---------------------------------------------------------------------------

  /** The form fields; an empty deadline field is `None`. */
  datatype GoalDraft = GoalDraft(
    title: string,
    description: string,
    category: GoalCategory,
    targetValue: real,
    currentValue: real,
    unit: string,
    deadline: Option<Date>)

  /** `handleSubmit`: nothing is saved for a blank title, a target of 0 or no deadline;
      otherwise the goal keeps the edited goal's id (a fresh one when there is none) and
      its completion flag (false for a new goal). */
  function SubmitGoal(draft: GoalDraft, editing: Option<Goal>, freshId: string): Option<Goal>
  {
    if Trim(draft.title) == [] || draft.targetValue == 0.0 || draft.deadline.None? then None
    else
      Some(Goal(
        if editing.Some? && editing.value.id != "" then editing.value.id else freshId,
        draft.title,
        draft.description,
        draft.targetValue,
        draft.currentValue,
        draft.unit,
        draft.deadline.value,
        draft.category,
        editing.Some? && editing.value.isCompleted))
  }

  /** The form is rejected exactly for a title made only of whitespace, a zero target or a
      missing deadline; an accepted goal carries the form's fields, the edited goal's id
      and completion flag when editing, and a fresh id and `false` otherwise. */
  lemma SubmitGoalSpec(draft: GoalDraft, editing: Option<Goal>, freshId: string)
    ensures SubmitGoal(draft, editing, freshId).None?
        <==> (forall i :: 0 <= i < |draft.title| ==> IsWhitespace(draft.title[i]))
             || draft.targetValue == 0.0 || draft.deadline.None?
    ensures SubmitGoal(draft, editing, freshId).Some? ==>
      var g := SubmitGoal(draft, editing, freshId).value;
      g.title == draft.title && g.description == draft.description && g.unit == draft.unit
      && g.targetValue == draft.targetValue && g.currentValue == draft.currentValue
      && Some(g.deadline) == draft.deadline && g.category == draft.category
      && (editing.Some? && editing.value.id != "" ==> g.id == editing.value.id && g.isCompleted == editing.value.isCompleted)
      && (editing.None? ==> g.id == freshId && !g.isCompleted)
  {
    TrimSpec(draft.title);
  }
}
