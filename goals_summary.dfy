/** The goals summary card: how many goals are completed, in progress and
    overdue, the completion rate, the open goals due within a week and the open
    goals at 80% or more of their target. */
module GoalsSummary {
  import opened Seqs
  import opened Calendar
  import opened Domain

  function IsCompleted(): Goal -> bool
  {
    (g: Goal) => g.isCompleted
  }

  /** `(g) => !g.isCompleted && new Date(g.deadline) >= new Date()`. */
  function InProgress(now: Clock): Goal -> bool
  {
    (g: Goal) => !g.isCompleted && !DeadlinePassed(g, now)
  }

  /** An open goal whose rounded-up number of days left is between 0 and 7. */
  function Upcoming(now: Clock): Goal -> bool
  {
    (g: Goal) => !g.isCompleted && 0 <= DaysLeft(g, now) <= 7
  }

  /** `g.targetValue > 0 ? (g.currentValue / g.targetValue) * 100 : 0`, not clamped. */
  function SummaryProgress(g: Goal): real
  {
    if g.targetValue > 0.0 then g.currentValue / g.targetValue * 100.0 else 0.0
  }

  function NearCompletion(): Goal -> bool
  {
    (g: Goal) => !g.isCompleted && SummaryProgress(g) >= 80.0
  }

  datatype Summary = Summary(
    total: nat,
    completed: nat,
    inProgress: nat,
    overdue: nat,
    completionRate: real,
    upcoming: seq<Goal>,
    nearCompletion: seq<Goal>)

  /** The `useMemo` body of the summary card. */
  function Summarize(goals: seq<Goal>, now: Clock): Summary
  {
    var total := |goals|;
    var completed := |Filter(goals, IsCompleted())|;
    Summary(
      total,
      completed,
      |Filter(goals, InProgress(now))|,
      |Filter(goals, IsOverdue(now))|,
      CompletionRate(completed, total),
      Filter(goals, Upcoming(now)),
      Filter(goals, NearCompletion()))
  }

  /** Every goal is exactly one of completed, in progress and overdue, so the three
      counts add up to the total. */
  lemma CountsPartition(goals: seq<Goal>, now: Clock)
    ensures var s := Summarize(goals, now);
      s.completed + s.inProgress + s.overdue == s.total
  {
    FilterPartition3(goals, IsCompleted(), InProgress(now), IsOverdue(now));
  }

  /** `total > 0 ? (completed / total) * 100 : 0`: 0 without goals, and otherwise the
      percentage of completed goals, which lies between 0 and 100. */
  function CompletionRate(completed: nat, total: nat): (r: real)
    ensures total == 0 ==> r == 0.0
    ensures total > 0 ==> r * total as real == completed as real * 100.0
    ensures completed <= total ==> 0.0 <= r <= 100.0
  {
    if total > 0 then
      var q := completed as real / total as real;
      assert q * total as real == completed as real;
      assert completed <= total ==> q <= 1.0;
      q * 100.0
    else 0.0
  }

  /** For a valid clock, a goal is upcoming exactly when it is open and due between today
      and seven days from today: the rounded-up day difference is the difference of the
      day numbers. */
  lemma UpcomingSpec(goals: seq<Goal>, now: Clock, g: Goal)
    requires ValidClock(now)
    ensures g in Summarize(goals, now).upcoming
        <==> g in goals && !g.isCompleted && 0 <= DayNumber(g.deadline) - DayNumber(now.today) <= 7
  {
    FilterMembers(goals, Upcoming(now));
    DeadlineOnDueDay(g, now);
  }

  /** A goal is near completion exactly when it is open, has a positive target and its
      current value is at least 80% of it; a goal without a positive target never is. */
  lemma NearCompletionSpec(goals: seq<Goal>, now: Clock, g: Goal)
    ensures g in Summarize(goals, now).nearCompletion
        <==> g in goals && !g.isCompleted && g.targetValue > 0.0 && g.currentValue * 100.0 >= 80.0 * g.targetValue
  {
    FilterMembers(goals, NearCompletion());
    if g.targetValue > 0.0 {
      var q := g.currentValue / g.targetValue;
      assert q * g.targetValue == g.currentValue;
      assert q * 100.0 >= 80.0 <==> g.currentValue * 100.0 >= 80.0 * g.targetValue;
    }
  }

  /** Both goal lists of the summary are sub-lists of the goals, in their order. */
  lemma BucketsAreSublists(goals: seq<Goal>, now: Clock)
    ensures Subsequence(Summarize(goals, now).upcoming, goals)
    ensures Subsequence(Summarize(goals, now).nearCompletion, goals)
  {
    FilterIsSubsequence(goals, Upcoming(now));
    FilterIsSubsequence(goals, NearCompletion());
  }
}
