/** The monthly dashboard: this calendar month against the previous one (with
    January rolling back into December), the guarded percentage change of each
    figure, the progress towards the fixed monthly targets, and the three-way
    classification of a change for display. */
module Dashboard {
  import opened Seqs
  import opened Calendar
  import opened Numbers
  import opened Domain

  /** The calendar month before `month` of `year`, as `(year, month)`. */
  function PreviousMonth(year: int, month: Month): (r: (int, Month))
    ensures 12 * r.0 + r.1 == 12 * year + month - 1
    ensures month == 0 ==> r == (year - 1, 11)
    ensures month > 0 ==> r == (year, month - 1)
  {
    if month == 0 then (year - 1, 11) else (year, month - 1)
  }

  /** The previous month is one month earlier, never the same month: the two month
      filters select disjoint sets of workouts. */
  lemma MonthFiltersDisjoint(year: int, month: Month, w: Workout)
    ensures var (py, pm) := PreviousMonth(year, month);
      !(InCalendarMonth(year, month)(w) && InCalendarMonth(py, pm)(w))
  {
  }

  /** The four figures shown for a month. */
  datatype MonthFigures = MonthFigures(workouts: nat, weight: real, sets: nat, duration: real)

  /** The workout count, volume, set count and total duration of a list of workouts. */
  function Figures(ws: seq<Workout>): MonthFigures
  {
    MonthFigures(|ws|, TotalVolume(ws), TotalSets(ws), TotalDuration(ws))
  }

  /** `prev > 0 ? ((cur - prev) / prev) * 100 : 0`. */
  function GuardedChange(cur: real, prev: real): real
  {
    if prev > 0.0 then (cur - prev) / prev * 100.0 else 0.0
  }

  /** Against a positive baseline the change is the percentage difference, positive exactly
      when the figure grew; against a baseline of 0 or less it is 0; a figure compared with
      itself shows no change. */
  lemma GuardedChangeSpec(cur: real, prev: real)
    ensures prev <= 0.0 ==> GuardedChange(cur, prev) == 0.0
    ensures prev > 0.0 ==> GuardedChange(cur, prev) * prev == (cur - prev) * 100.0
    ensures prev > 0.0 ==> (GuardedChange(cur, prev) > 0.0 <==> cur > prev)
    ensures prev > 0.0 ==> (GuardedChange(cur, prev) < 0.0 <==> cur < prev)
    ensures GuardedChange(prev, prev) == 0.0
  {
    if prev > 0.0 {
      var q := (cur - prev) / prev;
      assert q * prev == cur - prev;
      assert q > 0.0 <==> cur > prev;
      assert q < 0.0 <==> cur < prev;
    }
  }

  /** The fixed monthly targets: 12 workouts, 5000 kg of volume, 600 minutes. */
  const WORKOUTS_TARGET: real := 12.0
  const WEIGHT_TARGET: real := 5000.0
  const DURATION_TARGET: real := 600.0

  /** `Math.min((value / target) * 100, 100)` for one of the positive targets. */
  function Progress(value: real, target: real): real
    requires target > 0.0
  {
    Min(value / target * 100.0, 100.0)
  }

  /** Progress never exceeds 100, is 100 exactly when the target is reached, is not
      negative for a non-negative figure, and is the percentage of the target below it. */
  lemma ProgressSpec(value: real, target: real)
    requires target > 0.0
    ensures Progress(value, target) <= 100.0
    ensures Progress(value, target) == 100.0 <==> value >= target
    ensures value >= 0.0 ==> Progress(value, target) >= 0.0
    ensures value < target ==> Progress(value, target) * target == value * 100.0
  {
    var q := value / target;
    assert q * target == value;
    assert q >= 1.0 <==> value >= target;
    assert value >= 0.0 ==> q >= 0.0;
  }

  datatype Changes = Changes(workouts: real, weight: real, sets: real, duration: real)

  datatype Progresses = Progresses(workouts: real, weight: real, duration: real)

  /** The figures of the dashboard. */
  datatype Dashboard = Dashboard(thisMonth: MonthFigures, changes: Changes, progress: Progresses)

  /** The workouts of this calendar month and of the previous one. */
  function ThisMonthWorkouts(ws: seq<Workout>, today: Date): seq<Workout>
  {
    Filter(ws, InCalendarMonth(today.year, today.month))
  }

  function LastMonthWorkouts(ws: seq<Workout>, today: Date): seq<Workout>
  {
    var (py, pm) := PreviousMonth(today.year, today.month);
    Filter(ws, InCalendarMonth(py, pm))
  }

  /** The `useMemo` body of the dashboard. */
  function ComputeDashboard(ws: seq<Workout>, today: Date): Dashboard
  {
    var cur := Figures(ThisMonthWorkouts(ws, today));
    var last := Figures(LastMonthWorkouts(ws, today));
    Dashboard(
      cur,
      Changes(
        GuardedChange(cur.workouts as real, last.workouts as real),
        GuardedChange(cur.weight, last.weight),
        GuardedChange(cur.sets as real, last.sets as real),
        GuardedChange(cur.duration, last.duration)),
      Progresses(
        Progress(cur.workouts as real, WORKOUTS_TARGET),
        Progress(cur.weight, WEIGHT_TARGET),
        Progress(cur.duration, DURATION_TARGET)))
  }

  /** The current figures are those of the workouts dated in today's calendar month;
      every progress value is at most 100, and the workout progress is 100 from the
      twelfth workout of the month on. */
  lemma ComputeDashboardSpec(ws: seq<Workout>, today: Date)
    ensures var d := ComputeDashboard(ws, today);
      var cur := ThisMonthWorkouts(ws, today);
      d.thisMonth.workouts == |cur|
      && d.thisMonth.weight == Sum(AllSets(cur), SetVolume)
      && d.thisMonth.sets == |AllSets(cur)|
      && d.thisMonth.duration == TotalDuration(cur)
      && d.progress.workouts <= 100.0 && d.progress.weight <= 100.0 && d.progress.duration <= 100.0
      && d.progress.workouts >= 0.0
      && (d.progress.workouts == 100.0 <==> |cur| >= 12)
  {
    var cur := ThisMonthWorkouts(ws, today);
    var f := Figures(cur);
    TotalsOverAllSets(cur);
    ProgressSpec(f.workouts as real, WORKOUTS_TARGET);
    ProgressSpec(f.weight, WEIGHT_TARGET);
    ProgressSpec(f.duration, DURATION_TARGET);
  }

  /** For valid workout dates the previous-month filter selects the calendar month just
      before today's: December of the previous year in January. */
  lemma LastMonthSpec(ws: seq<Workout>, today: Date, w: Workout)
    requires ValidDate(w.date)
    ensures w in LastMonthWorkouts(ws, today)
        <==> w in ws && 12 * w.date.year + w.date.month == 12 * today.year + today.month - 1
  {
    var (py, pm) := PreviousMonth(today.year, today.month);
    FilterMembers(ws, InCalendarMonth(py, pm));
  }

  /** How a change is displayed. */
  datatype Trend = Neutral | Up | Down

  /** `formatChange`: under 0.1 in magnitude is shown as "0%", otherwise as a rise or a
      fall. */
  function FormatChange(change: real): Trend
  {
    if (if change < 0.0 then -change else change) < 0.1 then Neutral
    else if change > 0.0 then Up
    else Down
  }

  /** The three displays cover the number line without overlap: neutral strictly inside
      (-0.1, 0.1), up from 0.1, down from -0.1. */
  lemma FormatChangeSpec(change: real)
    ensures FormatChange(change) == Neutral <==> -0.1 < change < 0.1
    ensures FormatChange(change) == Up <==> change >= 0.1
    ensures FormatChange(change) == Down <==> change <= -0.1
  {
  }
}
