/** The reports and insights screen: the week, month and previous-month
    windows around `now`, the per-period statistics (`calculateStats`), the
    threshold rules that produce insights (`generateInsights`), the ordered
    recommendation list (`generateRecommendations`), the change percentage of
    the monthly report (`calculateChange`) and the analysis that ties them
    together, including its early return when nothing was recorded. */
module Reports {
  import opened Wrappers
  import opened Seqs
  import opened Calendar
  import opened Numbers
  import opened Domain
  import opened Dictionaries

  // ---------------------------------------------------------------------------
  // Period windows
  // ---------------------------------------------------------------------------

  /** `new Date(now.getFullYear(), now.getMonth(), now.getDate() - now.getDay())`, in ms. */
  function WeekStartMs(today: Date): int
  {
    MakeDay(today.year, today.month, today.day - Weekday(DayNumber(today))) * DAY_MS
  }

  /** Workouts dated in `[weekStart, weekStart + 7 days)`. */
  function InWeek(today: Date): Workout -> bool
  {
    (w: Workout) => WeekStartMs(today) <= MidnightMs(w.date) < WeekStartMs(today) + 7 * DAY_MS
  }

  /** Workouts dated from `new Date(y, m + shift, 1)` to `new Date(y, m + shift + 1, 0)`
      inclusive: the current month for `shift == 0`, the previous one for `shift == -1`. */
  function InMonthWindow(today: Date, shift: int): Workout -> bool
  {
    (w: Workout) => InMonthSpan(today.year, today.month + shift, w.date)
  }

  /** `new Date(y, m, 1) <= date && date <= new Date(y, m + 1, 0)`. */
  predicate InMonthSpan(y: int, m: int, d: Date)
  {
    MakeDay(y, m, 1) * DAY_MS <= MidnightMs(d) <= MakeDay(y, m + 1, 0) * DAY_MS
  }

  /** The week window holds exactly the workouts dated in the same Sunday-to-Saturday
      week as `today`. */
  lemma WeekWindowSpec(today: Date, w: Workout)
    ensures InWeek(today)(w) <==> (DayNumber(w.date) + 4) / 7 == (DayNumber(today) + 4) / 7
  {
    var t := DayNumber(today);
    MakeDayShift(today.year, today.month, today.day, -Weekday(t));
    WeekWindow(t, DayNumber(w.date));
  }

  /** Comparing two midnights is comparing their day numbers. */
  lemma MsOrder(a: int, b: int)
    ensures a * DAY_MS <= b * DAY_MS <==> a <= b
  {
    if a <= b {
      assert (b - a) * DAY_MS >= 0;
    } else {
      assert (a - b) * DAY_MS > 0;
    }
  }

  /** Calendar month `k` (absolute index `12 * year + month`) of a workout. */
  function MonthIndex(d: Date): int
  {
    12 * d.year + d.month
  }

  /** For a valid date, the current-month window selects the month of `today` and the
      previous-month window the month before it, December of the previous year when
      `today` is in January. */
  lemma MonthWindowSpec(today: Date, shift: int, w: Workout)
    requires ValidDate(w.date)
    ensures InMonthWindow(today, shift)(w) <==> MonthIndex(w.date) == MonthIndex(today) + shift
  {
    var m := today.month + shift;
    assert InMonthWindow(today, shift)(w) == InMonthSpan(today.year, m, w.date);
    MonthSpanSpec(today.year, m, w.date);
  }

  /** A valid date lies in the span from the first to the last day of month `m` of year
      `y` exactly when it belongs to that month, after rollover. */
  lemma MonthSpanSpec(y: int, m: int, d: Date)
    requires ValidDate(d)
    ensures InMonthSpan(y, m, d) <==> 12 * d.year + d.month == 12 * y + m
  {
    MsOrder(MakeDay(y, m, 1), DayNumber(d));
    MsOrder(DayNumber(d), MakeDay(y, m + 1, 0));
    MonthWindowDays(d, y, m);
  }

  /** The previous-month window as year and month: January rolls back into December. */
  lemma PreviousMonthWindow(today: Date, w: Workout)
    requires ValidDate(w.date)
    ensures InMonthWindow(today, -1)(w) <==>
      if today.month == 0 then w.date.year == today.year - 1 && w.date.month == 11
      else w.date.year == today.year && w.date.month == today.month - 1
  {
    MonthWindowSpec(today, -1, w);
  }

  // ---------------------------------------------------------------------------
  // calculateStats
  // ---------------------------------------------------------------------------

  /** The muscle groups a set counts towards: those of its catalog exercise, none for an
      unknown exercise id. */
  function SetMuscles(catalog: seq<Exercise>): WorkoutSet -> seq<string>
  {
    (s: WorkoutSet) =>
      match FindExercise(catalog, s.exerciseId)
      case None => []
      case Some(e) => e.muscleGroups
  }

  function WorkoutMuscles(catalog: seq<Exercise>): Workout -> seq<string>
  {
    (w: Workout) => FlatMap(w.sets, SetMuscles(catalog))
  }

  /** One event per (known set, muscle group of its exercise), in iteration order. */
  function MuscleEvents(catalog: seq<Exercise>, ws: seq<Workout>): seq<string>
  {
    FlatMap(ws, WorkoutMuscles(catalog))
  }

  function MuscleName(m: string): string { m }

  function NoCount(m: string): nat { 0 }

  function Increment(n: nat, m: string): nat { n + 1 }

  /** `acc[muscle] = (acc[muscle] || 0) + 1` over the events. */
  function Tally(es: seq<string>): seq<Entry<nat>>
  {
    Accumulate([], es, MuscleName, NoCount, Increment)
  }

  /** The `muscleGroups` dictionary of `calculateStats`. */
  function MuscleCounts(catalog: seq<Exercise>, ws: seq<Workout>): seq<Entry<nat>>
  {
    Tally(MuscleEvents(catalog, ws))
  }

  function EntryCount(e: Entry<nat>): nat { e.value }

  lemma {:induction false} FoldIncrement(n: nat, es: seq<string>)
    ensures Fold(n, es, Increment) == n + |es|
  {
    if es != [] {
      FoldIncrement(n, es[..|es| - 1]);
    }
  }

  /** A muscle group has an entry exactly when some known set works it, and its count is
      the number of such (set, muscle) pairs. */
  lemma TallySpec(es: seq<string>, m: string)
    ensures Get(Tally(es), m) == if m in es then Some(multiset(es)[m]) else None
  {
    var f := Filter(es, HasKey(MuscleName, m));
    AccumulateGet(es, MuscleName, NoCount, Increment, m);
    FilterByNameCount(es, m);
    if f != [] {
      FoldIncrement(NoCount(f[0]), f);
    }
  }

  /** The events named `m` are as many as the occurrences of `m`. */
  lemma {:induction false} FilterByNameCount(es: seq<string>, m: string)
    ensures |Filter(es, HasKey(MuscleName, m))| == multiset(es)[m]
  {
    if es != [] {
      FilterByNameCount(es[1..], m);
      assert es == [es[0]] + es[1..];
      assert MuscleName(es[0]) == es[0];
      assert HasKey(MuscleName, m)(es[0]) == (MuscleName(es[0]) == m);
    }
  }

  /** The counts add up to the number of events. */
  lemma {:induction false} TallyTotal(es: seq<string>)
    ensures Count(Tally(es), EntryCount) == |es|
  {
    if es != [] {
      var es', m := es[..|es| - 1], es[|es| - 1];
      var prev := Tally(es');
      TallyTotal(es');
      var i := IndexOf(prev, m);
      var v := GetOr(prev, m, 0) + 1;
      assert Tally(es) == Put(prev, m, v);
      if i < 0 {
        CountConcat(prev, [Entry(m, v)], EntryCount);
        assert [Entry(m, v)][..0] == [];
        assert v == 1;
      } else {
        CountUpdate(prev, i, Entry(m, v), EntryCount);
        assert v == prev[i].value + 1;
      }
    }
  }

  /** The number of muscle-group events a known set contributes. */
  function KnownMuscleCount(catalog: seq<Exercise>): WorkoutSet -> nat
  {
    (s: WorkoutSet) => |SetMuscles(catalog)(s)|
  }

  /** Flattening the per-workout events is flattening the events of all sets. */
  lemma {:induction false} MuscleEventsOverAllSets(catalog: seq<Exercise>, ws: seq<Workout>)
    ensures MuscleEvents(catalog, ws) == FlatMap(AllSets(ws), SetMuscles(catalog))
  {
    if ws != [] {
      var n := |ws| - 1;
      MuscleEventsOverAllSets(catalog, ws[..n]);
      FlatMapConcat(AllSets(ws[..n]), ws[n].sets, SetMuscles(catalog));
    }
  }

  /** Each known set adds one to the count of every muscle group of its exercise: the
      counts add up to the sum, over the sets with a catalog exercise, of that exercise's
      number of muscle groups, and the keys are distinct, in first-seen order. */
  lemma MuscleCountsSpec(catalog: seq<Exercise>, ws: seq<Workout>, m: string)
    ensures var es := MuscleEvents(catalog, ws);
      Get(MuscleCounts(catalog, ws), m) == if m in es then Some(multiset(es)[m]) else None
    ensures Count(MuscleCounts(catalog, ws), EntryCount) == Count(AllSets(ws), KnownMuscleCount(catalog))
    ensures Keys(MuscleCounts(catalog, ws)) == Distinct(MuscleEvents(catalog, ws))
  {
    var es := MuscleEvents(catalog, ws);
    TallySpec(es, m);
    TallyTotal(es);
    MuscleEventsOverAllSets(catalog, ws);
    FlatMapLength(AllSets(ws), SetMuscles(catalog), KnownMuscleCount(catalog));
    AccumulateKeys(es, MuscleName, NoCount, Increment);
    assert Map(es, MuscleName) == es;
  }

  /** One more muscle-group event is one more `acc[muscle] = (acc[muscle] || 0) + 1`. */
  lemma TallyPush(done: seq<string>, muscles: seq<string>, k: nat)
    requires k < |muscles|
    ensures var acc := Tally(done + muscles[..k]);
      Tally(done + muscles[..k + 1]) == Put(acc, muscles[k], GetOr(acc, muscles[k], 0) + 1)
  {
    AccumulateSnoc([], done + muscles[..k], muscles[k], MuscleName, NoCount, Increment);
    assert done + muscles[..k + 1] == (done + muscles[..k]) + [muscles[k]];
  }

  /** One more set contributes the muscle groups of its exercise. */
  lemma SetEventsPush(catalog: seq<Exercise>, before: seq<string>, sets: seq<WorkoutSet>, j: nat)
    requires j < |sets|
    ensures before + FlatMap(sets[..j + 1], SetMuscles(catalog))
      == (before + FlatMap(sets[..j], SetMuscles(catalog))) + SetMuscles(catalog)(sets[j])
  {
    FlatMapSnoc(sets, j, SetMuscles(catalog));
  }

  /** One more workout contributes the events of all its sets. */
  lemma WorkoutEventsPush(catalog: seq<Exercise>, ws: seq<Workout>, i: nat)
    requires i < |ws|
    ensures MuscleEvents(catalog, ws[..i + 1])
      == MuscleEvents(catalog, ws[..i]) + FlatMap(ws[i].sets[..|ws[i].sets|], SetMuscles(catalog))
  {
    FlatMapSnoc(ws, i, WorkoutMuscles(catalog));
    assert ws[i].sets[..|ws[i].sets|] == ws[i].sets;
  }

  /** Counts one set's muscle groups into the tally of the events before it. */
  method AddMuscleCounts(ghost done: seq<string>, muscles: seq<string>, acc0: seq<Entry<nat>>) returns (acc: seq<Entry<nat>>)
    requires acc0 == Tally(done)
    ensures acc == Tally(done + muscles)
  {
    acc := acc0;
    assert done + muscles[..0] == done;
    for k := 0 to |muscles|
      invariant acc == Tally(done + muscles[..k])
    {
      var muscle := muscles[k];
      TallyPush(done, muscles, k);
      acc := Put(acc, muscle, GetOr(acc, muscle, 0) + 1);
    }
    assert muscles[..|muscles|] == muscles;
  }

  /** The imperative accumulation of `calculateStats`: for each workout, each set, each
      muscle group of the set's catalog exercise, `acc[muscle] = (acc[muscle] || 0) + 1`. */
  method CountMuscleGroups(catalog: seq<Exercise>, ws: seq<Workout>) returns (acc: seq<Entry<nat>>)
    ensures acc == MuscleCounts(catalog, ws)
  {
    acc := [];
    for i := 0 to |ws|
      invariant acc == Tally(MuscleEvents(catalog, ws[..i]))
    {
      var sets := ws[i].sets;
      ghost var before := MuscleEvents(catalog, ws[..i]);
      assert before + FlatMap(sets[..0], SetMuscles(catalog)) == before;
      for j := 0 to |sets|
        invariant acc == Tally(before + FlatMap(sets[..j], SetMuscles(catalog)))
      {
        ghost var done := before + FlatMap(sets[..j], SetMuscles(catalog));
        var exercise := FindExercise(catalog, sets[j].exerciseId);
        if exercise.Some? {
          acc := AddMuscleCounts(done, exercise.value.muscleGroups, acc);
          assert SetMuscles(catalog)(sets[j]) == exercise.value.muscleGroups;
        } else {
          assert SetMuscles(catalog)(sets[j]) == [];
          assert done + [] == done;
        }
        SetEventsPush(catalog, before, sets, j);
      }
      WorkoutEventsPush(catalog, ws, i);
    }
    assert ws[..|ws|] == ws;
  }

  /** The result of `calculateStats`. */
  datatype Stats = Stats(
    totalWorkouts: nat,
    totalWeight: real,
    totalSets: nat,
    totalDuration: real,
    avgDuration: real,
    muscleGroups: seq<Entry<nat>>)

  /** `total / n`, or 0 when there is nothing to average. */
  function Mean(total: real, n: nat): real
  {
    if n > 0 then total / n as real else 0.0
  }

  /** The mean times the count gives back the total. */
  lemma MeanSpec(total: real, n: nat)
    ensures n > 0 ==> Mean(total, n) * n as real == total
    ensures n == 0 ==> Mean(total, n) == 0.0
  {
  }

  /** The statistics of a list of workouts: how many there are, the volume and number of
      all their sets, their total and mean duration, and the per-muscle-group counts. */
  function StatsOf(catalog: seq<Exercise>, ws: seq<Workout>): Stats
  {
    Stats(|ws|, Sum(AllSets(ws), SetVolume), |AllSets(ws)|, TotalDuration(ws),
          Mean(TotalDuration(ws), |ws|), MuscleCounts(catalog, ws))
  }

  /** `calculateStats`: counts and totals of a list of workouts, the mean duration (0 for
      none) and the per-muscle-group counts. */
  method CalculateStats(catalog: seq<Exercise>, ws: seq<Workout>) returns (s: Stats)
    ensures s == StatsOf(catalog, ws)
    ensures s.totalWorkouts == |ws|
    ensures s.totalWeight == Sum(AllSets(ws), SetVolume)
    ensures s.totalSets == |AllSets(ws)|
    ensures s.totalDuration == TotalDuration(ws)
    ensures s.avgDuration == Mean(s.totalDuration, |ws|)
    ensures s.muscleGroups == MuscleCounts(catalog, ws)
    ensures ws == [] ==> s == Stats(0, 0.0, 0, 0.0, 0.0, [])
  {
    TotalsOverAllSets(ws);
    var totalDuration := TotalDuration(ws);
    var muscles := CountMuscleGroups(catalog, ws);
    s := Stats(|ws|, TotalVolume(ws), TotalSets(ws), totalDuration,
               if |ws| > 0 then totalDuration / |ws| as real else 0.0, muscles);
    MeanSpec(totalDuration, |ws|);
  }

  // ---------------------------------------------------------------------------
  // generateInsights
  // ---------------------------------------------------------------------------

  /** An insight with its numeric payload; the display text is not modelled. */
  datatype Insight =
    | FrequencyUp(change: real)
    | FrequencyDown(change: real)
    | WeightProgress(weightChange: JsNumber)
    | GoalsNearCompletion(count: nat)
    | Imbalance(most: string, least: string)
  {
    /** The `type` shown with the insight. */
    predicate IsWarning()
    {
      FrequencyDown? || Imbalance?
    }

    /** The position of the rule that produces the insight. */
    function Rank(): nat
    {
      match this
      case FrequencyUp(_) => 0
      case FrequencyDown(_) => 0
      case WeightProgress(_) => 1
      case GoalsNearCompletion(_) => 2
      case Imbalance(_, _) => 3
    }
  }

  /** `((monthly.totalWorkouts - lastMonth.totalWorkouts) / lastMonth.totalWorkouts) * 100`,
      evaluated only when the previous month has workouts. */
  function WorkoutChange(monthly: Stats, lastMonth: Stats): real
    requires lastMonth.totalWorkouts > 0
  {
    (monthly.totalWorkouts as real - lastMonth.totalWorkouts as real) / lastMonth.totalWorkouts as real * 100.0
  }

  /** `((monthly.totalWeight - lastMonth.totalWeight) / lastMonth.totalWeight) * 100`, which
      has no guard of its own: a previous month without volume gives an infinity or NaN. */
  function WeightChange(monthly: Stats, lastMonth: Stats): JsNumber
  {
    Scale(Divide(monthly.totalWeight - lastMonth.totalWeight, lastMonth.totalWeight), 100.0)
  }

  /** `(g) => !g.isCompleted` then `(g) => (g.currentValue / g.targetValue) * 100 >= 80`. */
  function NearCompletionUnguarded(): Goal -> bool
  {
    (g: Goal) => !g.isCompleted && AtLeast(Scale(Divide(g.currentValue, g.targetValue), 100.0), 80.0)
  }

  /** The unguarded division makes a goal with target 0 count as near completion exactly
      when its current value is positive. */
  lemma NearCompletionZeroTarget(g: Goal)
    requires !g.isCompleted && g.targetValue == 0.0
    ensures NearCompletionUnguarded()(g) <==> g.currentValue > 0.0
  {
  }

  /** `Object.entries(d).reduce((a, b) => (a[1] > b[1] ? a : b))`: a largest entry; among
      equal counts the later entry wins. */
  function MaxEntry(d: seq<Entry<nat>>): (r: Entry<nat>)
    requires d != []
    ensures r in d
    ensures forall i :: 0 <= i < |d| ==> d[i].value <= r.value
  {
    if |d| == 1 then d[0]
    else
      var a := MaxEntry(d[..|d| - 1]);
      assert forall i :: 0 <= i < |d| - 1 ==> d[i] == d[..|d| - 1][i];
      if a.value > d[|d| - 1].value then a else d[|d| - 1]
  }

  /** `Object.entries(d).reduce((a, b) => (a[1] < b[1] ? a : b))`: a smallest entry; among
      equal counts the later entry wins. */
  function MinEntry(d: seq<Entry<nat>>): (r: Entry<nat>)
    requires d != []
    ensures r in d
    ensures forall i :: 0 <= i < |d| ==> r.value <= d[i].value
  {
    if |d| == 1 then d[0]
    else
      var a := MinEntry(d[..|d| - 1]);
      assert forall i :: 0 <= i < |d| - 1 ==> d[i] == d[..|d| - 1][i];
      if a.value < d[|d| - 1].value then a else d[|d| - 1]
  }

  /** Among entries with the largest count the reduction keeps the last one: every entry
      after the chosen one has a smaller count. */
  lemma {:induction false} MaxEntryLastWins(d: seq<Entry<nat>>)
    requires d != []
    ensures exists k :: 0 <= k < |d| && d[k] == MaxEntry(d) && forall i :: k < i < |d| ==> d[i].value < MaxEntry(d).value
  {
    if |d| > 1 {
      var p, x := d[..|d| - 1], d[|d| - 1];
      assert d == p + [x];
      MaxEntryLastWins(p);
      var a := MaxEntry(p);
      if a.value > x.value {
        var k :| 0 <= k < |p| && p[k] == a && forall i :: k < i < |p| ==> p[i].value < a.value;
        assert d[k] == MaxEntry(d);
      } else {
        assert d[|d| - 1] == MaxEntry(d);
      }
    } else {
      assert d[0] == MaxEntry(d);
    }
  }

  /** Among entries with the smallest count the reduction keeps the last one: every entry
      after the chosen one has a larger count. */
  lemma {:induction false} MinEntryLastWins(d: seq<Entry<nat>>)
    requires d != []
    ensures exists k :: 0 <= k < |d| && d[k] == MinEntry(d) && forall i :: k < i < |d| ==> d[i].value > MinEntry(d).value
  {
    if |d| > 1 {
      var p, x := d[..|d| - 1], d[|d| - 1];
      assert d == p + [x];
      MinEntryLastWins(p);
      var a := MinEntry(p);
      if a.value < x.value {
        var k :| 0 <= k < |p| && p[k] == a && forall i :: k < i < |p| ==> p[i].value > a.value;
        assert d[k] == MinEntry(d);
      } else {
        assert d[|d| - 1] == MinEntry(d);
      }
    } else {
      assert d[0] == MinEntry(d);
    }
  }

  /** The imbalance rule `max > 2 * min` fires exactly when some muscle group was trained
      more than twice as often as another one; in particular never with a single group. */
  lemma ImbalanceIff(d: seq<Entry<nat>>)
    requires d != []
    ensures MaxEntry(d).value > 2 * MinEntry(d).value
        <==> exists i, j :: 0 <= i < |d| && 0 <= j < |d| && d[i].value > 2 * d[j].value
    ensures |d| == 1 ==> !(MaxEntry(d).value > 2 * MinEntry(d).value)
  {
    var mx, mn := MaxEntry(d), MinEntry(d);
    var i :| 0 <= i < |d| && d[i] == mx;
    var j :| 0 <= j < |d| && d[j] == mn;
    if mx.value > 2 * mn.value {
      assert d[i].value > 2 * d[j].value;
    }
  }

  /** The rule that produces each insight, in terms of the statistics of this month and
      the previous one and the goals. */
  ghost predicate Fires(x: Insight, goals: seq<Goal>, monthly: Stats, lastMonth: Stats)
  {
    match x
    case FrequencyUp(c) =>
      lastMonth.totalWorkouts > 0 && c == WorkoutChange(monthly, lastMonth) && c > 10.0
    case FrequencyDown(c) =>
      lastMonth.totalWorkouts > 0 && c == WorkoutChange(monthly, lastMonth) && c < -10.0
    case WeightProgress(c) =>
      lastMonth.totalWorkouts > 0 && c == WeightChange(monthly, lastMonth) && Greater(c, 15.0)
    case GoalsNearCompletion(n) =>
      n == |Filter(goals, NearCompletionUnguarded())| && n > 0
    case Imbalance(most, least) =>
      monthly.muscleGroups != [] && most == MaxEntry(monthly.muscleGroups).key
      && least == MinEntry(monthly.muscleGroups).key
      && MaxEntry(monthly.muscleGroups).value > 2 * MinEntry(monthly.muscleGroups).value
  }

  ghost predicate StrictlyRanked(xs: seq<Insight>)
  {
    forall i, j :: 0 <= i < j < |xs| ==> xs[i].Rank() < xs[j].Rank()
  }

  /** The month-over-month frequency rule: up by more than 10%, or down by more than 10%. */
  function FrequencyInsight(monthly: Stats, lastMonth: Stats): seq<Insight>
  {
    if lastMonth.totalWorkouts == 0 then []
    else
      var c := WorkoutChange(monthly, lastMonth);
      if c > 10.0 then [FrequencyUp(c)] else if c < -10.0 then [FrequencyDown(c)] else []
  }

  /** The volume rule: more than 15% volume than the previous month (which has workouts). */
  function WeightInsight(monthly: Stats, lastMonth: Stats): seq<Insight>
  {
    if lastMonth.totalWorkouts > 0 && Greater(WeightChange(monthly, lastMonth), 15.0)
    then [WeightProgress(WeightChange(monthly, lastMonth))]
    else []
  }

  /** The goals rule: some open goal is at 80% or more of its target. */
  function NearCompletionInsight(goals: seq<Goal>): seq<Insight>
  {
    var n := |Filter(goals, NearCompletionUnguarded())|;
    if n > 0 then [GoalsNearCompletion(n)] else []
  }

  /** The balance rule: the most trained muscle group more than twice the least trained one. */
  function ImbalanceInsight(monthly: Stats): seq<Insight>
  {
    var d := monthly.muscleGroups;
    if d != [] && MaxEntry(d).value > 2 * MinEntry(d).value
    then [Imbalance(MaxEntry(d).key, MinEntry(d).key)]
    else []
  }

  /** The insights of the four rules, in rule order. */
  function Insights(goals: seq<Goal>, monthly: Stats, lastMonth: Stats): seq<Insight>
  {
    FrequencyInsight(monthly, lastMonth) + WeightInsight(monthly, lastMonth)
    + NearCompletionInsight(goals) + ImbalanceInsight(monthly)
  }

  lemma RankedConcat(a: seq<Insight>, b: seq<Insight>)
    requires StrictlyRanked(a) && StrictlyRanked(b)
    requires forall i, j :: 0 <= i < |a| && 0 <= j < |b| ==> a[i].Rank() < b[j].Rank()
    ensures StrictlyRanked(a + b)
  {
    forall i, j | 0 <= i < j < |a + b|
      ensures (a + b)[i].Rank() < (a + b)[j].Rank()
    {
      if j < |a| {
        assert (a + b)[i] == a[i] && (a + b)[j] == a[j];
      } else if i >= |a| {
        assert (a + b)[i] == b[i - |a|] && (a + b)[j] == b[j - |a|];
      } else {
        assert (a + b)[i] == a[i] && (a + b)[j] == b[j - |a|];
      }
    }
  }

  /** Rules that each yield at most one insight, of their own rank, yield insights in
      strict rank order. */
  lemma RankedRules(f: seq<Insight>, w: seq<Insight>, g: seq<Insight>, m: seq<Insight>)
    requires |f| <= 1 && |w| <= 1 && |g| <= 1 && |m| <= 1
    requires forall x :: x in f ==> x.Rank() == 0
    requires forall x :: x in w ==> x.Rank() == 1
    requires forall x :: x in g ==> x.Rank() == 2
    requires forall x :: x in m ==> x.Rank() == 3
    ensures StrictlyRanked(f + w + g + m)
  {
    RankedConcat(f, w);
    RankedConcat(f + w, g);
    RankedConcat(f + w + g, m);
  }

  /** Each insight is present exactly when its rule fires, the insights are in strict
      rule order (so at most one of the two frequency insights), and there are at most
      four. */
  lemma InsightsSpec(goals: seq<Goal>, monthly: Stats, lastMonth: Stats)
    ensures forall x :: x in Insights(goals, monthly, lastMonth) <==> Fires(x, goals, monthly, lastMonth)
    ensures StrictlyRanked(Insights(goals, monthly, lastMonth))
    ensures |Insights(goals, monthly, lastMonth)| <= 4
  {
    var f, w := FrequencyInsight(monthly, lastMonth), WeightInsight(monthly, lastMonth);
    var g, m := NearCompletionInsight(goals), ImbalanceInsight(monthly);
    RankedRules(f, w, g, m);
    forall x
      ensures x in Insights(goals, monthly, lastMonth) <==> Fires(x, goals, monthly, lastMonth)
    {
      assert x in Insights(goals, monthly, lastMonth) <==> x in f || x in w || x in g || x in m;
      InsightOfItsRule(goals, monthly, lastMonth, x);
    }
  }

  /** An insight can only come from the rule of its kind, and it does exactly when that
      rule fires. */
  lemma InsightOfItsRule(goals: seq<Goal>, monthly: Stats, lastMonth: Stats, x: Insight)
    ensures x in FrequencyInsight(monthly, lastMonth) <==> (x.FrequencyUp? || x.FrequencyDown?) && Fires(x, goals, monthly, lastMonth)
    ensures x in WeightInsight(monthly, lastMonth) <==> x.WeightProgress? && Fires(x, goals, monthly, lastMonth)
    ensures x in NearCompletionInsight(goals) <==> x.GoalsNearCompletion? && Fires(x, goals, monthly, lastMonth)
    ensures x in ImbalanceInsight(monthly) <==> x.Imbalance? && Fires(x, goals, monthly, lastMonth)
  {
  }

  /** `generateInsights`: the rules are tried in order and each one that fires pushes its
      insight. */
  method GenerateInsights(goals: seq<Goal>, monthly: Stats, lastMonth: Stats) returns (insights: seq<Insight>)
    ensures insights == Insights(goals, monthly, lastMonth)
    ensures forall x :: x in insights <==> Fires(x, goals, monthly, lastMonth)
    ensures StrictlyRanked(insights)
    ensures |insights| <= 4
  {
    insights := [];
    if lastMonth.totalWorkouts > 0 {
      var workoutChange := WorkoutChange(monthly, lastMonth);
      var weightChange := WeightChange(monthly, lastMonth);
      if workoutChange > 10.0 {
        insights := insights + [FrequencyUp(workoutChange)];
      } else if workoutChange < -10.0 {
        insights := insights + [FrequencyDown(workoutChange)];
      }
      if Greater(weightChange, 15.0) {
        insights := insights + [WeightProgress(weightChange)];
      }
    }
    assert insights == FrequencyInsight(monthly, lastMonth) + WeightInsight(monthly, lastMonth);

    var nearCompletion := Filter(goals, NearCompletionUnguarded());
    if |nearCompletion| > 0 {
      insights := insights + [GoalsNearCompletion(|nearCompletion|)];
    }

    var muscleGroups := monthly.muscleGroups;
    if |muscleGroups| > 0 {
      var maxMuscle := MaxEntry(muscleGroups);
      var minMuscle := MinEntry(muscleGroups);
      if maxMuscle.value > 2 * minMuscle.value {
        insights := insights + [Imbalance(maxMuscle.key, minMuscle.key)];
      }
    }
    InsightsSpec(goals, monthly, lastMonth);
  }

  // ---------------------------------------------------------------------------
  // generateRecommendations
  // ---------------------------------------------------------------------------

  datatype RecommendationCategory = TrainingFrequency | Length | Goals | Variety | Recovery

  datatype Priority = High | Medium | Low

  /** A recommendation; titles and descriptions are fixed texts per category. */
  datatype Recommendation = Recommendation(category: RecommendationCategory, priority: Priority)
  {
    function Rank(): nat
    {
      match category
      case TrainingFrequency => 0
      case Length => 1
      case Goals => 2
      case Variety => 3
      case Recovery => 4
    }
  }

  /** The conditional recommendations and the condition of each. */
  ghost predicate Recommended(r: Recommendation, goals: seq<Goal>, monthly: Stats, now: Clock)
  {
    (r == Recommendation(TrainingFrequency, High) && monthly.totalWorkouts < 8)
    || (r == Recommendation(Length, Medium) && monthly.avgDuration < 30.0)
    || (r == Recommendation(Goals, High) && exists g :: g in goals && IsOverdue(now)(g))
  }

  /** The conditional recommendations, in rule order. */
  function ConditionalRecommendations(goals: seq<Goal>, monthly: Stats, now: Clock): seq<Recommendation>
  {
    (if monthly.totalWorkouts < 8 then [Recommendation(TrainingFrequency, High)] else [])
    + (if monthly.avgDuration < 30.0 then [Recommendation(Length, Medium)] else [])
    + (if |Filter(goals, IsOverdue(now))| > 0 then [Recommendation(Goals, High)] else [])
  }

  /** The recommendations: the conditional ones, then always variety and recovery. */
  function Recommendations(goals: seq<Goal>, monthly: Stats, now: Clock): seq<Recommendation>
  {
    ConditionalRecommendations(goals, monthly, now)
    + [Recommendation(Variety, Low), Recommendation(Recovery, Medium)]
  }

  /** Some goal is open and past its deadline exactly when the overdue filter is not empty. */
  lemma OverdueNonEmpty(goals: seq<Goal>, now: Clock)
    ensures |Filter(goals, IsOverdue(now))| > 0 <==> exists g :: g in goals && IsOverdue(now)(g)
  {
    FilterMembers(goals, IsOverdue(now));
    var overdue := Filter(goals, IsOverdue(now));
    if |overdue| > 0 {
      assert overdue[0] in overdue;
    } else {
      assert overdue == [];
    }
  }

  /** Each conditional recommendation is present exactly when its condition holds, and
      the conditional ones are in strict rule order, all before variety and recovery. */
  lemma ConditionalRecommendationsSpec(goals: seq<Goal>, monthly: Stats, now: Clock)
    ensures var c := ConditionalRecommendations(goals, monthly, now);
      |c| <= 3
      && (forall r :: r in c <==> Recommended(r, goals, monthly, now))
      && (forall i, j :: 0 <= i < j < |c| ==> c[i].Rank() < c[j].Rank())
      && (forall i :: 0 <= i < |c| ==> c[i].Rank() <= 2)
  {
    OverdueNonEmpty(goals, now);
  }

  /** The two standing recommendations close the list, and the whole list is in strict
      rule order. */
  lemma RecommendationsSpec(goals: seq<Goal>, monthly: Stats, now: Clock)
    ensures var recs := Recommendations(goals, monthly, now);
      2 <= |recs| <= 5
      && recs[..|recs| - 2] == ConditionalRecommendations(goals, monthly, now)
      && recs[|recs| - 2..] == [Recommendation(Variety, Low), Recommendation(Recovery, Medium)]
      && (forall i, j :: 0 <= i < j < |recs| ==> recs[i].Rank() < recs[j].Rank())
  {
    var c := ConditionalRecommendations(goals, monthly, now);
    var recs := Recommendations(goals, monthly, now);
    ConditionalRecommendationsSpec(goals, monthly, now);
    assert recs[..|recs| - 2] == c;
    forall i, j | 0 <= i < j < |recs|
      ensures recs[i].Rank() < recs[j].Rank()
    {
      if j < |c| {
        assert recs[i] == c[i] && recs[j] == c[j];
      } else if i < |c| {
        assert recs[i] == c[i];
      }
    }
  }

  /** `generateRecommendations`: the conditional items in the order frequency, duration,
      overdue goals, each present exactly when its condition holds, then always variety
      (low) and recovery (medium). */
  method GenerateRecommendations(goals: seq<Goal>, monthly: Stats, now: Clock) returns (recs: seq<Recommendation>)
    ensures recs == Recommendations(goals, monthly, now)
  {
    recs := [];
    if monthly.totalWorkouts < 8 {
      recs := recs + [Recommendation(TrainingFrequency, High)];
    }
    if monthly.avgDuration < 30.0 {
      recs := recs + [Recommendation(Length, Medium)];
    }
    var overdueGoals := Filter(goals, IsOverdue(now));
    if |overdueGoals| > 0 {
      recs := recs + [Recommendation(Goals, High)];
    }
    recs := recs + [Recommendation(Variety, Low), Recommendation(Recovery, Medium)];
  }

  // ---------------------------------------------------------------------------
  // Monthly report
  // ---------------------------------------------------------------------------

  /** `calculateChange`: the percentage change, 0 against a zero baseline. */
  function CalculateChange(current: real, previous: real): (r: real)
    ensures previous == 0.0 ==> r == 0.0
    ensures previous != 0.0 ==> r * previous == (current - previous) * 100.0
  {
    if previous == 0.0 then 0.0 else (current - previous) / previous * 100.0
  }

  /** Comparing a value with itself shows no change. */
  lemma CalculateChangeSame(x: real)
    ensures CalculateChange(x, x) == 0.0
  {
  }

  function CountKey(e: Entry<nat>): real { e.value as real }

  /** The five most trained muscle groups of the monthly report, by non-increasing count. */
  function TopMuscles(muscleGroups: seq<Entry<nat>>): seq<Entry<nat>>
  {
    TopN(muscleGroups, CountKey, 5)
  }

  /** At most five entries, by non-increasing count, drawn from the dictionary, and no
      left-out muscle group has a larger count than a shown one. */
  lemma TopMusclesSpec(muscleGroups: seq<Entry<nat>>)
    ensures |TopMuscles(muscleGroups)| == if |muscleGroups| <= 5 then |muscleGroups| else 5
    ensures SortedDesc(TopMuscles(muscleGroups), CountKey)
    ensures multiset(TopMuscles(muscleGroups)) <= multiset(muscleGroups)
    ensures forall y, z :: y in multiset(muscleGroups) - multiset(TopMuscles(muscleGroups)) && z in TopMuscles(muscleGroups) ==>
      y.value <= z.value
  {
    var top := TopMuscles(muscleGroups);
    TopNSpec(muscleGroups, CountKey, 5);
    forall y, z | y in multiset(muscleGroups) - multiset(top) && z in top
      ensures y.value <= z.value
    {
      assert CountKey(y) <= CountKey(z);
    }
  }

  // ---------------------------------------------------------------------------
  // The analysis
  // ---------------------------------------------------------------------------

  datatype WeeklyReport = WeeklyReport(weekStartMs: int, stats: Stats, workouts: seq<Workout>)

  datatype MonthlyReport = MonthlyReport(stats: Stats, lastMonthStats: Stats, workouts: seq<Workout>)

  datatype Analysis = Analysis(
    weeklyReport: Option<WeeklyReport>,
    monthlyReport: Option<MonthlyReport>,
    insights: seq<Insight>,
    recommendations: seq<Recommendation>)

  /** The analysis of the reports screen. Without workouts there are no reports, insights
      or recommendations, whatever the goals; otherwise the week and month reports cover
      exactly the workouts of their windows, each report's statistics are those of
      `calculateStats` over its window, and the insights and recommendations are those
      of this month's statistics against the previous month's. */
  method Analyze(workouts: seq<Workout>, goals: seq<Goal>, now: Clock) returns (a: Analysis)
    ensures workouts == [] ==> a == Analysis(None, None, [], [])
    ensures workouts != [] ==> a.weeklyReport.Some? && a.monthlyReport.Some?
    ensures workouts != [] ==> a.weeklyReport.value.workouts == Filter(workouts, InWeek(now.today))
    ensures workouts != [] ==> a.monthlyReport.value.workouts == Filter(workouts, InMonthWindow(now.today, 0))
    ensures workouts != [] ==> a.monthlyReport.value.stats.totalWorkouts == |Filter(workouts, InMonthWindow(now.today, 0))|
    ensures workouts != [] ==> a.monthlyReport.value.lastMonthStats.totalWorkouts == |Filter(workouts, InMonthWindow(now.today, -1))|
    ensures workouts != [] ==> 2 <= |a.recommendations| && |a.insights| <= 4
    ensures workouts != [] ==> a.weeklyReport.value.stats.totalWorkouts == |Filter(workouts, InWeek(now.today))|
    ensures workouts != [] ==>
      a.weeklyReport.value.stats == StatsOf(DefaultExercises(), Filter(workouts, InWeek(now.today)))
      && a.monthlyReport.value.stats == StatsOf(DefaultExercises(), Filter(workouts, InMonthWindow(now.today, 0)))
      && a.monthlyReport.value.lastMonthStats == StatsOf(DefaultExercises(), Filter(workouts, InMonthWindow(now.today, -1)))
    ensures workouts != [] ==>
      var m := a.monthlyReport.value;
      (forall x :: x in a.insights <==> Fires(x, goals, m.stats, m.lastMonthStats))
      && a.insights == Insights(goals, m.stats, m.lastMonthStats)
      && a.recommendations == Recommendations(goals, m.stats, now)
  {
    if |workouts| == 0 {
      return Analysis(None, None, [], []);
    }
    var thisWeek := Filter(workouts, InWeek(now.today));
    var thisMonth := Filter(workouts, InMonthWindow(now.today, 0));
    var lastMonth := Filter(workouts, InMonthWindow(now.today, -1));
    var catalog := DefaultExercises();
    var weeklyStats := CalculateStats(catalog, thisWeek);
    var monthlyStats := CalculateStats(catalog, thisMonth);
    var lastMonthStats := CalculateStats(catalog, lastMonth);
    var insights := GenerateInsights(goals, monthlyStats, lastMonthStats);
    var recommendations := GenerateRecommendations(goals, monthlyStats, now);
    a := Analysis(
      Some(WeeklyReport(WeekStartMs(now.today), weeklyStats, thisWeek)),
      Some(MonthlyReport(monthlyStats, lastMonthStats, thisMonth)),
      insights,
      recommendations);
  }
}
