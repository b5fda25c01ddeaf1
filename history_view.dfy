/** The history screen (components/HistoryView.tsx): the month grid, the exercise badges of each day,
    and the completion marks of the day dialog. Dates are given by their local year, zero-based month
    and day; the weekday of the first of the month is an input. */
module HistoryView {
  import opened Wrappers
  import opened Seqs
  import opened Types
  import opened DateKey
  import App
  import TodayView

  // ---------------------------------------------------------------------------------------------
  // The month grid

  /** The cells of the grid: a blank for each weekday before the first, then the days 1 to
      `daysInMonth`. */
  function CalendarCells(firstDay: int, daysInMonth: int): seq<Option<int>> {
    seq(ArrayLength(firstDay), _ => None) + seq(ArrayLength(daysInMonth), j => Some(j + 1))
  }

  /** `generateCalendar`: two loops push the blanks and then the days. */
  method GenerateCalendar(firstDay: int, daysInMonth: int) returns (cells: seq<Option<int>>)
    ensures |cells| == ArrayLength(firstDay) + ArrayLength(daysInMonth)
    ensures cells == CalendarCells(firstDay, daysInMonth)
  {
    cells := [];
    var i := 0;
    while i < firstDay
      invariant 0 <= i <= ArrayLength(firstDay)
      invariant cells == seq(i, _ => None)
    {
      cells := cells + [None];
      i := i + 1;
    }
    var pad := cells;
    i := 1;
    while i <= daysInMonth
      invariant 1 <= i <= ArrayLength(daysInMonth) + 1
      invariant cells == pad + seq(i - 1, j => Some(j + 1))
    {
      cells := cells + [Some(i)];
      i := i + 1;
    }
  }

  /** Day `d` sits in cell `firstDay + d - 1`, so in the weekday column `(firstDay + d - 1) % 7`, and in
      no other cell; blanks come only before the first day. */
  lemma DayCellPosition(firstDay: int, daysInMonth: int, d: int)
    requires 0 <= firstDay && 1 <= d <= daysInMonth
    ensures var cells := CalendarCells(firstDay, daysInMonth);
            && firstDay + d - 1 < |cells| && cells[firstDay + d - 1] == Some(d)
            && (forall i :: 0 <= i < |cells| && cells[i] == Some(d) ==> i == firstDay + d - 1)
            && (forall i :: 0 <= i < |cells| && cells[i].None? ==> i < firstDay)
  {
  }

  /** A month of at most 31 days starting on any weekday fits in six rows of seven cells. */
  lemma MonthFitsSixRows(firstDay: int, daysInMonth: int)
    requires 0 <= firstDay <= 6 && daysInMonth <= 31
    ensures |CalendarCells(firstDay, daysInMonth)| <= 6 * 7
  {
  }

  // ---------------------------------------------------------------------------------------------
  // Badges

  /** `getWorkoutForDate`: the first workout recorded under the day's key. */
  function WorkoutForDate(ws: seq<DailyWorkout>, year: int, month0: int, day: int): (r: Option<DailyWorkout>)
    ensures r.Some? ==> r.value in ws && r.value.date == LocalDateKey(year, month0, day)
    ensures r.None? ==> forall i :: 0 <= i < |ws| ==> ws[i].date != LocalDateKey(year, month0, day)
    ensures forall i :: (0 <= i < |ws| && ws[i].date == LocalDateKey(year, month0, day)
                         && forall j :: 0 <= j < i ==> ws[j].date != LocalDateKey(year, month0, day)) ==> r == Some(ws[i])
  {
    App.FindWorkout(ws, LocalDateKey(year, month0, day))
  }

  /** The name shown for an item: the referenced exercise's name, or "未知" when the catalog has no
      exercise with that id. */
  function ExerciseName(es: seq<Exercise>, exerciseId: string): (name: string)
    ensures (exists i :: 0 <= i < |es| && es[i].id == exerciseId) ==>
              exists i :: 0 <= i < |es| && es[i].id == exerciseId && name == es[i].name
    ensures (forall i :: 0 <= i < |es| ==> es[i].id != exerciseId) ==> name == "未知"
    ensures forall i :: (0 <= i < |es| && es[i].id == exerciseId
                         && forall j :: 0 <= j < i ==> es[j].id != exerciseId) ==> name == es[i].name
  {
    match Find((e: Exercise) => e.id == exerciseId, es)
    case Some(e) => e.name
    case None => "未知"
  }

  /** `getDayExerciseNames`: one name per item of the day's workout, in order; none without a
      workout. */
  function DayExerciseNames(w: Option<DailyWorkout>, es: seq<Exercise>): (names: seq<string>)
    ensures w.None? ==> names == []
    ensures w.Some? ==> |names| == |w.value.items|
    ensures w.Some? ==> forall i :: 0 <= i < |names| ==> names[i] == ExerciseName(es, w.value.items[i].exerciseId)
  {
    if w.None? || |w.value.items| == 0 then []
    else seq(|w.value.items|, i requires 0 <= i < |w.value.items| => ExerciseName(es, w.value.items[i].exerciseId))
  }

  /** Deleting an exercise from the catalog leaves the items that reference it in the history, where
      they are then shown as "未知". */
  lemma DeletedExerciseShownAsUnknown(w: DailyWorkout, es: seq<Exercise>, id: string, i: int)
    requires 0 <= i < |w.items| && w.items[i].exerciseId == id
    ensures DayExerciseNames(Some(w), App.WithoutExercise(es, id))[i] == "未知"
  {
    var rest := App.WithoutExercise(es, id);
    assert forall j :: 0 <= j < |rest| ==> rest[j].id != id;
  }

  /** What a grid cell shows for one exercise: its name in one of five colours, or the `+n` counter. */
  datatype Badge = NameBadge(name: string, color: nat) | MoreBadge(count: int)

  /** The badges of a cell: at most three; with more than three exercises the third is `+(n - 2)`. */
  function CellBadges(names: seq<string>): (r: seq<Badge>)
    ensures |r| == if |names| <= 3 then |names| else 3
    ensures forall i :: 0 <= i < |r| && !(i == 2 && |names| > 3) ==> r[i] == NameBadge(names[i], i % 5)
    ensures |names| > 3 ==> r[2] == MoreBadge(|names| - 2)
  {
    var shown := if |names| <= 3 then |names| else 3;
    seq(shown, i requires 0 <= i < shown =>
      if i == 2 && |names| > 3 then MoreBadge(|names| - 2) else NameBadge(names[i], i % 5))
  }

  /** How many exercises the badges stand for: one per name, `n` for `+n`. */
  function BadgeTotal(bs: seq<Badge>): int {
    if bs == [] then 0
    else (match bs[0] case NameBadge(_, _) => 1 case MoreBadge(n) => n) + BadgeTotal(bs[1..])
  }

  /** The badges of a cell account for every exercise of the day, each once. */
  lemma BadgesCountEveryExercise(names: seq<string>)
    ensures BadgeTotal(CellBadges(names)) == |names|
  {
    var r := CellBadges(names);
    if |r| == 3 {
      assert r[2..] == [r[2]] && r[1..][1..] == r[2..];
      assert BadgeTotal(r[2..]) == |names| - 2;
      assert BadgeTotal(r[1..]) == 1 + BadgeTotal(r[2..]);
    } else if |r| == 2 {
      assert r[1..] == [r[1]];
      assert BadgeTotal(r[1..]) == 1;
    } else if |r| == 1 {
      assert r[1..] == [];
    }
  }

  /** A cell shows badges exactly when its day has a workout with at least one item. */
  lemma CellShowsBadgesIffItems(ws: seq<DailyWorkout>, es: seq<Exercise>, year: int, month0: int, day: int)
    ensures |CellBadges(DayExerciseNames(WorkoutForDate(ws, year, month0, day), es))| > 0
            <==> |App.ItemsOn(ws, LocalDateKey(year, month0, day))| > 0
  {
  }

  // ---------------------------------------------------------------------------------------------
  // The day dialog

  /** `isFullyComplete` of the day dialog: as many completed sets as sets. */
  predicate CompleteInHistory(item: WorkoutItem) {
    Count((s: WorkoutSet) => s.completed, item.sets) == |item.sets|
  }

  /** The dialog marks an item complete exactly when every set is completed, so also when it has no
      sets at all. */
  lemma CompleteInHistoryMeansAllDone(item: WorkoutItem)
    ensures CompleteInHistory(item) <==> forall j :: 0 <= j < |item.sets| ==> item.sets[j].completed
    ensures item.sets == [] ==> CompleteInHistory(item)
  {
    CountIsLengthIffAll((s: WorkoutSet) => s.completed, item.sets);
  }

  /** The history dialog and today's card disagree only on items without sets: the dialog marks them
      complete, the card does not. */
  lemma CompletionMarksDiffer(item: WorkoutItem)
    ensures CompleteInHistory(item) <==> TodayView.IsFullyComplete(item) || item.sets == []
  {
    CompleteInHistoryMeansAllDone(item);
    TodayView.FullyCompleteMeansAllDone(item);
  }
}
