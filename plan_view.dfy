/** The planning screen (components/PlanView.tsx): usage frequencies, the exercise lists of its tabs,
    turning an exercise or a template into workout items, and saving a day as a template.
    Fresh ids come from an oracle `uuid: nat -> string`; `uuid(k)` is the id returned by the k-th
    call of `crypto.randomUUID()`, so an expansion starting at `k` uses consecutive calls in the
    order JavaScript makes them (an item's id, then the ids of its sets). */
module PlanView {
  import opened Wrappers
  import opened Seqs
  import opened Types
  import App

  // ---------------------------------------------------------------------------------------------
  // usageMap

  /** The exercise ids of all items of all workouts, in the order the nested `forEach` visits them. */
  function ExerciseIdsOf(ws: seq<DailyWorkout>): seq<string> {
    if ws == [] then [] else ExerciseIdsOf(ws[..|ws| - 1]) + ItemExerciseIds(ws[|ws| - 1].items)
  }

  function ItemExerciseIds(items: seq<WorkoutItem>): (r: seq<string>)
    ensures |r| == |items|
    ensures forall j :: 0 <= j < |items| ==> r[j] == items[j].exerciseId
  {
    seq(|items|, j requires 0 <= j < |items| => items[j].exerciseId)
  }

  /** How many times `x` occurs in `xs`. */
  function Occurrences(xs: seq<string>, x: string): nat {
    if xs == [] then 0 else Occurrences(xs[..|xs| - 1], x) + (if xs[|xs| - 1] == x then 1 else 0)
  }

  lemma {:induction false} OccurrencesAppend(xs: seq<string>, ys: seq<string>, x: string)
    ensures Occurrences(xs + ys, x) == Occurrences(xs, x) + Occurrences(ys, x)
    decreases |ys|
  {
    if ys != [] {
      assert (xs + ys)[..|xs + ys| - 1] == xs + ys[..|ys| - 1];
      OccurrencesAppend(xs, ys[..|ys| - 1], x);
    } else {
      assert xs + ys == xs;
    }
  }

  /** The number of items, over all workouts, that reference exercise `id`. */
  function UsageCount(ws: seq<DailyWorkout>, id: string): nat {
    Occurrences(ExerciseIdsOf(ws), id)
  }

  /** The number of items over all workouts. */
  function TotalItems(ws: seq<DailyWorkout>): nat {
    if ws == [] then 0 else TotalItems(ws[..|ws| - 1]) + |ws[|ws| - 1].items|
  }

  /** `usageMap.get(id) || 0`. */
  function Freq(usage: map<string, nat>, id: string): nat {
    if id in usage then usage[id] else 0
  }

  /** `usageMap`: a map filled by two nested loops over the workouts and their items, adding one to
      the entry of each item's exercise. Every exercise maps to its usage count; only used exercises
      are keys. */
  method BuildUsageMap(ws: seq<DailyWorkout>) returns (usage: map<string, nat>)
    ensures forall id :: Freq(usage, id) == UsageCount(ws, id)
    ensures forall id :: id in usage ==> usage[id] > 0
  {
    usage := map[];
    var i := 0;
    while i < |ws|
      invariant 0 <= i <= |ws|
      invariant forall id :: Freq(usage, id) == Occurrences(ExerciseIdsOf(ws[..i]), id)
      invariant forall id :: id in usage ==> usage[id] > 0
    {
      var items := ws[i].items;
      var j := 0;
      assert ExerciseIdsOf(ws[..i]) + ItemExerciseIds(items[..j]) == ExerciseIdsOf(ws[..i]);
      while j < |items|
        invariant 0 <= j <= |items|
        invariant forall id :: Freq(usage, id) == Occurrences(ExerciseIdsOf(ws[..i]) + ItemExerciseIds(items[..j]), id)
        invariant forall id :: id in usage ==> usage[id] > 0
      {
        var id := items[j].exerciseId;
        ghost var before := ExerciseIdsOf(ws[..i]) + ItemExerciseIds(items[..j]);
        assert ExerciseIdsOf(ws[..i]) + ItemExerciseIds(items[..j + 1]) == before + [id];
        forall x ensures Occurrences(before + [id], x) == Occurrences(before, x) + (if id == x then 1 else 0) {
          assert (before + [id])[..|before + [id]| - 1] == before;
        }
        usage := usage[id := Freq(usage, id) + 1];
        j := j + 1;
      }
      assert items[..j] == items;
      assert ws[..i + 1][..i] == ws[..i];
      i := i + 1;
    }
    assert ws[..i] == ws;
  }

  /** The items of a list of workouts are counted by its exercise ids. */
  lemma {:induction false} TotalItemsIsIdCount(ws: seq<DailyWorkout>)
    ensures |ExerciseIdsOf(ws)| == TotalItems(ws)
    decreases |ws|
  {
    if ws != [] {
      TotalItemsIsIdCount(ws[..|ws| - 1]);
    }
  }

  /** The occurrences, over a list of distinct values, of one of them add up to one. */
  function SumOccurrences(xs: seq<string>, ids: seq<string>): nat {
    if ids == [] then 0 else Occurrences(xs, ids[0]) + SumOccurrences(xs, ids[1..])
  }

  predicate Distinct(ids: seq<string>) {
    forall a, b :: 0 <= a < b < |ids| ==> ids[a] != ids[b]
  }

  lemma {:induction false} SumOccurrencesOfOne(x: string, ids: seq<string>)
    requires Distinct(ids)
    ensures SumOccurrences([x], ids) == if x in ids then 1 else 0
    decreases |ids|
  {
    if ids != [] {
      assert [x][..0] == [];
      assert Occurrences([x], ids[0]) == if x == ids[0] then 1 else 0;
      SumOccurrencesOfOne(x, ids[1..]);
      assert ids == [ids[0]] + ids[1..];
      if x == ids[0] {
        assert x !in ids[1..];
      }
    }
  }

  lemma {:induction false} SumOccurrencesAppend(xs: seq<string>, ys: seq<string>, ids: seq<string>)
    ensures SumOccurrences(xs + ys, ids) == SumOccurrences(xs, ids) + SumOccurrences(ys, ids)
    decreases |ids|
  {
    if ids != [] {
      OccurrencesAppend(xs, ys, ids[0]);
      SumOccurrencesAppend(xs, ys, ids[1..]);
    }
  }

  /** Over distinct values that cover a list, the occurrence counts add up to its length. */
  lemma {:induction false} SumOccurrencesIsLength(xs: seq<string>, ids: seq<string>)
    requires Distinct(ids)
    requires forall j :: 0 <= j < |xs| ==> xs[j] in ids
    ensures SumOccurrences(xs, ids) == |xs|
    decreases |xs|
  {
    if xs == [] {
      SumOccurrencesZero(ids);
    } else {
      var init := xs[..|xs| - 1];
      assert xs == init + [xs[|xs| - 1]];
      SumOccurrencesAppend(init, [xs[|xs| - 1]], ids);
      SumOccurrencesOfOne(xs[|xs| - 1], ids);
      SumOccurrencesIsLength(init, ids);
    }
  }

  lemma {:induction false} SumOccurrencesZero(ids: seq<string>)
    ensures SumOccurrences([], ids) == 0
    decreases |ids|
  {
    if ids != [] {
      SumOccurrencesZero(ids[1..]);
    }
  }

  /** Sum of the usage counts of the given exercises. */
  function SumUsage(ws: seq<DailyWorkout>, ids: seq<string>): nat {
    SumOccurrences(ExerciseIdsOf(ws), ids)
  }

  /** Over the distinct exercise ids that the items reference (the keys of `usageMap`), the usage
      counts add up to the number of items. */
  lemma UsageSumsToItemCount(ws: seq<DailyWorkout>, ids: seq<string>)
    requires Distinct(ids)
    requires forall j :: 0 <= j < |ExerciseIdsOf(ws)| ==> ExerciseIdsOf(ws)[j] in ids
    ensures SumUsage(ws, ids) == TotalItems(ws)
  {
    SumOccurrencesIsLength(ExerciseIdsOf(ws), ids);
    TotalItemsIsIdCount(ws);
  }

  // ---------------------------------------------------------------------------------------------
  // The COMMON tab: a stable sort by descending frequency

  /** Puts `x` before the first element whose frequency is not above its own. */
  function InsertByFreq(x: Exercise, t: seq<Exercise>, usage: map<string, nat>): (r: seq<Exercise>)
    ensures multiset(r) == multiset(t) + multiset{x}
    ensures |r| == |t| + 1
  {
    if t == [] || Freq(usage, t[0].id) <= Freq(usage, x.id) then [x] + t
    else
      assert t == [t[0]] + t[1..];
      [t[0]] + InsertByFreq(x, t[1..], usage)
  }

  /** `sort((a, b) => freqB - freqA)`: Array.prototype.sort is stable, so equal frequencies keep
      their relative order. An insertion sort that inserts each element before the equal ones that
      followed it computes the same list. */
  function SortByFreq(s: seq<Exercise>, usage: map<string, nat>): (r: seq<Exercise>)
    ensures multiset(r) == multiset(s)
    ensures |r| == |s|
  {
    if s == [] then []
    else
      assert s == [s[0]] + s[1..];
      InsertByFreq(s[0], SortByFreq(s[1..], usage), usage)
  }

  ghost predicate FreqDescending(s: seq<Exercise>, usage: map<string, nat>) {
    forall a, b :: 0 <= a < b < |s| ==> Freq(usage, s[a].id) >= Freq(usage, s[b].id)
  }

  lemma {:induction false} InsertKeepsDescending(x: Exercise, t: seq<Exercise>, usage: map<string, nat>)
    requires FreqDescending(t, usage)
    ensures FreqDescending(InsertByFreq(x, t, usage), usage)
    decreases |t|
  {
    if !(t == [] || Freq(usage, t[0].id) <= Freq(usage, x.id)) {
      InsertKeepsDescending(x, t[1..], usage);
      var rest := InsertByFreq(x, t[1..], usage);
      assert forall b :: 0 <= b < |rest| ==> rest[b] in multiset(t[1..]) + multiset{x};
      forall b | 0 <= b < |rest| ensures Freq(usage, t[0].id) >= Freq(usage, rest[b].id) {
        assert rest[b] in multiset(t[1..]) + multiset{x};
        if rest[b] != x {
          assert rest[b] in t[1..];
        }
      }
    }
  }

  /** The sorted list is non-increasing in frequency. */
  lemma {:induction false} SortIsDescending(s: seq<Exercise>, usage: map<string, nat>)
    ensures FreqDescending(SortByFreq(s, usage), usage)
    decreases |s|
  {
    if s != [] {
      SortIsDescending(s[1..], usage);
      InsertKeepsDescending(s[0], SortByFreq(s[1..], usage), usage);
    }
  }

  /** The exercises of the list with frequency `k`, in list order. */
  function WithFreq(s: seq<Exercise>, usage: map<string, nat>, k: nat): seq<Exercise> {
    Filter((e: Exercise) => Freq(usage, e.id) == k, s)
  }

  lemma {:induction false} InsertIsStable(x: Exercise, t: seq<Exercise>, usage: map<string, nat>, k: nat)
    requires FreqDescending(t, usage)
    ensures WithFreq(InsertByFreq(x, t, usage), usage, k)
            == (if Freq(usage, x.id) == k then [x] else []) + WithFreq(t, usage, k)
    decreases |t|
  {
    var p := (e: Exercise) => Freq(usage, e.id) == k;
    if t == [] || Freq(usage, t[0].id) <= Freq(usage, x.id) {
      FilterAppend(p, [x], t);
    } else {
      InsertIsStable(x, t[1..], usage, k);
      FilterAppend(p, [t[0]], InsertByFreq(x, t[1..], usage));
      FilterAppend(p, [t[0]], t[1..]);
      assert [t[0]] + t[1..] == t;
    }
  }

  /** Sorting is stable: for each frequency, the exercises with it come out in their input order. */
  lemma {:induction false} SortIsStable(s: seq<Exercise>, usage: map<string, nat>, k: nat)
    ensures WithFreq(SortByFreq(s, usage), usage, k) == WithFreq(s, usage, k)
    decreases |s|
  {
    if s != [] {
      var p := (e: Exercise) => Freq(usage, e.id) == k;
      SortIsDescending(s[1..], usage);
      InsertIsStable(s[0], SortByFreq(s[1..], usage), usage, k);
      SortIsStable(s[1..], usage, k);
      FilterAppend(p, [s[0]], s[1..]);
      assert [s[0]] + s[1..] == s;
    }
  }

  // ---------------------------------------------------------------------------------------------
  // filteredExercises

  /** The tabs of the planning screen's library panel. */
  datatype PlanTab = Common | TemplateTab | Favorite | CategoryTab(category: ExerciseCategory)

  predicate NotCustom(e: Exercise) {
    e.category != Some(Custom)
  }

  /** `filteredExercises` for the active tab. */
  function FilteredExercises(tab: PlanTab, es: seq<Exercise>, usage: map<string, nat>): (r: seq<Exercise>)
    ensures tab == Common ==> multiset(r) == multiset(Filter(NotCustom, es)) && FreqDescending(r, usage)
    ensures tab == TemplateTab ==> r == []
    ensures tab == Favorite ==> (forall i :: 0 <= i < |r| ==> IsTrue(r[i].isFavorite) && r[i] in es)
                                && (forall i :: 0 <= i < |es| && IsTrue(es[i].isFavorite) ==> es[i] in r)
    ensures tab.CategoryTab? ==> (forall i :: 0 <= i < |r| ==> r[i].category == Some(tab.category) && r[i] in es)
                                 && (forall i :: 0 <= i < |es| && es[i].category == Some(tab.category) ==> es[i] in r)
  {
    match tab
    case Common =>
      SortIsDescending(Filter(NotCustom, es), usage);
      SortByFreq(Filter(NotCustom, es), usage)
    case TemplateTab => []
    case Favorite => Filter((e: Exercise) => IsTrue(e.isFavorite), es)
    case CategoryTab(c) => Filter((e: Exercise) => e.category == Some(c), es)
  }

  /** On the COMMON tab exercises used equally often keep the order of the exercise list. */
  lemma CommonTabIsStable(es: seq<Exercise>, usage: map<string, nat>, k: nat)
    ensures WithFreq(FilteredExercises(Common, es, usage), usage, k) == WithFreq(Filter(NotCustom, es), usage, k)
  {
    SortIsStable(Filter(NotCustom, es), usage, k);
  }

  /** Every tab but COMMON keeps the order of the exercise list. */
  lemma FilteredKeepsOrder(tab: PlanTab, a: seq<Exercise>, b: seq<Exercise>, usage: map<string, nat>)
    requires tab != Common
    ensures FilteredExercises(tab, a + b, usage) == FilteredExercises(tab, a, usage) + FilteredExercises(tab, b, usage)
  {
    match tab
    case TemplateTab =>
    case Favorite => FilterAppend((e: Exercise) => IsTrue(e.isFavorite), a, b);
    case CategoryTab(c) => FilterAppend((e: Exercise) => e.category == Some(c), a, b);
  }

  /** An exercise whose category is none of the nine is listed on the COMMON tab and on no category
      tab. */
  lemma UncategorisedOnCommonOnly(es: seq<Exercise>, usage: map<string, nat>, e: Exercise, c: ExerciseCategory)
    requires e in es && e.category.None?
    ensures e in FilteredExercises(Common, es, usage)
    ensures e !in FilteredExercises(CategoryTab(c), es, usage)
  {
    var i :| 0 <= i < |es| && es[i] == e;
    assert e in Filter(NotCustom, es);
    assert e in multiset(FilteredExercises(Common, es, usage));
  }

  // ---------------------------------------------------------------------------------------------
  // Turning exercises and templates into workout items

  /** What was picked in the library panel. */
  datatype AddTarget = ExerciseTarget(exercise: Exercise) | TemplateTarget(template: WorkoutTemplate)

  /** `pref?.defaultSets || 3` and `pref?.defaultReps || 10`. */
  function PreferredSets(prefs: ExercisePreferences, id: string): int {
    if id in prefs then OrDefault(prefs[id].defaultSets, 3) else 3
  }

  function PreferredReps(prefs: ExercisePreferences, id: string): int {
    if id in prefs then OrDefault(prefs[id].defaultReps, 10) else 10
  }

  /** `openAddModal`: the sets and repetitions the dialog starts with. */
  function ConfigDefaults(target: AddTarget, prefs: ExercisePreferences): (r: (int, int))
    ensures target.TemplateTarget? ==> r == (3, 10)
    ensures target.ExerciseTarget? && target.exercise.id !in prefs ==> r == (3, 10)
    ensures target.ExerciseTarget? && target.exercise.id in prefs ==>
              var p := prefs[target.exercise.id];
              r == (if p.defaultSets == 0 then 3 else p.defaultSets, if p.defaultReps == 0 then 10 else p.defaultReps)
  {
    match target
    case ExerciseTarget(ex) => (PreferredSets(prefs, ex.id), PreferredReps(prefs, ex.id))
    case TemplateTarget(_) => (3, 10)
  }

  /** `Array.from({ length: count }).map(() => ({ id: crypto.randomUUID(), reps, completed: false }))`. */
  function MakeSets(count: int, reps: int, uuid: nat -> string, k: nat): (r: seq<WorkoutSet>)
    ensures |r| == ArrayLength(count)
    ensures forall j :: 0 <= j < |r| ==> r[j] == WorkoutSet(uuid(k + j), RepsNumber(reps), false)
  {
    seq(ArrayLength(count), j requires 0 <= j < ArrayLength(count) => WorkoutSet(uuid(k + j), RepsNumber(reps), false))
  }

  /** A new item for one exercise: its own fresh id, then `count` fresh sets. */
  function MakeItem(exerciseId: string, count: int, reps: int, uuid: nat -> string, k: nat): (r: WorkoutItem)
    ensures r.id == uuid(k) && r.exerciseId == exerciseId && r.notes == None
    ensures r.sets == MakeSets(count, reps, uuid, k + 1)
  {
    WorkoutItem(uuid(k), exerciseId, MakeSets(count, reps, uuid, k + 1), None)
  }

  /** How many uuid ids an item of `count` sets uses. */
  function IdsPerItem(count: int): nat {
    1 + ArrayLength(count)
  }

  /** Whether the item follows a template line: the same exercise, `defaultSets || fallbackSets`
      uncompleted sets of `defaultReps || fallbackReps` repetitions. */
  predicate Instantiates(item: WorkoutItem, t: TemplateItem, fallbackSets: int, fallbackReps: int) {
    && item.exerciseId == t.exerciseId
    && |item.sets| == ArrayLength(OrDefault(t.defaultSets, fallbackSets))
    && forall j :: 0 <= j < |item.sets| ==>
         item.sets[j].reps == RepsNumber(OrDefault(t.defaultReps, fallbackReps)) && !item.sets[j].completed
  }

  /** `tpl.items.map(tItem => ({ id, exerciseId, sets: Array.from({ length: tItem.defaultSets || fallbackSets }) ... }))`:
      one new item per template line, in order. */
  function ExpandTemplate(lines: seq<TemplateItem>, fallbackSets: int, fallbackReps: int,
                          uuid: nat -> string, k: nat): (r: seq<WorkoutItem>)
    ensures |r| == |lines|
    ensures forall i :: 0 <= i < |lines| ==> Instantiates(r[i], lines[i], fallbackSets, fallbackReps)
    decreases |lines|
  {
    if lines == [] then []
    else
      var n := OrDefault(lines[0].defaultSets, fallbackSets);
      [MakeItem(lines[0].exerciseId, n, OrDefault(lines[0].defaultReps, fallbackReps), uuid, k)]
      + ExpandTemplate(lines[1..], fallbackSets, fallbackReps, uuid, k + IdsPerItem(n))
  }

  /** `handleQuickAdd`: the items handed to `onAssignWorkout`. An exercise gives one item with the
      preferred sets and repetitions (3 and 10 when unset or zero); a template gives one item per line
      with 3 and 10 as fallbacks. */
  function QuickAdd(target: AddTarget, prefs: ExercisePreferences, uuid: nat -> string, k: nat): (r: seq<WorkoutItem>)
    ensures target.ExerciseTarget? ==>
              |r| == 1 && r[0].id == uuid(k) && r[0].exerciseId == target.exercise.id
              && |r[0].sets| == ArrayLength(PreferredSets(prefs, target.exercise.id))
              && forall j :: 0 <= j < |r[0].sets| ==>
                   r[0].sets[j].reps == RepsNumber(PreferredReps(prefs, target.exercise.id)) && !r[0].sets[j].completed
    ensures target.TemplateTarget? ==>
              |r| == |target.template.items|
              && forall i :: 0 <= i < |r| ==> Instantiates(r[i], target.template.items[i], 3, 10)
  {
    match target
    case ExerciseTarget(ex) => [MakeItem(ex.id, PreferredSets(prefs, ex.id), PreferredReps(prefs, ex.id), uuid, k)]
    case TemplateTarget(tpl) => ExpandTemplate(tpl.items, 3, 10, uuid, k)
  }

  /** What `handleConfirmAdd` hands to the root component: the preferences after
      `onUpdatePreference`, and the items for `onAssignWorkout`. */
  datatype ConfirmEffect = ConfirmEffect(preferences: ExercisePreferences, items: seq<WorkoutItem>)

  /** `handleConfirmAdd`: for an exercise, first record `(configSets, configReps)` as its preference,
      then one item with `configSets` sets (none when the count is zero or negative); for a template,
      one item per line with the dialog's values as fallbacks and the preferences unchanged. */
  function ConfirmAdd(target: AddTarget, configSets: int, configReps: int, prefs: ExercisePreferences,
                      uuid: nat -> string, k: nat): (r: ConfirmEffect)
    ensures target.ExerciseTarget? ==>
              && r.preferences == App.WithPreference(prefs, target.exercise.id, configSets, configReps)
              && |r.items| == 1 && r.items[0].exerciseId == target.exercise.id
              && |r.items[0].sets| == ArrayLength(configSets)
              && (configSets <= 0 ==> r.items[0].sets == [])
              && forall j :: 0 <= j < |r.items[0].sets| ==>
                   r.items[0].sets[j].reps == RepsNumber(configReps) && !r.items[0].sets[j].completed
    ensures target.TemplateTarget? ==>
              && r.preferences == prefs
              && |r.items| == |target.template.items|
              && forall i :: 0 <= i < |r.items| ==> Instantiates(r.items[i], target.template.items[i], configSets, configReps)
  {
    match target
    case ExerciseTarget(ex) =>
      ConfirmEffect(App.WithPreference(prefs, ex.id, configSets, configReps),
                    [MakeItem(ex.id, configSets, configReps, uuid, k)])
    case TemplateTarget(tpl) =>
      ConfirmEffect(prefs, ExpandTemplate(tpl.items, configSets, configReps, uuid, k))
  }

  /** A template "Leg Day" with one line (exercise "legs-1", 3 sets of 12) quick-added to 2024-03-01
      on an empty plan gives one workout on that date whose single item references "legs-1" and has
      exactly three uncompleted sets of 12. */
  lemma LegDayScenario(uuid: nat -> string)
    ensures var tpl := WorkoutTemplate("t1", "Leg Day", [TemplateItem("legs-1", 3, 12)]);
            var items := QuickAdd(TemplateTarget(tpl), map[], uuid, 0);
            var ws := App.AppendToDate([], "2024-03-01", items);
            && |ws| == 1 && ws[0].date == "2024-03-01" && |ws[0].items| == 1
            && ws[0].items[0].exerciseId == "legs-1"
            && ws[0].items[0].sets == [WorkoutSet(uuid(1), RepsNumber(12), false),
                                       WorkoutSet(uuid(2), RepsNumber(12), false),
                                       WorkoutSet(uuid(3), RepsNumber(12), false)]
  {
    var tpl := WorkoutTemplate("t1", "Leg Day", [TemplateItem("legs-1", 3, 12)]);
    var items := QuickAdd(TemplateTarget(tpl), map[], uuid, 0);
    assert items == [MakeItem("legs-1", 3, 12, uuid, 0)];
  }

  // ---------------------------------------------------------------------------------------------
  // Saving a day as a template

  /** `Number(reps)`: a number as it is; the conversion of typed text is the parameter `number`. */
  function RepsValue(reps: RepCount, number: string -> int): int {
    match reps
    case RepsNumber(n) => n
    case RepsText(s) => number(s)
  }

  /** The template line saved for a day's item: its set count, and the first set's repetitions
      (10 when it has no sets). */
  function LineOf(item: WorkoutItem, number: string -> int): (t: TemplateItem)
    ensures t.exerciseId == item.exerciseId && t.defaultSets == |item.sets|
    ensures t.defaultReps == if |item.sets| > 0 then RepsValue(item.sets[0].reps, number) else 10
  {
    TemplateItem(item.exerciseId, |item.sets|, if |item.sets| > 0 then RepsValue(item.sets[0].reps, number) else 10)
  }

  /** `handleConfirmSaveTemplate`: with a non-empty name and a workout on the selected day, a new
      template (id `newId`) with one line per item of the day, in order; otherwise nothing. */
  function SaveDayAsTemplate(name: string, selected: Option<DailyWorkout>, newId: string,
                             number: string -> int): (r: Option<WorkoutTemplate>)
    ensures r.Some? <==> name != "" && selected.Some?
    ensures r.Some? ==> r.value.id == newId && r.value.name == name
                        && |r.value.items| == |selected.value.items|
                        && forall i :: 0 <= i < |r.value.items| ==>
                             r.value.items[i] == LineOf(selected.value.items[i], number)
  {
    if name != "" && selected.Some? then
      Some(WorkoutTemplate(newId, name, seq(|selected.value.items|,
             i requires 0 <= i < |selected.value.items| => LineOf(selected.value.items[i], number))))
    else None
  }

  /** Adding a saved template back onto a day rebuilds the day's shape: the same exercises in the same
      order, and the same number of sets for every item that had sets. An item without sets is saved
      with 0 sets, which `0 || 3` turns into 3 sets. */
  lemma SavedTemplateExpandsToSameShape(name: string, day: DailyWorkout, newId: string,
                                        number: string -> int, uuid: nat -> string, k: nat)
    requires name != ""
    ensures var tpl := SaveDayAsTemplate(name, Some(day), newId, number).value;
            var items := QuickAdd(TemplateTarget(tpl), map[], uuid, k);
            && |items| == |day.items|
            && (forall i :: 0 <= i < |items| ==> items[i].exerciseId == day.items[i].exerciseId)
            && (forall i :: 0 <= i < |items| && |day.items[i].sets| > 0 ==> |items[i].sets| == |day.items[i].sets|)
            && (forall i :: 0 <= i < |items| && |day.items[i].sets| == 0 ==> |items[i].sets| == 3)
  {
    var tpl := SaveDayAsTemplate(name, Some(day), newId, number).value;
    var items := QuickAdd(TemplateTarget(tpl), map[], uuid, k);
    assert forall i :: 0 <= i < |items| ==> Instantiates(items[i], tpl.items[i], 3, 10);
  }

  // ---------------------------------------------------------------------------------------------
  // The week strip and the day preview

  /** `hasWorkout` of a day of the week strip: some record with that date has at least one item. */
  predicate HasWorkout(ws: seq<DailyWorkout>, key: string) {
    exists i :: 0 <= i < |ws| && ws[i].date == key && |ws[i].items| > 0
  }

  /** With unique dates, the strip marks a day exactly when its workout has items; assigning at least
      one item to a day marks it. */
  lemma HasWorkoutMatchesItems(ws: seq<DailyWorkout>, key: string, items: seq<WorkoutItem>)
    requires DatesUnique(ws)
    ensures HasWorkout(ws, key) <==> |App.ItemsOn(ws, key)| > 0
    ensures |items| > 0 ==> HasWorkout(App.AppendToDate(ws, key, items), key)
  {
    var p := (w: DailyWorkout) => w.date == key;
    match FindIndex(p, ws)
    case Some(k) =>
      assert forall i :: 0 <= i < |ws| && ws[i].date == key ==> i == k;
    case None =>
    App.AssignThenFind(ws, key, items, key);
    if |items| > 0 {
      var r := App.AppendToDate(ws, key, items);
      var k := FindIndex(p, r).value;
      assert r[k].date == key && |r[k].items| > 0;
    }
  }

  /** The day preview's remove button as the root component wires it. App.tsx renders the planning
      screen without an `onUpdateWorkout` prop, so the handler calls `undefined` and throws a
      TypeError; the workouts stay as they were. */
  function RemoveDayItemAsWired(ws: seq<DailyWorkout>, day: DailyWorkout, itemId: string): (r: Result<seq<DailyWorkout>, string>)
    ensures r.Failure?
  {
    Failure("TypeError: onUpdateWorkout is not a function")
  }

  /** The remove button as evidently intended: the day's items without `itemId`, upserted by date. */
  function RemoveDayItem(ws: seq<DailyWorkout>, day: DailyWorkout, itemId: string): (r: seq<DailyWorkout>)
    ensures DatesUnique(ws) ==> DatesUnique(r)
  {
    var kept := day.(items := Filter((i: WorkoutItem) => i.id != itemId, day.items));
    if DatesUnique(ws) then App.UpsertKeepsDatesUnique(ws, kept); App.UpsertByDate(ws, kept)
    else App.UpsertByDate(ws, kept)
  }

  /** Removing an item leaves the day without it, keeps the day's other items in order, and leaves
      every other date as it was. */
  lemma RemoveDayItemRemoves(ws: seq<DailyWorkout>, day: DailyWorkout, itemId: string, other: string)
    ensures var d := App.FindWorkout(RemoveDayItem(ws, day, itemId), day.date);
            && d.Some? && d.value.date == day.date
            && (forall i :: 0 <= i < |d.value.items| ==> d.value.items[i].id != itemId && d.value.items[i] in day.items)
            && (forall i :: 0 <= i < |day.items| && day.items[i].id != itemId ==> day.items[i] in d.value.items)
            && d.value.items == Filter((i: WorkoutItem) => i.id != itemId, day.items)
    ensures other != day.date ==> App.FindWorkout(RemoveDayItem(ws, day, itemId), other) == App.FindWorkout(ws, other)
  {
    var kept := day.(items := Filter((i: WorkoutItem) => i.id != itemId, day.items));
    App.UpsertThenFind(ws, kept, day.date);
    App.UpsertThenFind(ws, kept, other);
  }

  /** The discrepancy: on a plan whose only day holds one item, pressing its remove button as wired
      leaves the item in place, while the intended handler empties the day. */
  lemma RemoveButtonDoesNothingAsWired()
    ensures var item := WorkoutItem("i1", "legs-1", [], None);
            var day := DailyWorkout("2024-03-01", [item]);
            && RemoveDayItemAsWired([day], day, "i1").Failure?
            && RemoveDayItem([day], day, "i1") == [DailyWorkout("2024-03-01", [])]
  {
    var item := WorkoutItem("i1", "legs-1", [], None);
    var day := DailyWorkout("2024-03-01", [item]);
    assert Filter((i: WorkoutItem) => i.id != "i1", day.items) == [];
    assert App.FindWorkout([day], day.date).Some? by {
      FindIndexIsFirst((w: DailyWorkout) => w.date == day.date, [day], 0);
    }
  }
}
