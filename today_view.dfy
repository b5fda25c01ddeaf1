/** The per-set editing of today's workout (components/TodayView.tsx). Each edit rebuilds the day's
    workout and hands it to `onUpdateWorkout`; the result here is that argument, or `None` when the
    view has no workout and the edit returns without calling back. */
module TodayView {
  import opened Wrappers
  import opened Seqs
  import opened Types

  /** `items.map(item => item.id !== itemId ? item : f(item))`. */
  function MapMatchingItems(items: seq<WorkoutItem>, itemId: string, f: WorkoutItem -> WorkoutItem): (r: seq<WorkoutItem>)
    ensures |r| == |items|
    ensures forall i :: 0 <= i < |items| ==> r[i] == if items[i].id == itemId then f(items[i]) else items[i]
  {
    seq(|items|, i requires 0 <= i < |items| => if items[i].id == itemId then f(items[i]) else items[i])
  }

  /** Replaces the items of the workout, if there is one. */
  function WithItems(w: Option<DailyWorkout>, itemId: string, f: WorkoutItem -> WorkoutItem): (r: Option<DailyWorkout>)
    ensures w.None? <==> r.None?
    ensures w.Some? ==> r.value.date == w.value.date
  {
    match w
    case None => None
    case Some(d) => Some(d.(items := MapMatchingItems(d.items, itemId, f)))
  }

  // ---------------------------------------------------------------------------------------------
  // toggleSetComplete

  function ToggledSets(sets: seq<WorkoutSet>, setId: string): (r: seq<WorkoutSet>)
    ensures |r| == |sets|
    ensures forall j :: 0 <= j < |sets| ==> r[j].id == sets[j].id && r[j].reps == sets[j].reps
    ensures forall j :: 0 <= j < |sets| ==> r[j].completed == (sets[j].completed != (sets[j].id == setId))
  {
    seq(|sets|, j requires 0 <= j < |sets| =>
      if sets[j].id == setId then sets[j].(completed := !sets[j].completed) else sets[j])
  }

  /** `toggleSetComplete(itemId, setId)`: flips `completed` on the sets with `setId` inside the items
      with `itemId`. */
  function ToggleSetComplete(w: Option<DailyWorkout>, itemId: string, setId: string): (r: Option<DailyWorkout>)
    ensures w.None? ==> r.None?
    ensures w.Some? ==> r.Some? && r.value.date == w.value.date && |r.value.items| == |w.value.items|
    ensures w.Some? ==> forall i :: 0 <= i < |w.value.items| && w.value.items[i].id != itemId ==>
                          r.value.items[i] == w.value.items[i]
    ensures w.Some? ==> forall i :: 0 <= i < |w.value.items| && w.value.items[i].id == itemId ==>
                          r.value.items[i] == w.value.items[i].(sets := ToggledSets(w.value.items[i].sets, setId))
  {
    WithItems(w, itemId, (item: WorkoutItem) => item.(sets := ToggledSets(item.sets, setId)))
  }

  /** Toggling the same set twice gives back the workout. */
  lemma ToggleSetCompleteTwice(w: Option<DailyWorkout>, itemId: string, setId: string)
    ensures ToggleSetComplete(ToggleSetComplete(w, itemId, setId), itemId, setId) == w
  {
    if w.Some? {
      var items := w.value.items;
      var once := ToggleSetComplete(w, itemId, setId).value.items;
      var twice := ToggleSetComplete(ToggleSetComplete(w, itemId, setId), itemId, setId).value.items;
      forall i | 0 <= i < |items| ensures twice[i] == items[i] {
        if items[i].id == itemId {
          var sets := items[i].sets;
          var back := ToggledSets(ToggledSets(sets, setId), setId);
          assert forall j :: 0 <= j < |sets| ==> back[j] == sets[j];
          assert back == sets;
        }
      }
      assert twice == items;
    }
  }

  // ---------------------------------------------------------------------------------------------
  // updateSetData

  function SetsWithReps(sets: seq<WorkoutSet>, setId: string, value: string): (r: seq<WorkoutSet>)
    ensures |r| == |sets|
    ensures forall j :: 0 <= j < |sets| ==> r[j].id == sets[j].id && r[j].completed == sets[j].completed
    ensures forall j :: 0 <= j < |sets| ==> r[j].reps == if sets[j].id == setId then RepsText(value) else sets[j].reps
  {
    seq(|sets|, j requires 0 <= j < |sets| => if sets[j].id == setId then sets[j].(reps := RepsText(value)) else sets[j])
  }

  /** `updateSetData(itemId, setId, value)`: the matching sets take the typed text as their
      repetitions; ids and completion are kept. */
  function UpdateSetData(w: Option<DailyWorkout>, itemId: string, setId: string, value: string): (r: Option<DailyWorkout>)
    ensures w.None? ==> r.None?
    ensures w.Some? ==> r.Some? && r.value.date == w.value.date && |r.value.items| == |w.value.items|
    ensures w.Some? ==> forall i :: 0 <= i < |w.value.items| && w.value.items[i].id != itemId ==>
                          r.value.items[i] == w.value.items[i]
    ensures w.Some? ==> forall i :: 0 <= i < |w.value.items| && w.value.items[i].id == itemId ==>
                          r.value.items[i] == w.value.items[i].(sets := SetsWithReps(w.value.items[i].sets, setId, value))
  {
    WithItems(w, itemId, (item: WorkoutItem) => item.(sets := SetsWithReps(item.sets, setId, value)))
  }

  /** Typing the same value again changes nothing more. */
  lemma UpdateSetDataIdempotent(w: Option<DailyWorkout>, itemId: string, setId: string, value: string)
    ensures UpdateSetData(UpdateSetData(w, itemId, setId, value), itemId, setId, value)
            == UpdateSetData(w, itemId, setId, value)
  {
    if w.Some? {
      var items := w.value.items;
      var once := UpdateSetData(w, itemId, setId, value).value.items;
      var twice := UpdateSetData(UpdateSetData(w, itemId, setId, value), itemId, setId, value).value.items;
      forall i | 0 <= i < |items| ensures twice[i] == once[i] {
        if items[i].id == itemId {
          var sets := once[i].sets;
          assert SetsWithReps(sets, setId, value) == sets;
        }
      }
      assert twice == once;
    }
  }

  // ---------------------------------------------------------------------------------------------
  // addSet and removeSet

  /** The set `addSet` appends: repetitions copied from the last set (10 when there is none), not
      completed, with a fresh id. */
  function NextSet(sets: seq<WorkoutSet>, newId: string): WorkoutSet {
    WorkoutSet(newId, if |sets| > 0 then sets[|sets| - 1].reps else RepsNumber(10), false)
  }

  /** `addSet(itemId)`: one more set at the end of each matching item. `newId` is the fresh id. */
  function AddSet(w: Option<DailyWorkout>, itemId: string, newId: string): (r: Option<DailyWorkout>)
    ensures w.None? ==> r.None?
    ensures w.Some? ==> r.Some? && r.value.date == w.value.date && |r.value.items| == |w.value.items|
    ensures w.Some? ==> forall i :: 0 <= i < |w.value.items| && w.value.items[i].id != itemId ==>
                          r.value.items[i] == w.value.items[i]
    ensures w.Some? ==> forall i :: 0 <= i < |w.value.items| && w.value.items[i].id == itemId ==>
                          var old_ := w.value.items[i]; var new_ := r.value.items[i];
                          && new_.(sets := old_.sets) == old_
                          && |new_.sets| == |old_.sets| + 1
                          && new_.sets[..|old_.sets|] == old_.sets
                          && new_.sets[|old_.sets|].id == newId
                          && !new_.sets[|old_.sets|].completed
                          && new_.sets[|old_.sets|].reps == if |old_.sets| > 0 then old_.sets[|old_.sets| - 1].reps else RepsNumber(10)
  {
    WithItems(w, itemId, (item: WorkoutItem) => item.(sets := item.sets + [NextSet(item.sets, newId)]))
  }

  function SetsWithout(sets: seq<WorkoutSet>, setId: string): (r: seq<WorkoutSet>)
    ensures forall j :: 0 <= j < |r| ==> r[j].id != setId && r[j] in sets
    ensures forall j :: 0 <= j < |sets| && sets[j].id != setId ==> sets[j] in r
  {
    Filter((s: WorkoutSet) => s.id != setId, sets)
  }

  /** `removeSet(itemId, setId)`: the sets with `setId` leave the matching items; the remaining sets
      keep their order. */
  function RemoveSet(w: Option<DailyWorkout>, itemId: string, setId: string): (r: Option<DailyWorkout>)
    ensures w.None? ==> r.None?
    ensures w.Some? ==> r.Some? && r.value.date == w.value.date && |r.value.items| == |w.value.items|
    ensures w.Some? ==> forall i :: 0 <= i < |w.value.items| && w.value.items[i].id != itemId ==>
                          r.value.items[i] == w.value.items[i]
    ensures w.Some? ==> forall i :: 0 <= i < |w.value.items| && w.value.items[i].id == itemId ==>
                          r.value.items[i] == w.value.items[i].(sets := SetsWithout(w.value.items[i].sets, setId))
  {
    WithItems(w, itemId, (item: WorkoutItem) => item.(sets := SetsWithout(item.sets, setId)))
  }

  /** Removing the set that was just added, under a fresh id no set of the item had, undoes `addSet`. */
  lemma RemoveSetUndoesAddSet(w: Option<DailyWorkout>, itemId: string, newId: string)
    requires w.Some? ==> forall i, j :: (0 <= i < |w.value.items| && w.value.items[i].id == itemId
                                         && 0 <= j < |w.value.items[i].sets|) ==> w.value.items[i].sets[j].id != newId
    ensures RemoveSet(AddSet(w, itemId, newId), itemId, newId) == w
  {
    if w.Some? {
      var items := w.value.items;
      var back := RemoveSet(AddSet(w, itemId, newId), itemId, newId).value.items;
      forall i | 0 <= i < |items| ensures back[i] == items[i] {
        if items[i].id == itemId {
          var sets := items[i].sets;
          var keep := (s: WorkoutSet) => s.id != newId;
          FilterAppend(keep, sets, [NextSet(sets, newId)]);
          FilterKeepsAll(keep, sets);
        }
      }
      assert back == items;
    }
  }

  // ---------------------------------------------------------------------------------------------
  // Progress

  /** `totalSets`: the number of sets over all items. */
  function TotalSets(items: seq<WorkoutItem>): nat {
    if items == [] then 0 else |items[0].sets| + TotalSets(items[1..])
  }

  predicate IsCompleted(s: WorkoutSet) {
    s.completed
  }

  /** `completedSets`: the number of completed sets over all items; never more than `totalSets`. */
  function CompletedSets(items: seq<WorkoutItem>): (n: nat)
    ensures n <= TotalSets(items)
  {
    if items == [] then 0 else Count(IsCompleted, items[0].sets) + CompletedSets(items[1..])
  }

  /** `progress`: 0 with no sets, otherwise the completed share as a percentage rounded half up
      (`Math.round`). */
  function Progress(completed: nat, total: nat): int {
    if total == 0 then 0 else (200 * completed + total) / (2 * total)
  }

  lemma MulAtLeast(a: int, d: int)
    requires a >= 1 && d > 0
    ensures a * d >= d
  {
  }

  lemma FactorPositive(a: int, d: int)
    requires d > 0 && a * d > 0
    ensures a > 0
  {
  }

  /** Integer division is determined by quotient and remainder. */
  lemma DivIs(n: int, d: int, k: int, r: int)
    requires d > 0 && 0 <= r < d && n == k * d + r
    ensures n / d == k
  {
    var q, m := n / d, n % d;
    assert (q - k) * d == r - m;
    if q > k { MulAtLeast(q - k, d); }
    if k > q { MulAtLeast(k - q, d); }
  }

  /** A rounded percentage of a part of a whole lies within 0..100, is 0 for no part and 100 for
      the whole. */
  lemma {:induction false} RoundedPercent(c: nat, t: nat)
    requires c <= t
    ensures 0 <= Progress(c, t) <= 100
    ensures c == 0 ==> Progress(c, t) == 0
    ensures 0 < t == c ==> Progress(c, t) == 100
  {
    if t > 0 {
      var n, d := 200 * c + t, 2 * t;
      var q := n / d;
      assert q * d <= n < 101 * d;
      assert (101 - q) * d == 101 * d - q * d;
      FactorPositive(101 - q, d);
      if c == 0 { DivIs(n, d, 0, t); }
      if c == t { DivIs(n, d, 100, t); }
    }
  }

  /** The header's percentage lies within 0..100, is 0 when nothing is completed (in particular when
      there are no sets) and 100 when every set is. */
  lemma ProgressBounds(items: seq<WorkoutItem>)
    ensures 0 <= Progress(CompletedSets(items), TotalSets(items)) <= 100
    ensures CompletedSets(items) == 0 ==> Progress(CompletedSets(items), TotalSets(items)) == 0
    ensures 0 < TotalSets(items) == CompletedSets(items) ==> Progress(CompletedSets(items), TotalSets(items)) == 100
  {
    RoundedPercent(CompletedSets(items), TotalSets(items));
  }

  /** `isFullyComplete` of an item card: every set completed, and at least one set. */
  predicate IsFullyComplete(item: WorkoutItem) {
    Count(IsCompleted, item.sets) == |item.sets| && |item.sets| > 0
  }

  /** The card shows an item as done exactly when it has sets and all of them are completed. */
  lemma FullyCompleteMeansAllDone(item: WorkoutItem)
    ensures IsFullyComplete(item) <==>
              |item.sets| > 0 && forall j :: 0 <= j < |item.sets| ==> item.sets[j].completed
  {
    CountIsLengthIffAll(IsCompleted, item.sets);
  }
}
