/** The root component of App.tsx: the four held collections, the pure updaters its state handlers
    pass to React, and the derived "today's workout". */
module App {
  import opened Wrappers
  import opened Seqs
  import opened Types

  // ---------------------------------------------------------------------------------------------
  // Lookup by date

  /** `workouts.find(w => w.date === date)`. */
  function FindWorkout(ws: seq<DailyWorkout>, date: string): Option<DailyWorkout> {
    Find((w: DailyWorkout) => w.date == date, ws)
  }

  /** The items already scheduled on `date`: those of the first record with that date, or none. */
  function ItemsOn(ws: seq<DailyWorkout>, date: string): seq<WorkoutItem> {
    match FindWorkout(ws, date)
    case Some(w) => w.items
    case None => []
  }

  /** The derived `todayWorkout`: the first record whose date is today's key, or an empty placeholder. */
  function TodayWorkoutOf(ws: seq<DailyWorkout>, todayKey: string): (r: DailyWorkout)
    ensures r.date == todayKey
    ensures forall i :: (0 <= i < |ws| && ws[i].date == todayKey
                         && forall j :: 0 <= j < i ==> ws[j].date != todayKey) ==> r == ws[i]
    ensures (forall i :: 0 <= i < |ws| ==> ws[i].date != todayKey) ==> r == DailyWorkout(todayKey, [])
  {
    match FindWorkout(ws, todayKey)
    case Some(w) => w
    case None => DailyWorkout(todayKey, [])
  }

  /** Two lists with the same date at every position give the same `find` result on any date. */
  lemma SameDatesSameIndex(ws: seq<DailyWorkout>, rs: seq<DailyWorkout>, date: string)
    requires |ws| == |rs|
    requires forall i :: 0 <= i < |ws| ==> ws[i].date == rs[i].date
    ensures FindIndex((w: DailyWorkout) => w.date == date, ws) == FindIndex((w: DailyWorkout) => w.date == date, rs)
  {
    FindIndexCongruent((w: DailyWorkout) => w.date == date, ws, (w: DailyWorkout) => w.date == date, rs);
  }

  /** Appending a record does not change the answer for a date the record does not carry. */
  lemma FindAfterAppend(ws: seq<DailyWorkout>, w: DailyWorkout, date: string)
    ensures FindWorkout(ws + [w], date) == if FindWorkout(ws, date).Some? || w.date != date
                                           then FindWorkout(ws, date) else Some(w)
  {
    var p := (x: DailyWorkout) => x.date == date;
    var s := ws + [w];
    assert forall i :: 0 <= i < |ws| ==> s[i] == ws[i];
    match FindIndex(p, ws)
    case Some(k) =>
      FindIndexIsFirst(p, s, k);
    case None =>
      if w.date == date {
        FindIndexIsFirst(p, s, |ws|);
      } else {
        assert forall j :: 0 <= j < |s| ==> !p(s[j]);
      }
  }

  // ---------------------------------------------------------------------------------------------
  // handleUpdateToday: upsert by date

  /** The updater of `handleUpdateToday`: replace every record with the workout's date by the workout,
      or append the workout when no record has its date. */
  function UpsertByDate(ws: seq<DailyWorkout>, w: DailyWorkout): (r: seq<DailyWorkout>)
    ensures FindWorkout(ws, w.date).Some? ==> |r| == |ws|
    ensures FindWorkout(ws, w.date).Some? ==>
              forall i :: 0 <= i < |ws| ==> r[i] == if ws[i].date == w.date then w else ws[i]
    ensures FindWorkout(ws, w.date).None? ==> r == ws + [w]
  {
    if FindWorkout(ws, w.date).Some? then
      seq(|ws|, i requires 0 <= i < |ws| => if ws[i].date == w.date then w else ws[i])
    else ws + [w]
  }

  /** After an upsert, looking up the workout's date finds the workout, and every other date finds
      what it found before. */
  lemma UpsertThenFind(ws: seq<DailyWorkout>, w: DailyWorkout, date: string)
    ensures FindWorkout(UpsertByDate(ws, w), date) == if date == w.date then Some(w) else FindWorkout(ws, date)
  {
    var r := UpsertByDate(ws, w);
    if FindWorkout(ws, w.date).Some? {
      SameDatesSameIndex(ws, r, date);
    } else {
      FindAfterAppend(ws, w, date);
    }
  }

  /** Upserting keeps dates unique and grows the list by at most one record. */
  lemma UpsertKeepsDatesUnique(ws: seq<DailyWorkout>, w: DailyWorkout)
    requires DatesUnique(ws)
    ensures DatesUnique(UpsertByDate(ws, w))
    ensures |ws| <= |UpsertByDate(ws, w)| <= |ws| + 1
  {
  }

  // ---------------------------------------------------------------------------------------------
  // handleAssignWorkout: append items on a date

  /** The updater of `handleAssignWorkout`: on a known date the new items go after the existing ones;
      on a new date a record `{date, items}` is appended. */
  function AppendToDate(ws: seq<DailyWorkout>, date: string, items: seq<WorkoutItem>): (r: seq<DailyWorkout>)
    ensures FindWorkout(ws, date).Some? ==> |r| == |ws|
    ensures FindWorkout(ws, date).Some? ==>
              forall i :: 0 <= i < |ws| ==>
                r[i] == if ws[i].date == date then DailyWorkout(date, ws[i].items + items) else ws[i]
    ensures FindWorkout(ws, date).None? ==> r == ws + [DailyWorkout(date, items)]
  {
    if FindWorkout(ws, date).Some? then
      seq(|ws|, i requires 0 <= i < |ws| => if ws[i].date == date then ws[i].(items := ws[i].items + items) else ws[i])
    else ws + [DailyWorkout(date, items)]
  }

  /** After an assignment the date holds its previous items followed by the new ones, and every other
      date is looked up as before. */
  lemma AssignThenFind(ws: seq<DailyWorkout>, date: string, items: seq<WorkoutItem>, other: string)
    ensures FindWorkout(AppendToDate(ws, date, items), date) == Some(DailyWorkout(date, ItemsOn(ws, date) + items))
    ensures other != date ==> FindWorkout(AppendToDate(ws, date, items), other) == FindWorkout(ws, other)
  {
    var r := AppendToDate(ws, date, items);
    if FindWorkout(ws, date).Some? {
      SameDatesSameIndex(ws, r, date);
      SameDatesSameIndex(ws, r, other);
    } else {
      FindAfterAppend(ws, DailyWorkout(date, items), date);
      FindAfterAppend(ws, DailyWorkout(date, items), other);
      assert ItemsOn(ws, date) + items == items;
    }
  }

  /** Two successive assignments to one date leave its items in call order. */
  lemma AssignTwiceInCallOrder(ws: seq<DailyWorkout>, date: string, first: seq<WorkoutItem>, second: seq<WorkoutItem>)
    ensures ItemsOn(AppendToDate(AppendToDate(ws, date, first), date, second), date)
            == ItemsOn(ws, date) + first + second
  {
    AssignThenFind(ws, date, first, date);
    AssignThenFind(AppendToDate(ws, date, first), date, second, date);
  }

  /** Assigning keeps dates unique and grows the list by at most one record. */
  lemma AssignKeepsDatesUnique(ws: seq<DailyWorkout>, date: string, items: seq<WorkoutItem>)
    requires DatesUnique(ws)
    ensures DatesUnique(AppendToDate(ws, date, items))
    ensures |ws| <= |AppendToDate(ws, date, items)| <= |ws| + 1
  {
  }

  // ---------------------------------------------------------------------------------------------
  // handleUpdatePreference

  /** The updater of `handleUpdatePreference`: the entry of `exerciseId` becomes `(sets, reps)` and
      every other entry stays as it was. */
  function WithPreference(prefs: ExercisePreferences, exerciseId: string, sets: int, reps: int): (r: ExercisePreferences)
    ensures r.Keys == prefs.Keys + {exerciseId}
    ensures r[exerciseId] == Preference(sets, reps)
    ensures forall k :: k in prefs && k != exerciseId ==> r[k] == prefs[k]
  {
    prefs[exerciseId := Preference(sets, reps)]
  }

  // ---------------------------------------------------------------------------------------------
  // Exercises

  /** The updater of `handleToggleFavorite`: `isFavorite` becomes `!isFavorite` on every exercise with
      the id (an absent flag counting as false); nothing else changes. */
  function WithFavoriteToggled(es: seq<Exercise>, id: string): (r: seq<Exercise>)
    ensures |r| == |es|
    ensures forall i :: 0 <= i < |es| ==> r[i].(isFavorite := es[i].isFavorite) == es[i]
    ensures forall i :: 0 <= i < |es| && es[i].id == id ==> r[i].isFavorite == Some(!IsTrue(es[i].isFavorite))
    ensures forall i :: 0 <= i < |es| && es[i].id != id ==> r[i] == es[i]
  {
    seq(|es|, i requires 0 <= i < |es| =>
      if es[i].id == id then es[i].(isFavorite := Some(!IsTrue(es[i].isFavorite))) else es[i])
  }

  /** Toggling twice restores whether each exercise is a favourite and changes no other field; the
      list comes back exactly when every matching exercise had its flag set. */
  lemma ToggleFavoriteTwice(es: seq<Exercise>, id: string)
    ensures |WithFavoriteToggled(WithFavoriteToggled(es, id), id)| == |es|
    ensures forall i :: 0 <= i < |es| ==>
              IsTrue(WithFavoriteToggled(WithFavoriteToggled(es, id), id)[i].isFavorite) == IsTrue(es[i].isFavorite)
    ensures (forall i :: 0 <= i < |es| && es[i].id == id ==> es[i].isFavorite.Some?) ==>
              WithFavoriteToggled(WithFavoriteToggled(es, id), id) == es
  {
    var r := WithFavoriteToggled(WithFavoriteToggled(es, id), id);
    if forall i :: 0 <= i < |es| && es[i].id == id ==> es[i].isFavorite.Some? {
      forall i | 0 <= i < |es| ensures r[i] == es[i] {
        if es[i].id == id {
          var b := es[i].isFavorite.value;
          assert IsTrue(Some(b)) == b;
          assert IsTrue(Some(!b)) == !b;
        }
      }
    }
  }

  /** The updater of a confirmed `handleDeleteExercise`: every exercise with the id is dropped and the
      others are kept. */
  function WithoutExercise(es: seq<Exercise>, id: string): (r: seq<Exercise>)
    ensures forall i :: 0 <= i < |r| ==> r[i].id != id && r[i] in es
    ensures forall i :: 0 <= i < |es| && es[i].id != id ==> es[i] in r
    ensures (forall i :: 0 <= i < |es| ==> es[i].id != id) ==> r == es
  {
    var keep := (e: Exercise) => e.id != id;
    if forall i :: 0 <= i < |es| ==> es[i].id != id then
      FilterKeepsAll(keep, es); Filter(keep, es)
    else Filter(keep, es)
  }

  /** Deleting keeps the survivors in their order: it works element by element over a concatenation. */
  lemma WithoutExerciseKeepsOrder(a: seq<Exercise>, b: seq<Exercise>, id: string)
    ensures WithoutExercise(a + b, id) == WithoutExercise(a, id) + WithoutExercise(b, id)
  {
    FilterAppend((e: Exercise) => e.id != id, a, b);
  }

  // ---------------------------------------------------------------------------------------------
  // Templates

  /** The updater of `handleUpdateTemplate`: every template with the updated one's id is replaced by it. */
  function WithTemplateReplaced(ts: seq<WorkoutTemplate>, t: WorkoutTemplate): (r: seq<WorkoutTemplate>)
    ensures |r| == |ts|
    ensures forall i :: 0 <= i < |ts| ==> r[i] == if ts[i].id == t.id then t else ts[i]
  {
    seq(|ts|, i requires 0 <= i < |ts| => if ts[i].id == t.id then t else ts[i])
  }

  /** Replacing keeps ids unique; the template is then found under its id, and replacing an id no
      template has changes nothing. */
  lemma ReplaceTemplateProperties(ts: seq<WorkoutTemplate>, t: WorkoutTemplate)
    ensures TemplateIdsUnique(ts) ==> TemplateIdsUnique(WithTemplateReplaced(ts, t))
    ensures (forall i :: 0 <= i < |ts| ==> ts[i].id != t.id) ==> WithTemplateReplaced(ts, t) == ts
    ensures (exists i :: 0 <= i < |ts| && ts[i].id == t.id) ==> t in WithTemplateReplaced(ts, t)
  {
    var r := WithTemplateReplaced(ts, t);
    assert forall i :: 0 <= i < |ts| ==> r[i].id == ts[i].id;
    if exists i :: 0 <= i < |ts| && ts[i].id == t.id {
      var i :| 0 <= i < |ts| && ts[i].id == t.id;
      assert r[i] == t;
    }
  }

  /** The updater of a confirmed `handleDeleteTemplate`: every template with the id is dropped. */
  function WithoutTemplate(ts: seq<WorkoutTemplate>, id: string): (r: seq<WorkoutTemplate>)
    ensures forall i :: 0 <= i < |r| ==> r[i].id != id && r[i] in ts
    ensures forall i :: 0 <= i < |ts| && ts[i].id != id ==> ts[i] in r
    ensures (forall i :: 0 <= i < |ts| ==> ts[i].id != id) ==> r == ts
  {
    var keep := (t: WorkoutTemplate) => t.id != id;
    if forall i :: 0 <= i < |ts| ==> ts[i].id != id then
      FilterKeepsAll(keep, ts); Filter(keep, ts)
    else Filter(keep, ts)
  }

  // ---------------------------------------------------------------------------------------------
  // The root component's state

  /** The collections App.tsx holds with `useState`; each handler replaces one of them. */
  class AppState {
    var exercises: seq<Exercise>
    var workouts: seq<DailyWorkout>
    var templates: seq<WorkoutTemplate>
    var preferences: ExercisePreferences

    /** The state after start-up, from the collections read back from storage (or their defaults). */
    constructor (exercises0: seq<Exercise>, workouts0: seq<DailyWorkout>,
                 templates0: seq<WorkoutTemplate>, preferences0: ExercisePreferences)
      ensures exercises == exercises0 && workouts == workouts0
      ensures templates == templates0 && preferences == preferences0
    {
      exercises, workouts, templates, preferences := exercises0, workouts0, templates0, preferences0;
    }

    /** `todayWorkout`, given the local key of the current date. */
    function Today(todayKey: string): (r: DailyWorkout)
      reads this
      ensures r.date == todayKey
      ensures r.items == ItemsOn(workouts, todayKey)
    {
      TodayWorkoutOf(workouts, todayKey)
    }

    method UpdateToday(w: DailyWorkout)
      modifies this
      ensures workouts == UpsertByDate(old(workouts), w)
      ensures FindWorkout(workouts, w.date) == Some(w)
      ensures DatesUnique(old(workouts)) ==> DatesUnique(workouts)
      ensures exercises == old(exercises) && templates == old(templates) && preferences == old(preferences)
    {
      UpsertThenFind(workouts, w, w.date);
      workouts := UpsertByDate(workouts, w);
    }

    method AssignWorkout(date: string, items: seq<WorkoutItem>)
      modifies this
      ensures workouts == AppendToDate(old(workouts), date, items)
      ensures ItemsOn(workouts, date) == ItemsOn(old(workouts), date) + items
      ensures DatesUnique(old(workouts)) ==> DatesUnique(workouts)
      ensures exercises == old(exercises) && templates == old(templates) && preferences == old(preferences)
    {
      AssignThenFind(workouts, date, items, date);
      workouts := AppendToDate(workouts, date, items);
    }

    method UpdatePreference(exerciseId: string, sets: int, reps: int)
      modifies this
      ensures preferences == WithPreference(old(preferences), exerciseId, sets, reps)
      ensures exercises == old(exercises) && workouts == old(workouts) && templates == old(templates)
    {
      preferences := WithPreference(preferences, exerciseId, sets, reps);
    }

    method AddExercise(e: Exercise)
      modifies this
      ensures exercises == old(exercises) + [e]
      ensures workouts == old(workouts) && templates == old(templates) && preferences == old(preferences)
    {
      exercises := exercises + [e];
    }

    /** `confirmed` is the answer of the `confirm()` dialog. */
    method DeleteExercise(id: string, confirmed: bool)
      modifies this
      ensures exercises == if confirmed then WithoutExercise(old(exercises), id) else old(exercises)
      ensures workouts == old(workouts) && templates == old(templates) && preferences == old(preferences)
    {
      if confirmed {
        exercises := WithoutExercise(exercises, id);
      }
    }

    method ToggleFavorite(id: string)
      modifies this
      ensures exercises == WithFavoriteToggled(old(exercises), id)
      ensures workouts == old(workouts) && templates == old(templates) && preferences == old(preferences)
    {
      exercises := WithFavoriteToggled(exercises, id);
    }

    method AddTemplate(t: WorkoutTemplate)
      modifies this
      ensures templates == old(templates) + [t]
      ensures exercises == old(exercises) && workouts == old(workouts) && preferences == old(preferences)
    {
      templates := templates + [t];
    }

    method UpdateTemplate(t: WorkoutTemplate)
      modifies this
      ensures templates == WithTemplateReplaced(old(templates), t)
      ensures exercises == old(exercises) && workouts == old(workouts) && preferences == old(preferences)
    {
      templates := WithTemplateReplaced(templates, t);
    }

    /** `confirmed` is the answer of the `confirm()` dialog. */
    method DeleteTemplate(id: string, confirmed: bool)
      modifies this
      ensures templates == if confirmed then WithoutTemplate(old(templates), id) else old(templates)
      ensures exercises == old(exercises) && workouts == old(workouts) && preferences == old(preferences)
    {
      if confirmed {
        templates := WithoutTemplate(templates, id);
      }
    }
  }
}
