/** The cloud synchronisation of services/syncService.ts. Each sync reads the signed-in user and the
    remote rows, uploads the local records the remote side lacks, and returns the merged list. The
    session lookup and the database calls are inputs: `user` is the signed-in user's id, if any, and
    `fetched` is the answer of the `select('*')` query. The answers of the uploads are not read by the
    source, so the model returns the rows it would upload next to the merged list. */
module SyncService {
  import opened Wrappers
  import opened Seqs
  import opened Types
  import App

  /** Why a sync throws. */
  datatype SyncError = NotLoggedIn | FetchFailed(message: string)

  /** What a successful sync produces: the merged list and the rows sent for upload. */
  datatype Synced<T, R> = Synced(merged: seq<T>, upload: seq<R>)

  // ---------------------------------------------------------------------------------------------
  // Rows

  /** A row of the `exercises` table. The category column is read back with an unchecked cast; a value
      outside the nine categories is `None`, as on `Exercise`. */
  datatype ExerciseRow = ExerciseRow(id: string, userId: string, name: string, category: Option<ExerciseCategory>,
                                     muscleGroup: Option<string>, exType: Option<ExerciseType>, isFavorite: Option<bool>)

  /** A row of the `workout_templates` table; `items` is the JSON column. */
  datatype TemplateRow = TemplateRow(id: string, userId: string, name: string, items: seq<TemplateItem>)

  /** A row of the `daily_workouts` table; uploaded rows carry no id. */
  datatype WorkoutRow = WorkoutRow(id: Option<string>, userId: string, dateKey: string, items: seq<WorkoutItem>)

  /** `remoteData.map(dbEx => ({ id, name, category, muscleGroup, type, isFavorite }))`. */
  function ExerciseFromRow(row: ExerciseRow): Exercise {
    Exercise(row.id, row.name, row.category, row.muscleGroup, row.isFavorite, row.exType)
  }

  /** The uploaded row of an exercise: the exercise's fields and the user's id; reading it back gives
      the exercise. */
  function ExerciseToRow(e: Exercise, userId: string): (row: ExerciseRow)
    ensures row.userId == userId && ExerciseFromRow(row) == e
  {
    ExerciseRow(e.id, userId, e.name, e.category, e.muscleGroup, e.exType, e.isFavorite)
  }

  /** Reading a row and uploading it again for its own user gives the row. */
  lemma ExerciseRowRoundTrip(row: ExerciseRow)
    ensures ExerciseToRow(ExerciseFromRow(row), row.userId) == row
  {
  }

  function TemplateFromRow(row: TemplateRow): WorkoutTemplate {
    WorkoutTemplate(row.id, row.name, row.items)
  }

  function TemplateToRow(t: WorkoutTemplate, userId: string): (row: TemplateRow)
    ensures row.userId == userId && TemplateFromRow(row) == t
  {
    TemplateRow(t.id, userId, t.name, t.items)
  }

  /** `remoteData.map(w => ({ id, date: w.date_key, items }))`; the extra `id` property is not part
      of the workout type and is dropped. */
  function WorkoutFromRow(row: WorkoutRow): DailyWorkout {
    DailyWorkout(row.dateKey, row.items)
  }

  /** The upserted row of a workout: the user, the date key and the items, without an id. */
  function WorkoutToRow(w: DailyWorkout, userId: string): (row: WorkoutRow)
    ensures row.userId == userId && row.id == None && WorkoutFromRow(row) == w
  {
    WorkoutRow(None, userId, w.date, w.items)
  }

  // ---------------------------------------------------------------------------------------------
  // Union by key, remote first

  /** The keys of a list: `new Set(list.map(key))`. */
  function KeysOf<T>(s: seq<T>, key: T -> string): set<string> {
    set i | 0 <= i < |s| :: key(s[i])
  }

  predicate KeysUnique<T>(s: seq<T>, key: T -> string) {
    forall i, j :: 0 <= i < j < |s| ==> key(s[i]) != key(s[j])
  }

  /** `toUpload`: the local records whose key the remote side does not have, in local order. */
  function Unseen<T>(local: seq<T>, key: T -> string, seen: set<string>): (r: seq<T>)
    ensures forall i :: 0 <= i < |r| ==> r[i] in local && key(r[i]) !in seen
    ensures forall i :: 0 <= i < |local| && key(local[i]) !in seen ==> local[i] in r
  {
    Filter((x: T) => key(x) !in seen, local)
  }

  /** Keeping some of the records of a list with unique keys keeps the keys unique. */
  lemma {:induction false} FilterKeepsKeysUnique<T>(p: T -> bool, s: seq<T>, key: T -> string)
    requires KeysUnique(s, key)
    ensures KeysUnique(Filter(p, s), key)
    decreases |s|
  {
    if s != [] {
      FilterKeepsKeysUnique(p, s[1..], key);
      var rest := Filter(p, s[1..]);
      forall i | 0 <= i < |rest| ensures key(rest[i]) != key(s[0]) {
        var j :| 0 <= j < |s[1..]| && s[1..][j] == rest[i];
        assert s[j + 1] == rest[i];
      }
    }
  }

  /** The list a sync of exercises or templates returns: the remote records, then the unseen local
      ones. */
  function RemoteFirstUnion<T>(remote: seq<T>, local: seq<T>, key: T -> string): seq<T> {
    remote + Unseen(local, key, KeysOf(remote, key))
  }

  /** What the remote-first union promises: the remote records come first and unchanged; each later
      record is a local one whose key the remote side lacks; every local key is present. */
  ghost predicate RemoteFirst<T>(merged: seq<T>, remote: seq<T>, local: seq<T>, key: T -> string) {
    && |remote| <= |merged|
    && merged[..|remote|] == remote
    && (forall j :: |remote| <= j < |merged| ==> merged[j] in local && key(merged[j]) !in KeysOf(remote, key))
    && (forall i :: 0 <= i < |local| && key(local[i]) !in KeysOf(remote, key) ==> local[i] in merged[|remote|..])
    && (forall i :: 0 <= i < |local| ==> key(local[i]) in KeysOf(merged, key))
  }

  /** The union keeps its promises, and with unique keys on each side the result has unique keys. */
  lemma RemoteFirstUnionProperties<T>(remote: seq<T>, local: seq<T>, key: T -> string)
    ensures RemoteFirst(RemoteFirstUnion(remote, local, key), remote, local, key)
    ensures KeysUnique(remote, key) && KeysUnique(local, key) ==> KeysUnique(RemoteFirstUnion(remote, local, key), key)
  {
    var seen := KeysOf(remote, key);
    var up := Unseen(local, key, seen);
    var merged := remote + up;
    assert merged[|remote|..] == up;
    forall j | |remote| <= j < |merged| ensures merged[j] in local && key(merged[j]) !in seen {
      assert merged[j] == up[j - |remote|];
    }
    forall i | 0 <= i < |local| ensures key(local[i]) in KeysOf(merged, key) {
      if key(local[i]) in seen {
        var k :| 0 <= k < |remote| && key(remote[k]) == key(local[i]);
        assert merged[k] == remote[k];
      } else {
        var k :| 0 <= k < |up| && up[k] == local[i];
        assert merged[|remote| + k] == local[i];
      }
    }
    if KeysUnique(remote, key) && KeysUnique(local, key) {
      FilterKeepsKeysUnique((x: T) => key(x) !in seen, local, key);
      forall a, b | 0 <= a < b < |merged| ensures key(merged[a]) != key(merged[b]) {
        if b >= |remote| && a < |remote| {
          assert key(merged[a]) in seen;
        } else if a >= |remote| {
          assert merged[a] == up[a - |remote|] && merged[b] == up[b - |remote|];
        }
      }
    }
  }

  /** Syncing the merged list again against the same remote side uploads nothing new beyond what the
      first sync uploaded: the unseen part is the same. */
  lemma UnionIsStable<T>(remote: seq<T>, local: seq<T>, key: T -> string)
    ensures Unseen(RemoteFirstUnion(remote, local, key), key, KeysOf(remote, key)) == Unseen(local, key, KeysOf(remote, key))
  {
    var seen := KeysOf(remote, key);
    var p := (x: T) => key(x) !in seen;
    FilterAppend(p, remote, Unseen(local, key, seen));
    forall i | 0 <= i < |remote| ensures !p(remote[i]) {
      assert key(remote[i]) in seen;
    }
    FilterKeepsNone(p, remote);
    FilterKeepsAll(p, Unseen(local, key, seen));
  }

  // ---------------------------------------------------------------------------------------------
  // syncExercises and syncTemplates

  function ExerciseId(e: Exercise): string {
    e.id
  }

  function TemplateId(t: WorkoutTemplate): string {
    t.id
  }

  function RemoteExercises(rows: seq<ExerciseRow>): (es: seq<Exercise>)
    ensures |es| == |rows| && forall i :: 0 <= i < |rows| ==> es[i] == ExerciseFromRow(rows[i])
  {
    seq(|rows|, i requires 0 <= i < |rows| => ExerciseFromRow(rows[i]))
  }

  function RemoteTemplates(rows: seq<TemplateRow>): (ts: seq<WorkoutTemplate>)
    ensures |ts| == |rows| && forall i :: 0 <= i < |rows| ==> ts[i] == TemplateFromRow(rows[i])
  {
    seq(|rows|, i requires 0 <= i < |rows| => TemplateFromRow(rows[i]))
  }

  /** `syncExercises`: fails when nobody is signed in (before the query), then when the query fails;
      otherwise the remote exercises followed by the local exercises with ids unknown remotely, which
      are the ones uploaded under the user's id. On a shared id the remote exercise wins. */
  function SyncExercises(user: Option<string>, fetched: Result<seq<ExerciseRow>, string>, local: seq<Exercise>)
    : (r: Result<Synced<Exercise, ExerciseRow>, SyncError>)
    ensures user.None? ==> r == Failure(NotLoggedIn)
    ensures user.Some? && fetched.Failure? ==> r == Failure(FetchFailed(fetched.error))
    ensures user.Some? && fetched.Success? ==>
              var remote := RemoteExercises(fetched.value);
              && r.Success?
              && RemoteFirst(r.value.merged, remote, local, ExerciseId)
              && |r.value.upload| == |r.value.merged| - |remote|
              && (forall j :: 0 <= j < |r.value.upload| ==>
                    r.value.upload[j].userId == user.value
                    && ExerciseFromRow(r.value.upload[j]) == r.value.merged[|remote| + j])
              && (ExerciseIdsUnique(remote) && ExerciseIdsUnique(local) ==> ExerciseIdsUnique(r.value.merged))
  {
    if user.None? then Failure(NotLoggedIn)
    else if fetched.Failure? then Failure(FetchFailed(fetched.error))
    else
      var remote := RemoteExercises(fetched.value);
      var toUpload := Unseen(local, ExerciseId, KeysOf(remote, ExerciseId));
      RemoteFirstUnionProperties(remote, local, ExerciseId);
      Success(Synced(remote + toUpload,
                     seq(|toUpload|, j requires 0 <= j < |toUpload| => ExerciseToRow(toUpload[j], user.value))))
  }

  /** `syncTemplates`: the same union by id for templates. */
  function SyncTemplates(user: Option<string>, fetched: Result<seq<TemplateRow>, string>, local: seq<WorkoutTemplate>)
    : (r: Result<Synced<WorkoutTemplate, TemplateRow>, SyncError>)
    ensures user.None? ==> r == Failure(NotLoggedIn)
    ensures user.Some? && fetched.Failure? ==> r == Failure(FetchFailed(fetched.error))
    ensures user.Some? && fetched.Success? ==>
              var remote := RemoteTemplates(fetched.value);
              && r.Success?
              && RemoteFirst(r.value.merged, remote, local, TemplateId)
              && |r.value.upload| == |r.value.merged| - |remote|
              && (forall j :: 0 <= j < |r.value.upload| ==>
                    r.value.upload[j].userId == user.value
                    && TemplateFromRow(r.value.upload[j]) == r.value.merged[|remote| + j])
              && (TemplateIdsUnique(remote) && TemplateIdsUnique(local) ==> TemplateIdsUnique(r.value.merged))
  {
    if user.None? then Failure(NotLoggedIn)
    else if fetched.Failure? then Failure(FetchFailed(fetched.error))
    else
      var remote := RemoteTemplates(fetched.value);
      var toUpload := Unseen(local, TemplateId, KeysOf(remote, TemplateId));
      RemoteFirstUnionProperties(remote, local, TemplateId);
      Success(Synced(remote + toUpload,
                     seq(|toUpload|, j requires 0 <= j < |toUpload| => TemplateToRow(toUpload[j], user.value))))
  }

  // ---------------------------------------------------------------------------------------------
  // syncWorkouts

  function WorkoutDate(w: DailyWorkout): string {
    w.date
  }

  /** The last record of a list with the given date, if any. */
  function LastOn(s: seq<DailyWorkout>, date: string): (r: Option<DailyWorkout>)
    ensures r.Some? ==> r.value in s && r.value.date == date
    ensures r.None? <==> forall i :: 0 <= i < |s| ==> s[i].date != date
    ensures r.Some? ==> exists i :: 0 <= i < |s| && s[i] == r.value && forall j :: i < j < |s| ==> s[j].date != date
    decreases |s|
  {
    if s == [] then None
    else match LastOn(s[1..], date)
      case Some(w) =>
        ghost var i :| 0 <= i < |s[1..]| && s[1..][i] == w && forall j :: i < j < |s[1..]| ==> s[1..][j].date != date;
        assert s[i + 1] == w;
        Some(w)
      case None => if s[0].date == date then Some(s[0]) else None
  }

  /** The last record with a date in a concatenation comes from the second part when it has one. */
  lemma {:induction false} LastOnAppend(a: seq<DailyWorkout>, b: seq<DailyWorkout>, date: string)
    ensures LastOn(a + b, date) == if LastOn(b, date).Some? then LastOn(b, date) else LastOn(a, date)
    decreases |a|
  {
    if a != [] {
      assert (a + b)[1..] == a[1..] + b;
      LastOnAppend(a[1..], b, date);
    } else {
      assert a + b == b;
    }
  }

  /** Successive `mergedMap.set(w.date, w)`: a record with a new date goes at the end, a record with a
      known date replaces that entry's value in place (App's upsert by date). */
  function SetAllByDate(s: seq<DailyWorkout>): seq<DailyWorkout> {
    if s == [] then [] else App.UpsertByDate(SetAllByDate(s[..|s| - 1]), s[|s| - 1])
  }

  /** Every date ends up with exactly one record, the last one set under it. */
  lemma {:induction false} SetAllByDateFind(s: seq<DailyWorkout>, date: string)
    ensures DatesUnique(SetAllByDate(s))
    ensures App.FindWorkout(SetAllByDate(s), date) == LastOn(s, date)
    decreases |s|
  {
    if s != [] {
      var init, w := s[..|s| - 1], s[|s| - 1];
      assert s == init + [w];
      SetAllByDateFind(init, date);
      App.UpsertKeepsDatesUnique(SetAllByDate(init), w);
      App.UpsertThenFind(SetAllByDate(init), w, date);
      LastOnAppend(init, [w], date);
    }
  }

  /** `Array.from(map.values())`. */
  function Values(keys: seq<string>, m: map<string, DailyWorkout>): seq<DailyWorkout>
    requires forall k :: 0 <= k < |keys| ==> keys[k] in m
  {
    seq(|keys|, j requires 0 <= j < |keys| => m[keys[j]])
  }

  /** The entries of a JavaScript `Map` keyed by date: the keys in insertion order, each once, with
      its value carrying that date. */
  ghost predicate DateMap(keys: seq<string>, m: map<string, DailyWorkout>) {
    && (forall k :: 0 <= k < |keys| ==> keys[k] in m && m[keys[k]].date == keys[k])
    && (forall d :: d in m ==> d in keys)
    && (forall a, b :: 0 <= a < b < |keys| ==> keys[a] != keys[b])
  }

  /** One `set` on the `Map` is one upsert by date on its values. */
  lemma SetIsUpsert(keys: seq<string>, m: map<string, DailyWorkout>, w: DailyWorkout)
    requires DateMap(keys, m)
    ensures var keys' := if w.date in m then keys else keys + [w.date];
            var m' := m[w.date := w];
            && DateMap(keys', m')
            && App.UpsertByDate(Values(keys, m), w) == Values(keys', m')
  {
    var before := Values(keys, m);
    var m' := m[w.date := w];
    if w.date in m {
      var k :| 0 <= k < |keys| && keys[k] == w.date;
      assert before[k].date == w.date;
      var after := App.UpsertByDate(before, w);
      assert |after| == |keys|;
      forall j | 0 <= j < |keys| ensures after[j] == Values(keys, m')[j] {
        assert before[j].date == keys[j];
      }
    } else {
      assert forall j :: 0 <= j < |before| ==> before[j].date == keys[j] && keys[j] != w.date;
      assert App.UpsertByDate(before, w) == before + [w];
      assert Values(keys + [w.date], m') == before + [w];
    }
  }

  /** The `Map` of `syncWorkouts`, filled by one loop over the records in order. */
  method MergeByDate(s: seq<DailyWorkout>) returns (r: seq<DailyWorkout>)
    ensures r == SetAllByDate(s)
  {
    var keys: seq<string> := [];
    var m: map<string, DailyWorkout> := map[];
    var i := 0;
    while i < |s|
      invariant 0 <= i <= |s|
      invariant DateMap(keys, m)
      invariant Values(keys, m) == SetAllByDate(s[..i])
    {
      var w := s[i];
      SetIsUpsert(keys, m, w);
      if w.date !in m {
        keys := keys + [w.date];
      }
      m := m[w.date := w];
      assert s[..i + 1][..i] == s[..i];
      i := i + 1;
    }
    assert s[..i] == s;
    r := Values(keys, m);
  }

  function RemoteWorkouts(rows: seq<WorkoutRow>): (ws: seq<DailyWorkout>)
    ensures |ws| == |rows| && forall i :: 0 <= i < |rows| ==> ws[i] == WorkoutFromRow(rows[i])
  {
    seq(|rows|, i requires 0 <= i < |rows| => WorkoutFromRow(rows[i]))
  }

  /** `syncWorkouts`: fails like the other syncs; otherwise the local workouts on dates the remote
      side lacks are upserted under the user's id, and the result has one record per date: the remote
      one on a remote date (the last, when the remote side repeats a date), otherwise the last local
      one. */
  method SyncWorkouts(user: Option<string>, fetched: Result<seq<WorkoutRow>, string>, local: seq<DailyWorkout>)
    returns (r: Result<Synced<DailyWorkout, WorkoutRow>, SyncError>)
    ensures user.None? ==> r == Failure(NotLoggedIn)
    ensures user.Some? && fetched.Failure? ==> r == Failure(FetchFailed(fetched.error))
    ensures user.Some? && fetched.Success? ==>
              var remote := RemoteWorkouts(fetched.value);
              var remoteDates := KeysOf(remote, WorkoutDate);
              && r.Success?
              && DatesUnique(r.value.merged)
              && (forall d :: App.FindWorkout(r.value.merged, d)
                              == if d in remoteDates then LastOn(remote, d) else LastOn(local, d))
              && (forall j :: 0 <= j < |r.value.upload| ==>
                    r.value.upload[j].userId == user.value && r.value.upload[j].dateKey !in remoteDates
                    && WorkoutFromRow(r.value.upload[j]) in local)
              && (forall i :: 0 <= i < |local| && local[i].date !in remoteDates ==>
                    exists j :: 0 <= j < |r.value.upload| && WorkoutFromRow(r.value.upload[j]) == local[i])
  {
    if user.None? {
      return Failure(NotLoggedIn);
    }
    if fetched.Failure? {
      return Failure(FetchFailed(fetched.error));
    }
    var remote := RemoteWorkouts(fetched.value);
    var remoteDates := KeysOf(remote, WorkoutDate);
    var toUpload := Unseen(local, WorkoutDate, remoteDates);
    var upload := seq(|toUpload|, j requires 0 <= j < |toUpload| => WorkoutToRow(toUpload[j], user.value));
    var merged := MergeByDate(remote + toUpload);
    forall d ensures App.FindWorkout(merged, d) == if d in remoteDates then LastOn(remote, d) else LastOn(local, d) {
      MergedWorkoutOn(remote, local, d);
    }
    SetAllByDateFind(remote + toUpload, "");
    UploadCoversUnseen(local, remoteDates, user.value);
    r := Success(Synced(merged, upload));
  }

  /** In the merged workouts a remote date finds its (last) remote record and any other date its last
      local record. */
  lemma MergedWorkoutOn(remote: seq<DailyWorkout>, local: seq<DailyWorkout>, d: string)
    ensures var remoteDates := KeysOf(remote, WorkoutDate);
            App.FindWorkout(SetAllByDate(remote + Unseen(local, WorkoutDate, remoteDates)), d)
            == if d in remoteDates then LastOn(remote, d) else LastOn(local, d)
  {
    var remoteDates := KeysOf(remote, WorkoutDate);
    var toUpload := Unseen(local, WorkoutDate, remoteDates);
    SetAllByDateFind(remote + toUpload, d);
    LastOnAppend(remote, toUpload, d);
    if d in remoteDates {
      var k :| 0 <= k < |remote| && remote[k].date == d;
    } else {
      LastOnUnseen(local, remoteDates, d);
    }
  }

  /** Every local workout on a date the remote side lacks is among the uploaded rows. */
  lemma UploadCoversUnseen(local: seq<DailyWorkout>, seen: set<string>, userId: string)
    ensures var toUpload := Unseen(local, WorkoutDate, seen);
            var upload := seq(|toUpload|, j requires 0 <= j < |toUpload| => WorkoutToRow(toUpload[j], userId));
            forall i :: 0 <= i < |local| && local[i].date !in seen ==>
              exists j :: 0 <= j < |upload| && WorkoutFromRow(upload[j]) == local[i]
  {
    var toUpload := Unseen(local, WorkoutDate, seen);
    var upload := seq(|toUpload|, j requires 0 <= j < |toUpload| => WorkoutToRow(toUpload[j], userId));
    forall i | 0 <= i < |local| && local[i].date !in seen
      ensures exists j :: 0 <= j < |upload| && WorkoutFromRow(upload[j]) == local[i]
    {
      var j :| 0 <= j < |toUpload| && toUpload[j] == local[i];
      assert WorkoutFromRow(upload[j]) == local[i];
    }
  }

  /** Dropping the records on remote dates leaves the last local record of every other date. */
  lemma {:induction false} LastOnUnseen(local: seq<DailyWorkout>, seen: set<string>, date: string)
    requires date !in seen
    ensures LastOn(Unseen(local, WorkoutDate, seen), date) == LastOn(local, date)
    decreases |local|
  {
    if local != [] {
      LastOnUnseen(local[1..], seen, date);
      var p := (x: DailyWorkout) => WorkoutDate(x) !in seen;
      FilterAppend(p, [local[0]], local[1..]);
      assert [local[0]] + local[1..] == local;
      LastOnAppend([local[0]], Unseen(local[1..], WorkoutDate, seen), date);
      LastOnAppend([local[0]], local[1..], date);
      assert [local[0]][1..] == [];
    }
  }
}
