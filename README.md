# fitflow workout data model in Dafny

fitflow is a workout-planning app. This project models the client-side data model at its centre:

- the catalog of exercises, the workout templates, the per-exercise preferences and the workouts recorded day by day;
- the handlers in `App.tsx` that change them;
- the pure computations of the four main screens: today's card, the plan, the library and the history calendar;
- the merge that the sync service performs between local and remote data.

There is one Dafny module per source file:

| module | file | source |
|---|---|---|
| `Wrappers`, `Seqs` | `wrappers.dfy`, `seqs.dfy` | JavaScript idioms: `x \|\| d`, `Array.from({length})`, `filter`, `find`, `findIndex` |
| `Types` | `types.dfy` | `types.ts` |
| `DateKey` | `date_key.dfy` | `getLocalDateKey` in `App.tsx` |
| `App` | `app.dfy` | the state and handlers of `App.tsx`, as the class `AppState` over the functions that specify it |
| `TodayView` | `today_view.dfy` | `components/TodayView.tsx` |
| `PlanView` | `plan_view.dfy` | `components/PlanView.tsx` |
| `LibraryView` | `library_view.dfy` | `components/LibraryView.tsx`, with the template editor as the class `TemplateEditor` |
| `HistoryView` | `history_view.dfy` | `components/HistoryView.tsx` |
| `SyncService` | `sync_service.dfy` | `services/syncService.ts` |

Some parts of the original are out of reach of the model and become parameters:

- Fresh ids (`uuid()`, `Date.now()`) come from a function `uuid: nat -> string` plus a counter. Only `TodayView.RemoveSetUndoesAddSet` assumes anything about them: that the fresh set id is not already used by a set of the matching items.
- JavaScript's `Number(...)` on a string becomes a parameter `number`.
- The Supabase answers become inputs: the logged-in user, and the fetched rows or an error message.
- The weekday of the first of the month and the number of days in it are inputs of the calendar.

Handlers that update React state with `setX(prev => ...)` are written as functions from the old value to the new one. The class methods assign exactly that function's result.

## Model

| member | source | states |
|---|---|---|
| Wrappers.OrDefault | components/PlanView.tsx:117-118 | `x \|\| d`: the value if it is truthy, otherwise the default |
| Wrappers.ArrayLength | components/PlanView.tsx:123 | `Array.from({length: n})` has `n` elements, or none when `n` is not positive |
| Types.CategoryLabelInjective | types.ts:1-11 | the nine categories have nine distinct labels |
| DateKey.TwoDigits | App.tsx:13-14 | zero-padding a month or day below 100 gives two digits that read back as the number |
| DateKey.FourDigits | App.tsx:12 | a year from 1000 to 9999 prints as four digits that read back as the year |
| DateKey.DateKeyRoundTrip | App.tsx:11-16 | the `YYYY-MM-DD` key of a real date splits back into its year, month and day |
| DateKey.DateKeyInjective | App.tsx:11-16 | two different dates never share a key, so one key names one day |
| App.TodayWorkoutOf | App.tsx:60-61 | today's workout is the first stored under today's key, or an empty workout for that key |
| App.UpsertByDate | App.tsx:64-72 | replaces the workout with the same date in place, or appends it, and changes nothing else |
| App.UpsertThenFind | App.tsx:64-72 | after the update, looking up the date gives the new workout and other dates are unchanged |
| App.UpsertKeepsDatesUnique | App.tsx:64-72 | the update keeps at most one workout per date and adds at most one record |
| App.AppendToDate | App.tsx:75-85 | assigning items appends them after that day's items, or creates the day with them |
| App.AssignThenFind | App.tsx:75-85 | after an assignment the day holds its old items followed by the new ones |
| App.AssignTwiceInCallOrder | App.tsx:75-85 | two assignments to a day keep both batches in call order |
| App.AssignKeepsDatesUnique | App.tsx:75-85 | assignment keeps at most one workout per date and adds at most one record |
| App.WithPreference | App.tsx:87-92 | the exercise's preference is replaced and every other one kept |
| App.WithFavoriteToggled | App.tsx:104-106 | exactly the exercises with that id flip their favourite flag; everything else is kept |
| App.ToggleFavoriteTwice | App.tsx:104-106 | toggling twice restores whether the exercise is a favourite |
| App.WithoutExercise | App.tsx:98-102 | deleting removes every exercise with that id and keeps every other one |
| App.WithoutExerciseKeepsOrder | App.tsx:100 | the remaining exercises keep their order |
| App.WithTemplateReplaced | App.tsx:112-114 | templates with the updated id are replaced, the others kept, positions unchanged |
| App.ReplaceTemplateProperties | App.tsx:112-114 | replacing keeps template ids unique, puts the new template in the list when its id was there, and changes nothing for an unknown id |
| App.WithoutTemplate | App.tsx:116-120 | deleting removes every template with that id and keeps every other one |
| App.AppState.constructor | App.tsx:22-40 | the app starts with exactly the collections read back at start-up |
| App.AppState.Today | App.tsx:60-61 | the workout the today screen shows carries today's key and the items stored under it, or none |
| App.AppState.UpdateToday | App.tsx:64-73 | the workouts become the upsert of the given workout, which is then found under its date; dates stay unique; nothing else changes |
| App.AppState.AssignWorkout | App.tsx:75-85 | the workouts become the old ones with the items appended to that date, whose items are then the old ones followed by the new; dates stay unique |
| App.AppState.UpdatePreference | App.tsx:87-92 | only the preference map changes, at that exercise |
| App.AppState.AddExercise | App.tsx:94-96 | the new exercise is appended to the catalog |
| App.AppState.DeleteExercise | App.tsx:98-102 | with confirmation the exercise is removed; without it nothing changes |
| App.AppState.ToggleFavorite | App.tsx:104-106 | the catalog becomes `WithFavoriteToggled`; nothing else changes |
| App.AppState.AddTemplate | App.tsx:108-110 | the template is appended |
| App.AppState.UpdateTemplate | App.tsx:112-114 | templates with that id are replaced |
| App.AppState.DeleteTemplate | App.tsx:116-120 | with confirmation the template is removed; without it nothing changes |
| TodayView.WithItems | components/TodayView.tsx:22-24 | a present workout keeps its date and a missing one stays missing |
| TodayView.ToggledSets | components/TodayView.tsx:28-31 | exactly the sets with that id flip their completion; ids and reps are kept |
| TodayView.ToggleSetComplete | components/TodayView.tsx:21-36 | only the matching items change, and in them only the completion of that set; the date and the other items are kept |
| TodayView.ToggleSetCompleteTwice | components/TodayView.tsx:21-36 | toggling the same set twice restores the workout |
| TodayView.UpdateSetData | components/TodayView.tsx:38-51 | only the reps of that set in the matching items change, to the typed text |
| TodayView.UpdateSetDataIdempotent | components/TodayView.tsx:38-51 | writing the same values twice is the same as writing them once |
| TodayView.AddSet | components/TodayView.tsx:53-66 | the matching items gain one uncompleted set with the fresh id at the end, copying the last set's reps (10 without one) |
| TodayView.RemoveSet | components/TodayView.tsx:68-75 | the matching items lose exactly the sets with that id and keep the others |
| TodayView.RemoveSetUndoesAddSet | components/TodayView.tsx:53-75 | removing a freshly added set with an unused id gives back the workout |
| TodayView.CompletedSets | components/TodayView.tsx:97-98 | the completed sets never outnumber all sets |
| TodayView.RoundedPercent | components/TodayView.tsx:99 | the rounded percentage lies between 0 and 100, is 0 with nothing done and 100 with everything done |
| TodayView.ProgressBounds | components/TodayView.tsx:97-99 | the progress lies between 0 and 100, is 0 with nothing done, and 100 when every set of a non-empty day is done |
| TodayView.FullyCompleteMeansAllDone | components/TodayView.tsx:132-133 | an item is shown complete exactly when it has sets and all are done |
| PlanView.BuildUsageMap | components/PlanView.tsx:70-78 | the loop counts, for every id, how many recorded items use that exercise, and stores no zero entries |
| PlanView.UsageSumsToItemCount | components/PlanView.tsx:70-78 | the counts over all used exercises add up to the number of recorded items |
| PlanView.InsertByFreq | components/PlanView.tsx:85-90 | insertion keeps the elements, as a multiset |
| PlanView.SortByFreq | components/PlanView.tsx:85-90 | the sort is a permutation of its input |
| PlanView.SortIsDescending | components/PlanView.tsx:85-90 | the COMMON tab lists the most-used exercises first |
| PlanView.SortIsStable | components/PlanView.tsx:85-90 | exercises used equally often keep their catalog order |
| PlanView.FilteredExercises | components/PlanView.tsx:81-95 | COMMON lists a permutation of the non-custom exercises in descending use; the template tab lists none; FAVORITE lists only favourites and a category tab only that category, from the catalog |
| PlanView.CommonTabIsStable | components/PlanView.tsx:82-91 | the COMMON tab is sorted by descending use and keeps catalog order among ties |
| PlanView.FilteredKeepsOrder | components/PlanView.tsx:92-94 | the favourite and category tabs list exercises in catalog order |
| PlanView.UncategorisedOnCommonOnly | components/PlanView.tsx:81-95 | an exercise with none of the nine categories is on the COMMON tab and on no category tab |
| PlanView.ConfigDefaults | components/PlanView.tsx:98-109 | the add dialog opens with the stored preference, or 3 sets of 10 |
| PlanView.MakeSets | components/PlanView.tsx:123-127 | `n` uncompleted sets of the given reps with fresh ids, or none when `n` is not positive |
| PlanView.MakeItem | components/PlanView.tsx:120-128 | an item with a fresh id for the exercise, holding exactly those sets and no notes |
| PlanView.ExpandTemplate | components/PlanView.tsx:132-140 | one item per template line, each with the line's sets and reps, falling back to 3 and 10 |
| PlanView.QuickAdd | components/PlanView.tsx:111-143 | quick add gives one item per exercise, or one item per line of a template, with the preferred or default counts |
| PlanView.ConfirmAdd | components/PlanView.tsx:145-179 | for an exercise, confirming stores the chosen counts as its preference and adds one item with that many sets (none for a count of 0 or less); for a template, one item per line with the chosen counts as fallbacks and the preferences unchanged |
| PlanView.LegDayScenario | components/PlanView.tsx:131-141 | quick-adding a one-line template (exercise "legs-1", 3 sets of 12) to 2024-03-01 on an empty plan gives one workout on that date whose single item references "legs-1" and has exactly three uncompleted sets of 12 with fresh ids |
| PlanView.LineOf | components/PlanView.tsx:196-203 | a saved line keeps the exercise, takes the number of sets as its set count and the first set's reps as its reps; an item without sets gives 0 sets and 10 reps |
| PlanView.SaveDayAsTemplate | components/PlanView.tsx:190-207 | a template is saved exactly when the name is non-empty and a workout is selected, with the fresh id, the name and one line per item |
| PlanView.SavedTemplateExpandsToSameShape | components/PlanView.tsx:196-203 | adding a saved template back gives items for the same exercises with the same set counts, and 3 sets for an item that had none |
| PlanView.HasWorkoutMatchesItems | components/PlanView.tsx:236 | a day is marked in the week strip exactly when some workout of that date has items |
| PlanView.RemoveDayItemAsWired | components/PlanView.tsx:301-306 | the remove button, with no `onUpdateWorkout` passed in, always fails instead of removing |
| PlanView.RemoveButtonDoesNothingAsWired | App.tsx:133-141 | with the props App passes, removing an item fails and the workouts stay unchanged |
| PlanView.RemoveDayItem | components/PlanView.tsx:301-306 | the intended removal keeps one workout per date |
| PlanView.RemoveDayItemRemoves | components/PlanView.tsx:301-306 | the intended removal drops exactly the items with that id from that day, keeps the day's other items in order, and leaves every other date unchanged |
| LibraryView.ContainsEmpty | components/LibraryView.tsx:67-69 | every text contains the empty search |
| LibraryView.MainListKeepsOrder | components/LibraryView.tsx:63-75 | the main list keeps catalog order |
| LibraryView.MainList | components/LibraryView.tsx:63-75 | the list holds exactly the catalog exercises that pass the tab, the category chip and the search; on the favourites tab only favourites |
| LibraryView.EmptySearchShowsAll | components/LibraryView.tsx:63-75 | with no search and all categories, the exercises tab shows the whole catalog |
| LibraryView.SearchIgnoresCase | components/LibraryView.tsx:67-69 | the search matches name or muscle group regardless of ASCII case |
| LibraryView.FavoritesIgnoreCategory | components/LibraryView.tsx:65-71 | the favourites tab shows the favourites whatever category is chosen |
| LibraryView.PickerList | components/LibraryView.tsx:78-81 | the picker holds exactly the catalog exercises of the chosen tab: the non-custom ones on COMMON, those of the category on a category tab |
| LibraryView.PickerTabsPartition | components/LibraryView.tsx:78-81 | the COMMON tab and the custom tab split the catalog: every exercise is on exactly one of the two |
| LibraryView.PickerListKeepsOrder | components/LibraryView.tsx:78-81 | the picker lists exercises in catalog order |
| LibraryView.UncategorisedOnlyUnderAll | components/LibraryView.tsx:70-81 | an exercise with none of the nine categories is hidden by every category chip and missing from every category tab of the picker, but shown under the "all" chip when it matches the search and listed on the picker's COMMON tab |
| LibraryView.NewExercise | components/LibraryView.tsx:83-96 | a non-empty name creates an exercise with the fresh id, the name and category, the muscle group or "综合", not a favourite; an empty name creates nothing |
| LibraryView.ItemsToDraft | components/LibraryView.tsx:105-114 | editing a template copies each line's exercise, sets and reps into the draft |
| LibraryView.DraftToItems | components/LibraryView.tsx:120-124 | saving turns each draft row back into a template line |
| LibraryView.DraftRoundTrip | components/LibraryView.tsx:105-124 | a template line survives editing and saving unchanged |
| LibraryView.ItemsRoundTrip | components/LibraryView.tsx:105-124 | a draft row survives saving and editing unchanged |
| LibraryView.RemoveAt | components/LibraryView.tsx:145-147 | removing at an index drops exactly that row and keeps the rest in order |
| LibraryView.UpdateAt | components/LibraryView.tsx:149-154 | only the chosen field of the chosen row changes |
| LibraryView.UpdateAtIdempotent | components/LibraryView.tsx:149-154 | writing the same value twice equals writing it once |
| LibraryView.RemoveUndoesAdd | components/LibraryView.tsx:141-147 | removing the row just added gives back the draft |
| LibraryView.SaveTemplate | components/LibraryView.tsx:116-139 | an empty name or an empty draft saves nothing; otherwise a non-empty editing id updates that template and no editing id adds a new one with the fresh id |
| LibraryView.TemplateEditor.constructor | components/LibraryView.tsx:57-59 | the editor starts with no template, an empty name and an empty draft |
| LibraryView.TemplateEditor.OpenNew | components/LibraryView.tsx:98-103 | opening a new template clears the editing id, the name and the draft |
| LibraryView.TemplateEditor.OpenEdit | components/LibraryView.tsx:105-114 | opening a template loads its id, name and lines |
| LibraryView.TemplateEditor.SetName | components/LibraryView.tsx:376 | only the name changes |
| LibraryView.TemplateEditor.AddToDraft | components/LibraryView.tsx:141-143 | the draft gains a row of 3 sets of 10 for the exercise at the end |
| LibraryView.TemplateEditor.RemoveFromDraft | components/LibraryView.tsx:145-147 | the draft becomes `RemoveAt` of the old draft |
| LibraryView.TemplateEditor.UpdateDraftItem | components/LibraryView.tsx:149-154 | the draft becomes `UpdateAt` of the old draft |
| LibraryView.TemplateEditor.Save | components/LibraryView.tsx:116-139 | returns `SaveTemplate` of the editor's state and resets the editor when something was saved |
| LibraryView.EditUnchangedSavesSameTemplate | components/LibraryView.tsx:105-139 | opening a template and saving it untouched updates it to itself |
| LibraryView.EmptyIdSavesAsNew | components/LibraryView.tsx:119 | an empty editing id counts as "not editing", so the save adds a new template |
| LibraryView.PicksBecomeLines | components/LibraryView.tsx:116-143 | the exercises picked for a new template become its lines, in order, with 3 sets of 10 |
| HistoryView.GenerateCalendar | components/HistoryView.tsx:19-38 | the loops produce a blank per leading weekday followed by the days 1 to n |
| HistoryView.DayCellPosition | components/HistoryView.tsx:19-38 | day d sits in exactly one cell, at position firstDay + d - 1, and blanks only lead |
| HistoryView.MonthFitsSixRows | components/HistoryView.tsx:19-38 | a month of at most 31 days fits in six rows of seven |
| HistoryView.WorkoutForDate | components/HistoryView.tsx:46-49 | the workout shown for a day is the first stored under its key, or none |
| HistoryView.ExerciseName | components/HistoryView.tsx:53-56 | the item shows the name of the first catalog exercise with its id, or "未知" when the catalog lacks it |
| HistoryView.DayExerciseNames | components/HistoryView.tsx:51-57 | one name per item, in order; none without a workout |
| HistoryView.DeletedExerciseShownAsUnknown | components/HistoryView.tsx:51-57 | an item whose exercise was deleted is shown as "未知" |
| HistoryView.CellBadges | components/HistoryView.tsx:121-135 | at most three badges; with more than three exercises the third reads `+(n - 2)` |
| HistoryView.BadgesCountEveryExercise | components/HistoryView.tsx:121-135 | the badges stand for every exercise of the day exactly once |
| HistoryView.CellShowsBadgesIffItems | components/HistoryView.tsx:91-122 | a cell shows badges exactly when its day has a workout with items |
| HistoryView.CompleteInHistoryMeansAllDone | components/HistoryView.tsx:184-185 | the dialog marks an item complete exactly when all its sets are, so also without sets |
| HistoryView.CompletionMarksDiffer | components/HistoryView.tsx:184-185 | the dialog and today's card disagree only on items without sets |
| SyncService.ExerciseToRow | services/syncService.ts:53-61 | an exercise becomes a row of the user that reads back as the same exercise |
| SyncService.ExerciseRowRoundTrip | services/syncService.ts:25-32 | a fetched row read and written back for the same user is the same row |
| SyncService.TemplateToRow | services/syncService.ts:90-95 | a template becomes a row of the user with the same id, name and lines |
| SyncService.WorkoutToRow | services/syncService.ts:138-142 | a workout becomes a row of the user with the same date and items |
| SyncService.Unseen | services/syncService.ts:46-47 | the local records whose id the remote side lacks, in order |
| SyncService.RemoteFirstUnionProperties | services/syncService.ts:46-68 | the merge keeps every remote record first, then exactly the unseen local ones; ids stay unique |
| SyncService.UnionIsStable | services/syncService.ts:86-98 | the records of the merge whose id the remote lacks are exactly the unseen local records, in order |
| SyncService.RemoteExercises | services/syncService.ts:25-32 | one exercise per fetched row, in order |
| SyncService.RemoteTemplates | services/syncService.ts:80-84 | one template per fetched row, in order |
| SyncService.RemoteWorkouts | services/syncService.ts:109-113 | one workout per fetched row, in order |
| SyncService.SyncExercises | services/syncService.ts:14-70 | without a user the sync fails; a failed fetch fails; otherwise remote first, then the unseen local exercises, which are also the upload |
| SyncService.SyncTemplates | services/syncService.ts:73-99 | the same for templates |
| SyncService.SetAllByDateFind | services/syncService.ts:147-151 | after setting all workouts by date, each date holds the last workout given for it |
| SyncService.SetIsUpsert | services/syncService.ts:148-149 | setting a map entry by date is the upsert by date |
| SyncService.MergeByDate | services/syncService.ts:147-151 | the `Map` loop computes the fold of upserts by date, which holds one workout per date, the last one given for it |
| SyncService.SyncWorkouts | services/syncService.ts:102-152 | without a user or with a failed fetch it fails; otherwise each date holds the remote workout if the remote has one, else the local, and the upload is the local workouts of unseen dates |
| SyncService.MergedWorkoutOn | services/syncService.ts:133-151 | the merged workout on each date is the remote one when the remote has that date, else the local one |
| SyncService.UploadCoversUnseen | services/syncService.ts:133-142 | the upload holds exactly the local workouts whose date the remote lacks |

## Behaviour worth knowing

- The add dialog accepts a set count of 0 or less, and `Array.from` then makes no sets, so a workout item can have no sets.
- Toggling the favourite flag writes `!isFavorite`. Toggling twice restores whether the exercise is a favourite, and an exercise that had no `isFavorite` field ends up with `false`.
- The COMMON tab's sort is stable, so exercises used equally often keep their catalog order.
- App has handlers to add, delete and favourite an exercise, and none to edit one.
- The history dialog marks an item with no sets complete, because 0 of 0 sets are done. Today's card does not.
- An empty editing id is treated as "not editing", so saving it adds a new template.
- The built-in catalog in `constants.tsx` names enum members such as `ExerciseCategory.PUSHUPS` that types.ts does not declare. At run time their category is `undefined`, so these exercises show on the COMMON tabs and under no category; the model gives them category `None`.
- The sync service ignores the results of its uploads. The exercise insert error is only logged, and the template and workout insert results are not read.

## Left out

- LibraryView.SearchIgnoresCase: the search ignores case for the ASCII letters A to Z only. JavaScript's `toLowerCase` also lower-cases every other cased Unicode letter, so a search "é" finds "Élan" in the app; the model does not claim that.
- LibraryView.MainList: the search term and the names are lower-cased for ASCII only, as under `LibraryView.SearchIgnoresCase`; a search that matches only after lower-casing a non-ASCII letter lists fewer exercises than the app does.
- TodayView.AddSet: the model gives one fresh id, `newId`, to the new set of every item whose id matches, where the app draws a separate `crypto.randomUUID()` for each matching item. The two differ only when several items share an id, which the app's own handlers never produce (every item gets a fresh id when it is created).
- Wrappers.ArrayLength: `Array.from({length: n})` throws a RangeError when n exceeds 4294967295; the model gives n elements for every n. So for such a set count, `PlanView.MakeSets`, `PlanView.QuickAdd` and `PlanView.ConfirmAdd` add an item where the app throws. In the app `handleConfirmAdd` has already stored the preference at that point, so later quick adds of that exercise throw too.
- TodayView.RoundedPercent: the percentage is computed with exact rational rounding. Floating-point `Math.round` on halves may differ by one, so only the bounds are claimed.
- SyncService.SyncExercises: a remote category string that is none of the nine is modelled as `None`. The string itself is not kept, so the model does not say that it is uploaded back unchanged; every comparison the screens make treats it as the model does.
- PlanView.ConfirmAdd: the early return when no exercise is being configured is not modelled. The dialog cannot be confirmed without one.
- PlanView.SaveDayAsTemplate: the guard and alert of `openSaveTemplateModal` on a day without items are not modelled. The confirm handler itself checks only the name and the selected workout.
- Lookup fallbacks of the add and save dialogs and of the plan preview: these use `||`, so an empty name also falls back to "未知动作". They are display-only and not modelled.
- `DailyWorkout.completed`: no code in the core sets or reads it.
- UI state: expanded items, open dialogs, the selected tab, toasts and alerts are left out.
- Browser storage: loading and saving through `localStorage` are left out. The initial state is a constructor argument, and the built-in catalog of `constants.tsx` is not written out; its entries would be passed in with category `None`.
- Supabase: the client calls, `auth.getUser` and the network are left out. Their results are parameters.
- SyncService.RemoteWorkouts: the remote row's `id`, which the code copies onto the merged workout, is dropped, because the workout type has no such field.
- Time and dates: date arithmetic on JavaScript `Date` (the week strip's days, the number of days in a month, the weekday of the first) is left out. These are inputs.
- Fresh ids: ids come from a caller-supplied function and counter.
- The Gemini service and `SettingsView` are not part of this model.

## Findings

| source | as written | input that shows it | evidently intended | confidence | as-written member | corrected member |
|---|---|---|---|---|---|---|
| App.tsx:133-141 | App renders `PlanView` without an `onUpdateWorkout` prop, so the remove button at components/PlanView.tsx:303-306 calls `undefined` and throws a TypeError | a day with one item; press its remove button | the item is removed from that day and the workout is stored by date, as `handleUpdateToday` does | not executed | PlanView.RemoveDayItemAsWired | PlanView.RemoveDayItem |
