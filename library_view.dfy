/** The library screen (components/LibraryView.tsx): the searchable exercise list, the exercise picker
    of the template dialog, creating an exercise, and the template editor with its draft list. */
module LibraryView {
  import opened Wrappers
  import opened Seqs
  import opened Types

  // ---------------------------------------------------------------------------------------------
  // Search

  /** `toLowerCase` on one character; only the ASCII letters A to Z are folded. */
  function LowerChar(c: char): char {
    if 'A' <= c <= 'Z' then (c as int + 32) as char else c
  }

  function Lower(s: string): (r: string)
    ensures |r| == |s|
    ensures forall i :: 0 <= i < |s| ==> r[i] == LowerChar(s[i])
  {
    seq(|s|, i requires 0 <= i < |s| => LowerChar(s[i]))
  }

  /** Folding twice folds once. */
  lemma LowerIdempotent(s: string)
    ensures Lower(Lower(s)) == Lower(s)
  {
    assert forall i :: 0 <= i < |s| ==> LowerChar(LowerChar(s[i])) == LowerChar(s[i]);
  }

  /** `sub` occurs in `s` starting at position `i`. */
  predicate OccursAt(s: string, sub: string, i: int) {
    0 <= i && i + |sub| <= |s| && s[i..i + |sub|] == sub
  }

  /** `s.includes(sub)`. */
  predicate Contains(s: string, sub: string) {
    exists i :: 0 <= i <= |s| && OccursAt(s, sub, i)
  }

  /** Every string includes the empty string. */
  lemma ContainsEmpty(s: string)
    ensures Contains(s, "")
  {
    assert OccursAt(s, "", 0);
  }

  /** The name, or the muscle group when there is one, includes the term, both lower-cased. */
  predicate MatchesSearch(e: Exercise, term: string) {
    || Contains(Lower(e.name), Lower(term))
    || (e.muscleGroup.Some? && Contains(Lower(e.muscleGroup.value), Lower(term)))
  }

  /** The tabs of the library screen. */
  datatype LibraryTab = ExercisesTab | FavoritesTab | TemplatesTab

  /** The category chips above the exercise list. */
  datatype CategoryFilter = AllCategories | OnlyCategory(category: ExerciseCategory)

  /** Whether the main list shows an exercise: on the favourites tab only favourites; always a search
      match; on the exercises tab only the chosen category. */
  predicate Shown(tab: LibraryTab, term: string, filter: CategoryFilter, e: Exercise) {
    && !(tab == FavoritesTab && !IsTrue(e.isFavorite))
    && MatchesSearch(e, term)
    && (tab != ExercisesTab || filter == AllCategories || (e.category.Some? && filter == OnlyCategory(e.category.value)))
  }

  /** `filteredExercises`: the shown exercises, in catalog order. */
  function MainList(tab: LibraryTab, term: string, filter: CategoryFilter, es: seq<Exercise>): (r: seq<Exercise>)
    ensures forall i :: 0 <= i < |r| ==> r[i] in es && Shown(tab, term, filter, r[i])
    ensures forall i :: 0 <= i < |es| && Shown(tab, term, filter, es[i]) ==> es[i] in r
    ensures tab == FavoritesTab ==> forall i :: 0 <= i < |r| ==> IsTrue(r[i].isFavorite)
  {
    Filter((e: Exercise) => Shown(tab, term, filter, e), es)
  }

  /** With an empty search box and the "all" chip, the exercises tab lists the whole catalog. */
  lemma EmptySearchShowsAll(es: seq<Exercise>)
    ensures MainList(ExercisesTab, "", AllCategories, es) == es
  {
    forall i | 0 <= i < |es| ensures Shown(ExercisesTab, "", AllCategories, es[i]) {
      ContainsEmpty(Lower(es[i].name));
    }
    FilterKeepsAll((e: Exercise) => Shown(ExercisesTab, "", AllCategories, e), es);
  }

  /** The main list keeps catalog order: it is computed element by element over a concatenation. */
  lemma MainListKeepsOrder(tab: LibraryTab, term: string, filter: CategoryFilter, a: seq<Exercise>, b: seq<Exercise>)
    ensures MainList(tab, term, filter, a + b) == MainList(tab, term, filter, a) + MainList(tab, term, filter, b)
  {
    FilterAppend((e: Exercise) => Shown(tab, term, filter, e), a, b);
  }

  /** The search is case-insensitive: a term and its lower-case form list the same exercises. */
  lemma SearchIgnoresCase(tab: LibraryTab, term: string, filter: CategoryFilter, es: seq<Exercise>)
    ensures MainList(tab, Lower(term), filter, es) == MainList(tab, term, filter, es)
  {
    LowerIdempotent(term);
    FilterCongruent((e: Exercise) => Shown(tab, Lower(term), filter, e), (e: Exercise) => Shown(tab, term, filter, e), es);
  }

  /** The category chips only act on the exercises tab. */
  lemma FavoritesIgnoreCategory(term: string, filter: CategoryFilter, es: seq<Exercise>)
    ensures MainList(FavoritesTab, term, filter, es) == MainList(FavoritesTab, term, AllCategories, es)
  {
    FilterCongruent((e: Exercise) => Shown(FavoritesTab, term, filter, e), (e: Exercise) => Shown(FavoritesTab, term, AllCategories, e), es);
  }

  /** The tabs of the template dialog's exercise picker. */
  datatype PickerTab = PickCommon | PickCategory(category: ExerciseCategory)

  predicate Picked(tab: PickerTab, e: Exercise) {
    match tab
    case PickCommon => e.category != Some(Custom)
    case PickCategory(c) => e.category == Some(c)
  }

  /** `pickerExercises`: every exercise except the custom ones on the common tab; the exercises of the
      category on a category tab. */
  function PickerList(tab: PickerTab, es: seq<Exercise>): (r: seq<Exercise>)
    ensures forall i :: 0 <= i < |r| ==> r[i] in es && Picked(tab, r[i])
    ensures forall i :: 0 <= i < |es| && Picked(tab, es[i]) ==> es[i] in r
  {
    Filter((e: Exercise) => Picked(tab, e), es)
  }

  /** The picker keeps catalog order. */
  lemma PickerListKeepsOrder(tab: PickerTab, a: seq<Exercise>, b: seq<Exercise>)
    ensures PickerList(tab, a + b) == PickerList(tab, a) + PickerList(tab, b)
  {
    FilterAppend((e: Exercise) => Picked(tab, e), a, b);
  }

  /** An exercise whose category is none of the nine is hidden by every category chip and missing
      from every category tab of the picker, but listed on the picker's common tab. */
  lemma UncategorisedOnlyUnderAll(term: string, c: ExerciseCategory, es: seq<Exercise>, e: Exercise)
    requires e in es && e.category.None?
    ensures e !in MainList(ExercisesTab, term, OnlyCategory(c), es)
    ensures MatchesSearch(e, term) ==> e in MainList(ExercisesTab, term, AllCategories, es)
    ensures e in PickerList(PickCommon, es) && e !in PickerList(PickCategory(c), es)
  {
    var i :| 0 <= i < |es| && es[i] == e;
  }

  /** The common picker tab and the custom tab split the catalog: each exercise is on exactly one of
      the two. A non-custom exercise is also on its own category's tab. */
  lemma PickerTabsPartition(es: seq<Exercise>, e: Exercise)
    requires e in es
    ensures e in PickerList(PickCommon, es) <==> e !in PickerList(PickCategory(Custom), es)
  {
  }

  // ---------------------------------------------------------------------------------------------
  // Creating an exercise

  /** `handleAddExerciseAction`: nothing without a name; otherwise a new non-favourite exercise with a
      fresh id, the chosen category, and the muscle group "综合" when the field is left empty. */
  function NewExercise(name: string, category: ExerciseCategory, muscle: string, newId: string): (r: Option<Exercise>)
    ensures r.None? <==> name == ""
    ensures r.Some? ==> && r.value.id == newId && r.value.name == name && r.value.category == Some(category)
                        && r.value.isFavorite == Some(false) && r.value.exType == None
                        && r.value.muscleGroup == Some(if muscle == "" then "综合" else muscle)
  {
    if name == "" then None
    else Some(Exercise(newId, name, Some(category), Some(if muscle == "" then "综合" else muscle), Some(false), None))
  }

  // ---------------------------------------------------------------------------------------------
  // The template editor

  /** One line of the template being edited. */
  datatype DraftItem = DraftItem(exerciseId: string, sets: int, reps: int)

  /** The field an input box of a draft line edits. */
  datatype DraftField = SetsField | RepsField

  function ItemsToDraft(items: seq<TemplateItem>): (d: seq<DraftItem>)
    ensures |d| == |items|
    ensures forall i :: 0 <= i < |items| ==>
              d[i] == DraftItem(items[i].exerciseId, items[i].defaultSets, items[i].defaultReps)
  {
    seq(|items|, i requires 0 <= i < |items| => DraftItem(items[i].exerciseId, items[i].defaultSets, items[i].defaultReps))
  }

  function DraftToItems(d: seq<DraftItem>): (items: seq<TemplateItem>)
    ensures |items| == |d|
    ensures forall i :: 0 <= i < |d| ==> items[i] == TemplateItem(d[i].exerciseId, d[i].sets, d[i].reps)
  {
    seq(|d|, i requires 0 <= i < |d| => TemplateItem(d[i].exerciseId, d[i].sets, d[i].reps))
  }

  /** Opening a template for editing and saving it unchanged writes the same lines back. */
  lemma DraftRoundTrip(items: seq<TemplateItem>)
    ensures DraftToItems(ItemsToDraft(items)) == items
  {
  }

  /** Saving a draft line by line and reopening it gives the draft back. */
  lemma ItemsRoundTrip(d: seq<DraftItem>)
    ensures ItemsToDraft(DraftToItems(d)) == d
  {
  }

  /** `removeFromDraft`: drops the line at `index`; an index outside the list changes nothing. */
  function RemoveAt(d: seq<DraftItem>, index: int): (r: seq<DraftItem>)
    ensures 0 <= index < |d| ==> r == d[..index] + d[index + 1..]
    ensures !(0 <= index < |d|) ==> r == d
  {
    if 0 <= index < |d| then d[..index] + d[index + 1..] else d
  }

  /** `updateDraftItem`: the line at `index` gets `value` in the given field; every other line and
      field is unchanged, and an index outside the list changes nothing. */
  function UpdateAt(d: seq<DraftItem>, index: int, field: DraftField, value: int): (r: seq<DraftItem>)
    ensures |r| == |d|
    ensures forall i :: 0 <= i < |d| && i != index ==> r[i] == d[i]
    ensures 0 <= index < |d| ==> r[index].exerciseId == d[index].exerciseId
    ensures 0 <= index < |d| && field == SetsField ==> r[index].sets == value && r[index].reps == d[index].reps
    ensures 0 <= index < |d| && field == RepsField ==> r[index].reps == value && r[index].sets == d[index].sets
  {
    seq(|d|, i requires 0 <= i < |d| =>
      if i != index then d[i]
      else match field
           case SetsField => d[i].(sets := value)
           case RepsField => d[i].(reps := value))
  }

  /** Typing the same value twice is the same as typing it once. */
  lemma UpdateAtIdempotent(d: seq<DraftItem>, index: int, field: DraftField, value: int)
    ensures UpdateAt(UpdateAt(d, index, field, value), index, field, value) == UpdateAt(d, index, field, value)
  {
  }

  /** Removing the line just added restores the draft. */
  lemma RemoveUndoesAdd(d: seq<DraftItem>, exerciseId: string)
    ensures RemoveAt(d + [DraftItem(exerciseId, 3, 10)], |d|) == d
  {
    assert (d + [DraftItem(exerciseId, 3, 10)])[..|d|] == d;
  }

  /** What the save button hands to the root component. */
  datatype TemplateSave = AddTemplate(template: WorkoutTemplate) | UpdateTemplate(template: WorkoutTemplate)

  /** Whether the editor was opened on an existing template: `editingTemplateId` is a non-empty string
      (null and the empty string are both falsy). */
  predicate IsEditing(editingId: Option<string>) {
    IsNonEmpty(editingId)
  }

  /** `handleSaveTemplateAction`: nothing without a name or without lines; otherwise a template with
      the draft's lines, which updates the edited template (keeping its id) or adds a new one with the
      fresh id `newId`. */
  function SaveTemplate(editingId: Option<string>, name: string, draft: seq<DraftItem>, newId: string): (r: Option<TemplateSave>)
    ensures r.None? <==> name == "" || draft == []
    ensures r.Some? ==> && r.value.template.name == name
                        && r.value.template.items == DraftToItems(draft)
                        && (r.value.UpdateTemplate? <==> IsEditing(editingId))
                        && r.value.template.id == if IsEditing(editingId) then editingId.value else newId
  {
    if name == "" || draft == [] then None
    else
      var t := WorkoutTemplate(if IsEditing(editingId) then editingId.value else newId, name, DraftToItems(draft));
      if IsEditing(editingId) then Some(UpdateTemplate(t)) else Some(AddTemplate(t))
  }

  /** The state of the template dialog. */
  class TemplateEditor {
    var editingTemplateId: Option<string>
    var templateName: string
    var draftItems: seq<DraftItem>

    constructor ()
      ensures editingTemplateId == None && templateName == "" && draftItems == []
    {
      editingTemplateId := None;
      templateName := "";
      draftItems := [];
    }

    /** `openNewTemplateModal`. */
    method OpenNew()
      modifies this
      ensures editingTemplateId == None && templateName == "" && draftItems == []
    {
      editingTemplateId := None;
      templateName := "";
      draftItems := [];
    }

    /** `openEditTemplateModal`: the dialog holds the template's id, name and lines. */
    method OpenEdit(tpl: WorkoutTemplate)
      modifies this
      ensures editingTemplateId == Some(tpl.id) && templateName == tpl.name
      ensures draftItems == ItemsToDraft(tpl.items)
    {
      editingTemplateId := Some(tpl.id);
      templateName := tpl.name;
      draftItems := ItemsToDraft(tpl.items);
    }

    /** `setNewTemplateName`. */
    method SetName(name: string)
      modifies this
      ensures templateName == name
      ensures editingTemplateId == old(editingTemplateId) && draftItems == old(draftItems)
    {
      templateName := name;
    }

    /** `addToDraft`: a line for the exercise with 3 sets of 10 goes at the end. */
    method AddToDraft(exerciseId: string)
      modifies this
      ensures draftItems == old(draftItems) + [DraftItem(exerciseId, 3, 10)]
      ensures editingTemplateId == old(editingTemplateId) && templateName == old(templateName)
    {
      draftItems := draftItems + [DraftItem(exerciseId, 3, 10)];
    }

    method RemoveFromDraft(index: int)
      modifies this
      ensures draftItems == RemoveAt(old(draftItems), index)
      ensures editingTemplateId == old(editingTemplateId) && templateName == old(templateName)
    {
      draftItems := RemoveAt(draftItems, index);
    }

    method UpdateDraftItem(index: int, field: DraftField, value: int)
      modifies this
      ensures draftItems == UpdateAt(old(draftItems), index, field, value)
      ensures editingTemplateId == old(editingTemplateId) && templateName == old(templateName)
    {
      draftItems := UpdateAt(draftItems, index, field, value);
    }

    /** The save button: the template to add or update, after which the dialog is reset; nothing, and
        no change, when the name or the lines are missing. */
    method Save(newId: string) returns (r: Option<TemplateSave>)
      modifies this
      ensures r == SaveTemplate(old(editingTemplateId), old(templateName), old(draftItems), newId)
      ensures r.Some? ==> editingTemplateId == None && templateName == "" && draftItems == []
      ensures r.None? ==> editingTemplateId == old(editingTemplateId) && templateName == old(templateName)
                          && draftItems == old(draftItems)
    {
      r := SaveTemplate(editingTemplateId, templateName, draftItems, newId);
      if r.Some? {
        editingTemplateId := None;
        templateName := "";
        draftItems := [];
      }
    }
  }

  /** Opening a template with a non-empty id, name and line list and saving it unchanged updates that
      very template. */
  lemma EditUnchangedSavesSameTemplate(tpl: WorkoutTemplate, newId: string)
    requires tpl.id != "" && tpl.name != "" && tpl.items != []
    ensures SaveTemplate(Some(tpl.id), tpl.name, ItemsToDraft(tpl.items), newId) == Some(UpdateTemplate(tpl))
  {
    DraftRoundTrip(tpl.items);
  }

  /** A template whose id is the empty string is not recognised as edited: saving it adds a copy
      under the fresh id instead of updating it. */
  lemma EmptyIdSavesAsNew(tpl: WorkoutTemplate, newId: string)
    requires tpl.id == "" && tpl.name != "" && tpl.items != []
    ensures SaveTemplate(Some(tpl.id), tpl.name, ItemsToDraft(tpl.items), newId)
            == Some(AddTemplate(tpl.(id := newId)))
  {
    DraftRoundTrip(tpl.items);
  }

  /** A new template built by picking exercises gets one line of 3 sets of 10 per pick, in pick order. */
  lemma PicksBecomeLines(picks: seq<string>, name: string, newId: string)
    requires name != "" && picks != []
    ensures var d := seq(|picks|, i requires 0 <= i < |picks| => DraftItem(picks[i], 3, 10));
            var r := SaveTemplate(None, name, d, newId);
            && r.Some? && r.value.AddTemplate? && r.value.template.id == newId
            && |r.value.template.items| == |picks|
            && forall i :: 0 <= i < |picks| ==> r.value.template.items[i] == TemplateItem(picks[i], 3, 10)
  {
  }
}
