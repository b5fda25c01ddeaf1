/** The entity shapes of the workout tracker (types.ts). Optional TypeScript fields are `Option`s. */
module Types {
  import opened Wrappers

  /** The nine exercise categories; each stands for the Chinese label the application stores. */
  datatype ExerciseCategory =
    | Chest | Back | Legs | Core | Arms | Shoulders | Cardio | FullBody | Custom

  /** Whether an exercise is counted in repetitions or in seconds. */
  datatype ExerciseType = Reps | Duration

  /** A catalog entry describing one movement. `category` is `None` when the stored value is none of
      the nine: the built-in catalog names enum members that do not exist, which evaluate to
      `undefined`, and a remote row's category string is cast without a check. Every comparison the
      screens make treats such a value as different from all nine categories. */
  datatype Exercise = Exercise(
    id: string,
    name: string,
    category: Option<ExerciseCategory>,
    muscleGroup: Option<string>,
    isFavorite: Option<bool>,
    exType: Option<ExerciseType>)

  /** The repetitions of a set: a number, or the raw text of the input box while it is edited. */
  datatype RepCount = RepsNumber(n: int) | RepsText(s: string)

  /** One set of an exercise on a given day. */
  datatype WorkoutSet = WorkoutSet(id: string, reps: RepCount, completed: bool)

  /** An exercise scheduled on a day; `exerciseId` is a reference, not ownership. */
  datatype WorkoutItem = WorkoutItem(id: string, exerciseId: string, sets: seq<WorkoutSet>, notes: Option<string>)

  /** The workout of one calendar day, keyed by its `YYYY-MM-DD` date string. */
  datatype DailyWorkout = DailyWorkout(date: string, items: seq<WorkoutItem>)

  /** One line of a template: which exercise, and how many sets of how many repetitions. */
  datatype TemplateItem = TemplateItem(exerciseId: string, defaultSets: int, defaultReps: int)

  /** A reusable, named list of exercises with default set and repetition targets. */
  datatype WorkoutTemplate = WorkoutTemplate(id: string, name: string, items: seq<TemplateItem>)

  /** The last-used configuration of one exercise. */
  datatype Preference = Preference(defaultSets: int, defaultReps: int)

  /** Preferences keyed by exercise id. */
  type ExercisePreferences = map<string, Preference>

  /** The label stored for each category. */
  function CategoryLabel(c: ExerciseCategory): string {
    match c
    case Chest => "胸部"
    case Back => "背部"
    case Legs => "腿部"
    case Core => "核心"
    case Arms => "手臂"
    case Shoulders => "肩部"
    case Cardio => "有氧"
    case FullBody => "全身"
    case Custom => "自定义"
  }

  /** The labels are pairwise distinct, so comparing stored labels is comparing categories. */
  lemma CategoryLabelInjective(a: ExerciseCategory, b: ExerciseCategory)
    ensures CategoryLabel(a) == CategoryLabel(b) <==> a == b
  {
    if CategoryLabel(a) == CategoryLabel(b) {
      assert CategoryLabel(a)[0] == CategoryLabel(b)[0];
      assert CategoryLabel(a)[|CategoryLabel(a)| - 1] == CategoryLabel(b)[|CategoryLabel(b)| - 1];
    }
  }

  /** Whether dates are keys of the workout list: no two records share a date. */
  predicate DatesUnique(ws: seq<DailyWorkout>) {
    forall i, j :: 0 <= i < j < |ws| ==> ws[i].date != ws[j].date
  }

  /** Whether no two records of a list share an id. */
  predicate ExerciseIdsUnique(es: seq<Exercise>) {
    forall i, j :: 0 <= i < j < |es| ==> es[i].id != es[j].id
  }

  /** Whether no two templates share an id. */
  predicate TemplateIdsUnique(ts: seq<WorkoutTemplate>) {
    forall i, j :: 0 <= i < j < |ts| ==> ts[i].id != ts[j].id
  }
}
