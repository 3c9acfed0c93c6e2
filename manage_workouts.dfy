/**
 * The list of templates and saved workouts, and deleting a saved workout. The templates are the app's
 * fixed table of three.
 */
module ManageWorkouts {
  import opened Wrappers
  import opened Seqs
  import opened WorkoutData
  import opened WorkoutContext

  function TemplateExercise(name: string, sets: nat, reps: nat): Exercise {
    Exercise(name, PlannedSets(sets, reps), None)
  }

  function Template(name: string, description: string, exercises: seq<Exercise>): Workout {
    Workout(name, exercises, None, None, None, Some("template"), Some(description))
  }

  /** `Object.values(WORKOUT_TEMPLATES)`: push, pull and legs, in that order. */
  function Templates(): (ts: seq<Workout>)
    ensures |ts| == 3
    ensures forall t :: t in ts ==> t.kind == Some("template") && t.exercises != []
  {
    [ Template("Push Day", "Chest, Shoulders, and Triceps",
        [ TemplateExercise("Bench Press", 4, 8), TemplateExercise("Overhead Press", 4, 8),
          TemplateExercise("Incline Dumbbell Press", 3, 10), TemplateExercise("Lateral Raises", 3, 12),
          TemplateExercise("Tricep Pushdowns", 3, 12) ]),
      Template("Pull Day", "Back and Biceps",
        [ TemplateExercise("Barbell Rows", 4, 8), TemplateExercise("Pull-ups", 4, 8),
          TemplateExercise("Face Pulls", 3, 12), TemplateExercise("Barbell Curls", 3, 10) ]),
      Template("Leg Day", "Lower Body Focus",
        [ TemplateExercise("Squats", 4, 8), TemplateExercise("Romanian Deadlifts", 4, 8),
          TemplateExercise("Leg Press", 3, 12), TemplateExercise("Calf Raises", 4, 15) ]) ]
  }

  /** `w.name` of a list element: a whole array stored as one element has no name. */
  function EntryName(e: Entry): Option<string> {
    if e.Plan? then Some(e.workout.name) else None
  }

  /**
   * The filtered list of `deleteWorkout`: exactly the elements whose name differs from the target's, in
   * their original order; no workout of that name is left, duplicates included.
   */
  function Remaining(workouts: seq<Entry>, target: Workout): (r: seq<Entry>)
    ensures forall e :: e in r <==> e in workouts && EntryName(e) != Some(target.name)
    ensures forall e :: e in r && e.Plan? ==> e.workout.name != target.name
    ensures Subsequence(r, workouts)
    ensures forall e :: multiset(r)[e] == if EntryName(e) != Some(target.name) then multiset(workouts)[e] else 0
  {
    var keep := (e: Entry) => EntryName(e) != Some(target.name);
    FilterIsSubsequence(workouts, keep);
    FilterCount(workouts, keep);
    Filter(workouts, keep)
  }

  /**
   * `deleteWorkout`: the filtered list goes to `saveWorkout`, which appends it as ONE element, so the
   * list grows by one and nothing is removed, the deleted workout included.
   */
  method DeleteWorkout(provider: WorkoutProvider, target: Workout)
    modifies provider`workouts, provider`storedWorkouts
    ensures provider.workouts == old(provider.workouts) + [Batch(Remaining(old(provider.workouts), target))]
    ensures provider.storedWorkouts == Some(provider.workouts)
    ensures |provider.workouts| == |old(provider.workouts)| + 1
    ensures forall e :: e in old(provider.workouts) ==> e in provider.workouts
    ensures Cards(false, provider.workouts).Failure?
  {
    var updatedWorkouts := Remaining(provider.workouts, target);
    provider.SaveWorkout(Batch(updatedWorkouts));
    DeletedListThrows(old(provider.workouts), target);
  }

  /**
   * `deleteWorkout` as evidently intended: the list becomes the filtered list, which the store then holds.
   */
  method DeleteWorkoutIntended(provider: WorkoutProvider, target: Workout)
    modifies provider`workouts, provider`storedWorkouts
    ensures provider.workouts == Remaining(old(provider.workouts), target)
    ensures provider.storedWorkouts == Some(provider.workouts)
  {
    provider.workouts := Remaining(provider.workouts, target);
    provider.storedWorkouts := Some(provider.workouts);
  }

  /** One line of a card, `• name (sets.length × sets[0].reps)`. */
  datatype CardLine = CardLine(name: string, setCount: nat, reps: Option<nat>)

  /** A card of the list: the workout shown, one line per exercise, and whether it offers Delete. */
  datatype Card = Card(workout: Workout, lines: seq<CardLine>, deletable: bool)

  /** The line of an exercise as the card reads it. */
  function LineOf(ex: Exercise): CardLine
    requires ex.sets != []
  {
    CardLine(ex.name, |ex.sets|, ex.sets[0].reps)
  }

  /** An exercise's line reads `sets[0].reps`, which throws for an exercise without sets. */
  function Lines(exercises: seq<Exercise>): (r: Result<seq<CardLine>, JsError>)
    ensures r.Failure? <==> exists i :: 0 <= i < |exercises| && exercises[i].sets == []
    ensures r.Success? ==> |r.value| == |exercises|
    ensures r.Success? ==> forall i :: 0 <= i < |exercises| ==> r.value[i] == LineOf(exercises[i])
    decreases |exercises|
  {
    if exercises == [] then Success([])
    else if exercises[0].sets == [] then Failure(TypeError)
    else match Lines(exercises[1..])
      case Failure(e) => Failure(e)
      case Success(rest) => Success([LineOf(exercises[0])] + rest)
  }

  /** Whether rendering the card of `item` throws: a whole array has no `exercises`, and an exercise may have no set. */
  predicate CardThrows(item: Entry) {
    item.Batch? || exists i :: 0 <= i < |item.workout.exercises| && item.workout.exercises[i].sets == []
  }

  /** `renderWorkoutCard`: `item.exercises.length` throws for a whole array stored as one element. */
  function CardOf(item: Entry, isTemplate: bool): (r: Result<Card, JsError>)
    ensures r.Failure? <==> CardThrows(item)
    ensures r.Success? ==> r.value.workout == item.workout && r.value.deletable == !isTemplate
    ensures r.Success? ==> |r.value.lines| == |item.workout.exercises|
    ensures r.Success? ==> forall j :: 0 <= j < |r.value.lines| ==> r.value.lines[j] == LineOf(item.workout.exercises[j])
  {
    match item
    case Batch(_) => Failure(TypeError)
    case Plan(w) =>
      match Lines(w.exercises)
      case Failure(e) => Failure(e)
      case Success(lines) => Success(Card(w, lines, !isTemplate))
  }

  /** The cards of a list, in order; the list fails to render when any card throws. */
  function CardsOf(items: seq<Entry>, isTemplate: bool): (r: Result<seq<Card>, JsError>)
    ensures r.Failure? <==> exists i :: 0 <= i < |items| && CardThrows(items[i])
    ensures r.Success? ==> |r.value| == |items|
    ensures r.Success? ==> forall i :: 0 <= i < |items| ==> CardOf(items[i], isTemplate) == Success(r.value[i])
    decreases |items|
  {
    if items == [] then Success([])
    else match CardOf(items[0], isTemplate)
      case Failure(e) => Failure(e)
      case Success(c) =>
        match CardsOf(items[1..], isTemplate)
        case Failure(e) => Failure(e)
        case Success(rest) => Success([c] + rest)
  }

  /** `data={showTemplates ? templates : workouts}`: the templates, none of whose cards throws, or the saved list. */
  function ListItems(showTemplates: bool, workouts: seq<Entry>): (items: seq<Entry>)
    ensures showTemplates ==> |items| == |Templates()|
    ensures showTemplates ==> forall i :: 0 <= i < |items| ==> items[i] == Plan(Templates()[i]) && !CardThrows(items[i])
    ensures !showTemplates ==> items == workouts
  {
    if showTemplates then
      TemplatesRender();
      seq(|Templates()|, i requires 0 <= i < |Templates()| => Plan(Templates()[i]))
    else workouts
  }

  /**
   * The list throws exactly when some element shown throws, which only a saved element can do. Otherwise
   * there is one card per element, in order, showing its workout with one line per exercise, and only
   * saved workouts offer Delete.
   */
  function Cards(showTemplates: bool, workouts: seq<Entry>): (r: Result<seq<Card>, JsError>)
    ensures var items := ListItems(showTemplates, workouts);
      && (r.Failure? <==> exists i :: 0 <= i < |items| && CardThrows(items[i]))
      && (r.Failure? ==> !showTemplates)
      && (r.Success? ==> |r.value| == |items|)
      && (r.Success? ==> forall i :: 0 <= i < |items| ==>
           && r.value[i].workout == items[i].workout
           && r.value[i].deletable == !showTemplates
           && |r.value[i].lines| == |items[i].workout.exercises|)
  {
    var items := ListItems(showTemplates, workouts);
    var r := CardsOf(items, showTemplates);
    assert r.Success? ==> forall i :: 0 <= i < |items| ==>
      r.value[i].workout == items[i].workout && r.value[i].deletable == !showTemplates
      && |r.value[i].lines| == |items[i].workout.exercises| by {
      if r.Success? {
        forall i | 0 <= i < |items|
          ensures r.value[i].workout == items[i].workout && r.value[i].deletable == !showTemplates
          ensures |r.value[i].lines| == |items[i].workout.exercises|
        {
          assert CardOf(items[i], showTemplates) == Success(r.value[i]);
        }
      }
    }
    r
  }

  /** Every template exercise has a set, so no template card throws. */
  lemma TemplatesRender()
    ensures forall t :: t in Templates() ==> forall ex :: ex in t.exercises ==> ex.sets != []
  {
  }

  /** As written, deleting any workout makes the saved list throw: the appended array has no `exercises`. */
  lemma DeletedListThrows(workouts: seq<Entry>, target: Workout)
    ensures Cards(false, workouts + [Batch(Remaining(workouts, target))]).Failure?
  {
    var after := workouts + [Batch(Remaining(workouts, target))];
    assert CardThrows(after[|workouts|]);
  }

  /**
   * With the intended deletion a list that renders still renders, and has one card fewer for each
   * removed workout: no card shows a workout of the deleted name.
   */
  lemma RemainingKeepsCards(workouts: seq<Entry>, target: Workout)
    requires Cards(false, workouts).Success?
    ensures Cards(false, Remaining(workouts, target)).Success?
    ensures forall c :: c in Cards(false, Remaining(workouts, target)).value ==> c.workout.name != target.name
  {
    var rest := Remaining(workouts, target);
    forall i | 0 <= i < |rest| ensures !CardThrows(rest[i]) {
      assert rest[i] in workouts;
      var k :| 0 <= k < |workouts| && workouts[k] == rest[i];
    }
    var cards := Cards(false, rest).value;
    forall c | c in cards ensures c.workout.name != target.name {
      var i :| 0 <= i < |cards| && cards[i] == c;
      assert rest[i] in rest;
    }
  }
}
