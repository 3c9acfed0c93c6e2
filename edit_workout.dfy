/**
 * The edit screen of a saved workout: deleting an exercise and changing an exercise's sets. Both hand
 * the updated workout to the provider, which appends it next to the original.
 */
module EditWorkout {
  import opened Wrappers
  import opened Seqs
  import opened WorkoutData
  import opened WorkoutContext

  /**
   * The workout `handleDeleteExercise` builds: every exercise with the target's name is gone (duplicates
   * too), the others stay in order, and every other field of the workout is kept.
   */
  function WithoutExercise(w: Workout, target: Exercise): (r: Workout)
    ensures r.(exercises := w.exercises) == w
    ensures forall ex :: ex in r.exercises <==> ex in w.exercises && ex.name != target.name
    ensures Subsequence(r.exercises, w.exercises)
    ensures forall ex :: multiset(r.exercises)[ex] == if ex.name != target.name then multiset(w.exercises)[ex] else 0
  {
    var keep := (ex: Exercise) => ex.name != target.name;
    FilterIsSubsequence(w.exercises, keep);
    FilterCount(w.exercises, keep);
    w.(exercises := Filter(w.exercises, keep))
  }

  /** `handleDeleteExercise`: saves the workout without the target's exercises. */
  method HandleDeleteExercise(provider: WorkoutProvider, w: Workout, target: Exercise)
    modifies provider`workouts, provider`storedWorkouts
    ensures provider.workouts == old(provider.workouts) + [Plan(WithoutExercise(w, target))]
    ensures provider.storedWorkouts == Some(provider.workouts)
  {
    provider.SaveWorkout(Plan(WithoutExercise(w, target)));
  }

  /**
   * `handleEditExercise`: the edit box starts with the exercise's set count and its first set's reps;
   * reading the reps of a missing first set, or missing reps, throws.
   */
  function HandleEditExercise(ex: Exercise): (r: Result<(nat, nat), JsError>)
    ensures r.Success? <==> |ex.sets| > 0 && ex.sets[0].reps.Some?
    ensures r.Success? ==> r.value.0 == |ex.sets| && Some(r.value.1) == ex.sets[0].reps
  {
    if |ex.sets| == 0 || ex.sets[0].reps.None? then Failure(TypeError)
    else Success((|ex.sets|, ex.sets[0].reps.value))
  }

  /**
   * The workout `handleSaveExerciseEdit` builds: every exercise named like the edited one gets `tempSets`
   * planned sets of `tempReps` reps; count, order, names, notes and all other fields are kept.
   */
  function WithEditedSets(w: Workout, edited: string, tempSets: nat, tempReps: nat): (r: Workout)
    ensures r.(exercises := w.exercises) == w
    ensures |r.exercises| == |w.exercises|
    ensures forall i :: 0 <= i < |w.exercises| ==>
      && r.exercises[i].(sets := w.exercises[i].sets) == w.exercises[i]
      && (w.exercises[i].name == edited ==>
            |r.exercises[i].sets| == tempSets && forall s :: s in r.exercises[i].sets ==> s == PlannedSet(tempReps))
      && (w.exercises[i].name != edited ==> r.exercises[i] == w.exercises[i])
  {
    var exs := w.exercises;
    w.(exercises := seq(|exs|, i requires 0 <= i < |exs| =>
      if exs[i].name == edited then exs[i].(sets := PlannedSets(tempSets, tempReps)) else exs[i]))
  }

  /** `handleSaveExerciseEdit`: saves the edited workout. */
  method HandleSaveExerciseEdit(provider: WorkoutProvider, w: Workout, editing: Exercise, tempSets: nat, tempReps: nat)
    modifies provider`workouts, provider`storedWorkouts
    ensures provider.workouts == old(provider.workouts) + [Plan(WithEditedSets(w, editing.name, tempSets, tempReps))]
    ensures provider.storedWorkouts == Some(provider.workouts)
  {
    provider.SaveWorkout(Plan(WithEditedSets(w, editing.name, tempSets, tempReps)));
  }

  /**
   * Saving an edit with the values the edit box starts with changes nothing when the exercise's sets are
   * identical planned sets and no other exercise shares its name.
   */
  lemma UnchangedEditKeepsWorkout(w: Workout, i: nat, reps: nat)
    requires i < |w.exercises|
    requires |w.exercises[i].sets| > 0 && w.exercises[i].sets == PlannedSets(|w.exercises[i].sets|, reps)
    requires forall k :: 0 <= k < |w.exercises| && k != i ==> w.exercises[k].name != w.exercises[i].name
    ensures HandleEditExercise(w.exercises[i]) == Success((|w.exercises[i].sets|, reps))
    ensures WithEditedSets(w, w.exercises[i].name, |w.exercises[i].sets|, reps) == w
  {
    var ex := w.exercises[i];
    assert ex.sets[0] == PlannedSet(reps);
    var r := WithEditedSets(w, ex.name, |ex.sets|, reps);
    forall k | 0 <= k < |w.exercises| ensures r.exercises[k] == w.exercises[k] {
      if k == i {
        assert r.exercises[k].sets == ex.sets;
      }
    }
    assert r.exercises == w.exercises;
  }
}
