/**
 * The exercise catalog of one muscle group: searching it by name and adding an exercise to a workout.
 */
module ExerciseList {
  import opened Seqs
  import opened Js
  import opened Wrappers
  import opened WorkoutData
  import opened WorkoutContext

  /** A catalog exercise; the screen reads only its name. */
  datatype CatalogExercise = CatalogExercise(name: string)

  /** Whether the catalog exercise's lowercased name contains the lowercased query. */
  predicate MatchesQuery(e: CatalogExercise, query: string) {
    Includes(ToLower(e.name), ToLower(query))
  }

  /** `filterExercises`: the exercises matching the search, a subsequence of the catalog in its order. */
  function FilterExercises(exercises: seq<CatalogExercise>, query: string): (r: seq<CatalogExercise>)
    ensures forall e :: e in r <==> e in exercises && exists i: nat :: OccursAt(ToLower(e.name), ToLower(query), i)
    ensures Subsequence(r, exercises)
    ensures forall e :: multiset(r)[e] == if MatchesQuery(e, query) then multiset(exercises)[e] else 0
  {
    var keep := (e: CatalogExercise) => MatchesQuery(e, query);
    FilterIsSubsequence(exercises, keep);
    FilterCount(exercises, keep);
    Filter(exercises, keep)
  }

  /** An empty search keeps the whole catalog. */
  lemma {:induction false} EmptyQueryKeepsAll(exercises: seq<CatalogExercise>)
    ensures FilterExercises(exercises, "") == exercises
  {
    var keep := (e: CatalogExercise) => MatchesQuery(e, "");
    assert forall e :: keep(e) by {
      forall e ensures keep(e) {
        assert ToLower("") == "";
        assert OccursAt(ToLower(e.name), "", 0);
      }
    }
    FilterKeepsAll(exercises, keep);
  }

  lemma {:induction false} FilterKeepsAll(s: seq<CatalogExercise>, p: CatalogExercise -> bool)
    requires forall e :: p(e)
    ensures Filter(s, p) == s
  {
    if s != [] {
      FilterKeepsAll(s[1..], p);
      assert s == [s[0]] + s[1..];
    }
  }

  /** The workout `handleSaveToWorkout` builds: one exercise appended, 3 planned sets of 12, notes "". */
  function WithExercise(w: Workout, name: string): (r: Workout)
    ensures r.(exercises := w.exercises) == w
    ensures |r.exercises| == |w.exercises| + 1 && r.exercises[..|w.exercises|] == w.exercises
    ensures var added := r.exercises[|w.exercises|];
      added.name == name && added.notes == Some("") && |added.sets| == 3
      && forall s :: s in added.sets ==> s == WorkSet(Some(0), Some(12), false)
  {
    w.(exercises := w.exercises + [Exercise(name, PlannedSets(3, 12), Some(""))])
  }

  /** The notification text. */
  function AddedMessage(exercise: string, workout: string): string {
    "Added " + exercise + " to " + workout
  }

  /** `handleSaveToWorkout`: saves the workout with the selected exercise added and returns the notification. */
  method HandleSaveToWorkout(provider: WorkoutProvider, w: Workout, selected: CatalogExercise)
    returns (notification: string)
    modifies provider`workouts, provider`storedWorkouts
    ensures provider.workouts == old(provider.workouts) + [Plan(WithExercise(w, selected.name))]
    ensures provider.storedWorkouts == Some(provider.workouts)
    ensures notification == AddedMessage(selected.name, w.name)
  {
    provider.SaveWorkout(Plan(WithExercise(w, selected.name)));
    notification := AddedMessage(selected.name, w.name);
  }
}
