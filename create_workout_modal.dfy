/**
 * The dialog that creates an empty workout from a typed name.
 */
module CreateWorkoutModal {
  import opened Wrappers
  import opened Js
  import opened WorkoutData
  import opened WorkoutContext

  /** The callbacks the dialog fires, in order. */
  datatype Callback = OnSuccess(workout: Workout) | OnClose

  /** The workout created from a name: the name as typed (not trimmed), no exercises, dated now. */
  function NewWorkout(name: string, now: int): Workout {
    Workout(name, [], Some(now), None, None, None, None)
  }

  /** The Create button is enabled exactly when the trimmed name is not empty. */
  predicate CreateEnabled(name: string) {
    Trim(name) != ""
  }

  /** Create is disabled exactly for names made only of whitespace, the empty name included. */
  lemma CreateEnabledMeaning(name: string)
    ensures CreateEnabled(name) <==> exists i :: 0 <= i < |name| && !IsSpace(name[i])
  {
    TrimEmpty(name);
  }

  class Dialog {
    var workoutName: string

    constructor ()
      ensures workoutName == ""
    {
      workoutName := "";
    }

    /** Typing into the name box. */
    method SetName(name: string)
      modifies this`workoutName
      ensures workoutName == name
    {
      workoutName := name;
    }

    /**
     * `handleCreate`: nothing happens for a blank name. Otherwise the workout is saved, the name box is
     * cleared, `onSuccess` (when given) receives the new workout, and then `onClose` is called.
     */
    method HandleCreate(provider: WorkoutProvider, now: int, hasOnSuccess: bool) returns (events: seq<Callback>)
      modifies this`workoutName, provider`workouts, provider`storedWorkouts
      ensures !CreateEnabled(old(workoutName)) ==>
        && events == []
        && workoutName == old(workoutName)
        && provider.workouts == old(provider.workouts)
        && provider.storedWorkouts == old(provider.storedWorkouts)
      ensures CreateEnabled(old(workoutName)) ==>
        var w := NewWorkout(old(workoutName), now);
        && provider.workouts == old(provider.workouts) + [Plan(w)]
        && provider.storedWorkouts == Some(provider.workouts)
        && workoutName == ""
        && events == (if hasOnSuccess then [OnSuccess(w), OnClose] else [OnClose])
    {
      events := [];
      if Trim(workoutName) != "" {
        var newWorkout := NewWorkout(workoutName, now);
        provider.SaveWorkout(Plan(newWorkout));
        workoutName := "";
        if hasOnSuccess {
          events := events + [OnSuccess(newWorkout)];
        }
        events := events + [OnClose];
      }
    }
  }
}
