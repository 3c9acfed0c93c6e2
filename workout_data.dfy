/**
 * The records the screens and the workout context pass around. Field values JavaScript may leave
 * `undefined` are `Option`s; arrays that the session tracker writes by index are sequences of `Slot`s.
 * Dates are timestamps; text the user typed into a numeric field arrives already parsed.
 */
module WorkoutData {
  import opened Wrappers
  import opened Seqs
  import opened Js

  /** The error JavaScript raises when code reads a property of `undefined`. */
  datatype JsError = TypeError

  /** One set. A set logged in the tracker may lack `weight` or `reps` until the user types them. */
  datatype WorkSet = WorkSet(weight: Option<nat>, reps: Option<nat>, completed: bool)

  /** An exercise of a workout plan; template exercises have no `notes` field. */
  datatype Exercise = Exercise(name: string, sets: seq<WorkSet>, notes: Option<string>)

  /**
   * A workout plan or template. `kind` is a template's `type` field; plans built by the planner carry
   * `date`, `isFromTemplate` and `originalTemplate`, templates carry `kind` and `description`.
   */
  datatype Workout = Workout(
    name: string,
    exercises: seq<Exercise>,
    date: Option<int>,
    isFromTemplate: Option<bool>,
    originalTemplate: Option<string>,
    kind: Option<string>,
    description: Option<string>)

  /**
   * An element of the provider's workout list. `saveWorkout` appends whatever it is given, and one
   * caller gives it a whole array of workouts, which then sits in the list as a single element.
   */
  datatype Entry = Plan(workout: Workout) | Batch(items: seq<Entry>)

  /** One exercise as logged in a session: its name and the sets written so far (possibly with holes). */
  datatype LoggedExercise = LoggedExercise(name: string, sets: seq<Slot<WorkSet>>)

  /** A tracked session: when, which workout, and the logged exercises (possibly with holes or undefined). */
  datatype Session = Session(date: int, workout: string, exercises: seq<Slot<LoggedExercise>>)

  /** A per-exercise progress record, as the progress screen reads it. A missing `sets` is the empty list. */
  datatype ProgressRecord = ProgressRecord(name: string, date: int, sets: seq<WorkSet>)

  /** A chart label: the padding label "Start", or the formatted date of a timestamp. */
  datatype Label = Start | Day(timestamp: int)

  /** A new planned set: no weight yet, the target reps, not completed. */
  function PlannedSet(reps: nat): WorkSet {
    WorkSet(Some(0), Some(reps), false)
  }

  /** `Array(n).fill({ weight: 0, reps, completed: false })`: n identical planned sets. */
  function PlannedSets(n: nat, reps: nat): seq<WorkSet> {
    Filled(n, PlannedSet(reps))
  }

  /** Some element of a set list is undefined (or `null`): reading its `weight` throws. */
  predicate UndefSet(sets: seq<Slot<WorkSet>>) {
    exists i :: 0 <= i < |sets| && sets[i].Undef?
  }

  /** A set that holds a weight. */
  predicate Weighed(slot: Slot<WorkSet>) {
    slot.Val? && slot.value.weight.Some?
  }

  /** `sets.map((set) => set.weight)`, for lists without undefined elements: a hole stays undefined. */
  function SlotWeights(sets: seq<Slot<WorkSet>>): seq<Option<nat>> {
    seq(|sets|, i requires 0 <= i < |sets| => if sets[i].Val? then sets[i].value.weight else None)
  }

  /**
   * `Math.max(...sets.map((set) => set.weight))`: the map throws on an undefined element; otherwise the
   * result is -Infinity for no sets, NaN when a hole or a set without a weight is among them, and else
   * the largest weight, which some set holds.
   */
  function MaxWeight(sets: seq<Slot<WorkSet>>): (r: Result<Number, JsError>)
    ensures r.Failure? <==> UndefSet(sets)
    ensures r.Success? ==> (r.value == NegInfinity <==> sets == [])
    ensures r.Success? ==> (r.value == NaN <==> exists i :: 0 <= i < |sets| && !Weighed(sets[i]))
    ensures r.Success? && r.value.Finite? ==>
      && (forall i :: 0 <= i < |sets| ==> Weighed(sets[i]) && sets[i].value.weight.value <= r.value.n)
      && (exists i :: 0 <= i < |sets| && Weighed(sets[i]) && sets[i].value.weight == Some(r.value.n))
  {
    if UndefSet(sets) then Failure(TypeError)
    else
      var ws := SlotWeights(sets);
      var m := MathMax(ws);
      assert None in ws <==> exists i :: 0 <= i < |sets| && !Weighed(sets[i]) by {
        if None in ws {
          var i :| 0 <= i < |ws| && ws[i] == None;
          assert !Weighed(sets[i]);
        }
        if exists i :: 0 <= i < |sets| && !Weighed(sets[i]) {
          var i :| 0 <= i < |sets| && !Weighed(sets[i]);
          assert ws[i] == None;
        }
      }
      assert m.Finite? ==> exists i :: 0 <= i < |sets| && Weighed(sets[i]) && sets[i].value.weight == Some(m.n) by {
        if m.Finite? {
          var i :| 0 <= i < |ws| && ws[i] == Some(m.n);
          assert Weighed(sets[i]);
        }
      }
      assert m.Finite? ==> forall i :: 0 <= i < |sets| ==> Weighed(sets[i]) && sets[i].value.weight.value <= m.n by {
        if m.Finite? {
          forall i | 0 <= i < |sets| ensures Weighed(sets[i]) && sets[i].value.weight.value <= m.n {
            assert ws[i] in ws;
          }
        }
      }
      Success(m)
  }
}
