/**
 * The session tracker: the user picks a workout, logs weight, reps and completion per set, and saves
 * the logged exercises as a tracked session.
 */
module ExerciseTracker {
  import opened Wrappers
  import opened Seqs
  import opened WorkoutData
  import opened WorkoutContext

  /** The set field a text box or the tick button writes. */
  datatype Field = WeightField | RepsField | CompletedField

  /**
   * `{ ...set, [field]: Number(value), completed: true }`: the earlier set (or nothing) with the field
   * written. For the tick button the written `completed: 1` is overridden by the later `completed: true`.
   */
  function Logged(prev: Slot<WorkSet>, field: Field, value: nat): (r: WorkSet)
    ensures r.completed
    ensures field.WeightField? ==> r.weight == Some(value)
    ensures field.RepsField? ==> r.reps == Some(value)
    ensures !field.WeightField? ==> r.weight == (if prev.Val? then prev.value.weight else None)
    ensures !field.RepsField? ==> r.reps == (if prev.Val? then prev.value.reps else None)
  {
    var base := if prev.Val? then prev.value else WorkSet(None, None, false);
    match field
    case WeightField => base.(weight := Some(value), completed := true)
    case RepsField => base.(reps := Some(value), completed := true)
    case CompletedField => base.(completed := true)
  }

  /**
   * The session after `logSet(i, j, field, value)`: the array is copied with a spread, the entry at i is
   * created (named after the workout's exercise i) when absent, and its set j is written.
   */
  function AfterLogSet(session: seq<Slot<LoggedExercise>>, name: string, i: nat, j: nat, field: Field, value: nat)
    : seq<Slot<LoggedExercise>>
  {
    var copy := Spread(session);
    var entry := if At(copy, i).Val? then At(copy, i).value else LoggedExercise(name, []);
    WriteAt(copy, i, entry.(sets := WriteAt(entry.sets, j, Logged(At(entry.sets, j), field, value))))
  }

  /** Every set present in every entry present is completed. */
  predicate CanComplete(session: seq<Slot<LoggedExercise>>) {
    forall k, j :: 0 <= k < |session| && session[k].Val? && 0 <= j < |session[k].value.sets| && session[k].value.sets[j].Val? ==>
      session[k].value.sets[j].value.completed
  }

  /**
   * The enable condition of Complete Workout as written,
   * `currentSession.every((ex) => ex?.sets?.every((set) => set?.completed))`: `every` skips holes, at
   * both levels, but an undefined element makes the callback return undefined, which fails the test.
   */
  predicate CompleteEnabled(session: seq<Slot<LoggedExercise>>) {
    forall k :: 0 <= k < |session| ==>
      session[k].Hole? ||
      (session[k].Val? && forall j :: 0 <= j < |session[k].value.sets| ==>
        session[k].value.sets[j].Hole? || (session[k].value.sets[j].Val? && session[k].value.sets[j].value.completed))
  }

  class Tracker {
    var selectedWorkout: Option<Workout>
    var currentSession: seq<Slot<LoggedExercise>>

    constructor ()
      ensures selectedWorkout == None && currentSession == []
    {
      selectedWorkout := None;
      currentSession := [];
    }

    /** Choosing a workout from the list. */
    method SelectWorkout(w: Workout)
      modifies this`selectedWorkout
      ensures selectedWorkout == Some(w)
    {
      selectedWorkout := Some(w);
    }

    /** `logSet(exerciseIndex, setIndex, field, value)`; the indexes come from the selected workout's list. */
    method LogSet(exerciseIndex: nat, setIndex: nat, field: Field, value: nat)
      requires selectedWorkout.Some? && exerciseIndex < |selectedWorkout.value.exercises|
      modifies this`currentSession
      ensures currentSession == AfterLogSet(old(currentSession),
        selectedWorkout.value.exercises[exerciseIndex].name, exerciseIndex, setIndex, field, value)
      ensures CanComplete(old(currentSession)) ==> CanComplete(currentSession)
    {
      ghost var name := selectedWorkout.value.exercises[exerciseIndex].name;
      if CanComplete(currentSession) {
        LogSetKeepsCanComplete(currentSession, name, exerciseIndex, setIndex, field, value);
      }
      var updatedSession := Spread(currentSession);
      if !At(updatedSession, exerciseIndex).Val? {
        updatedSession := WriteAt(updatedSession, exerciseIndex,
          LoggedExercise(selectedWorkout.value.exercises[exerciseIndex].name, []));
      }
      var entry := updatedSession[exerciseIndex].value;
      var logged := Logged(At(entry.sets, setIndex), field, value);
      updatedSession := updatedSession[exerciseIndex := Val(entry.(sets := WriteAt(entry.sets, setIndex, logged)))];
      currentSession := updatedSession;
    }

    /** `saveSession`: hands the provider a session dated `now` with the workout's name and the logged entries. */
    method SaveSession(provider: WorkoutProvider, now: int)
      requires selectedWorkout.Some?
      modifies provider`trackedSessions, provider`storedSessions
      ensures provider.trackedSessions ==
        old(provider.trackedSessions) + [Session(now, selectedWorkout.value.name, currentSession)]
      ensures provider.storedSessions == Some(provider.trackedSessions)
    {
      provider.TrackSession(Session(now, selectedWorkout.value.name, currentSession));
    }
  }

  /**
   * logSet writes one set of one entry: the entry at i keeps its name (or takes the workout exercise's
   * name when it was absent), its set j gets the field, every other set is unchanged, and every other
   * index keeps its entry, except that holes become undefined.
   */
  lemma LogSetMeaning(session: seq<Slot<LoggedExercise>>, name: string, i: nat, j: nat, field: Field, value: nat)
    ensures var r := AfterLogSet(session, name, i, j, field, value);
      var prev := At(session, i);
      var prevSets := if prev.Val? then prev.value.sets else [];
      && |r| == (if i < |session| then |session| else i + 1)
      && (forall k :: 0 <= k < |r| && k != i ==> r[k] == (if At(session, k).Val? then At(session, k) else if k < |session| then Undef else Hole))
      && r[i].Val?
      && r[i].value.name == (if prev.Val? then prev.value.name else name)
      && |r[i].value.sets| == (if j < |prevSets| then |prevSets| else j + 1)
      && r[i].value.sets[j] == Val(Logged(At(prevSets, j), field, value))
      && (forall m :: 0 <= m < |r[i].value.sets| && m != j ==> r[i].value.sets[m] == At(prevSets, m))
  {
    var copy := Spread(session);
    assert At(copy, i).Val? <==> At(session, i).Val?;
    assert At(copy, i).Val? ==> At(copy, i) == At(session, i);
  }

  /** Every set logSet writes is completed, so the session keeps every present set completed. */
  lemma LogSetKeepsCanComplete(session: seq<Slot<LoggedExercise>>, name: string, i: nat, j: nat, field: Field, value: nat)
    requires CanComplete(session)
    ensures CanComplete(AfterLogSet(session, name, i, j, field, value))
  {
    var r := AfterLogSet(session, name, i, j, field, value);
    LogSetMeaning(session, name, i, j, field, value);
    forall k, m | 0 <= k < |r| && r[k].Val? && 0 <= m < |r[k].value.sets| && r[k].value.sets[m].Val?
      ensures r[k].value.sets[m].value.completed
    {
      if k != i {
        assert r[k] == session[k];
      } else if m != j {
        assert At(session, i).Val?;
      }
    }
  }

  /** Under that invariant the corrected condition holds for every session, the empty one included. */
  lemma {:induction false} CanCompleteFromStart(names: seq<string>, steps: seq<(nat, nat, Field, nat)>)
    requires forall k :: 0 <= k < |steps| ==> steps[k].0 < |names|
    ensures CanComplete(Replay([], names, steps))
    decreases |steps|
  {
    if steps != [] {
      CanCompleteFromStart(names, steps[..|steps| - 1]);
      var (i, j, f, v) := steps[|steps| - 1];
      LogSetKeepsCanComplete(Replay([], names, steps[..|steps| - 1]), names[i], i, j, f, v);
    }
  }

  /** The session after a run of logSet calls on a workout whose exercise names are `names`. */
  function Replay(session: seq<Slot<LoggedExercise>>, names: seq<string>, steps: seq<(nat, nat, Field, nat)>)
    : seq<Slot<LoggedExercise>>
    requires forall k :: 0 <= k < |steps| ==> steps[k].0 < |names|
    decreases |steps|
  {
    if steps == [] then session
    else
      var (i, j, f, v) := steps[|steps| - 1];
      AfterLogSet(Replay(session, names, steps[..|steps| - 1]), names[i], i, j, f, v)
  }

  /**
   * As written, logging exercise 2 twice in an empty session disables Complete Workout: the first call
   * leaves holes at 0 and 1, which `every` skips, but the second call's spread copy turns them into
   * undefined elements, which fail the test, although every logged set is completed.
   */
  lemma RepeatedLogDisablesComplete(name: string)
    ensures var once := AfterLogSet([], name, 2, 0, WeightField, 50);
      var twice := AfterLogSet(once, name, 2, 0, RepsField, 8);
      CompleteEnabled(once) && !CompleteEnabled(twice) && CanComplete(twice)
  {
    var once := AfterLogSet([], name, 2, 0, WeightField, 50);
    LogSetMeaning([], name, 2, 0, WeightField, 50);
    assert once[0] == Hole && once[1] == Hole;
    var twice := AfterLogSet(once, name, 2, 0, RepsField, 8);
    LogSetMeaning(once, name, 2, 0, RepsField, 8);
    assert twice[0] == Undef;
    LogSetKeepsCanComplete([], name, 2, 0, WeightField, 50);
    LogSetKeepsCanComplete(once, name, 2, 0, RepsField, 8);
  }
}
