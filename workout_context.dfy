/**
 * The workout provider: the in-memory workout list and tracked sessions, mirrored to the store under the
 * keys "workouts" and "sessions", and the per-exercise progress derived from the sessions.
 */
module WorkoutContext {
  import opened Wrappers
  import opened Seqs
  import opened Js
  import opened WorkoutData

  /**
   * The provider's state. `storedWorkouts` and `storedSessions` are the store's entries under "workouts"
   * and "sessions" (None when nothing is stored there).
   */
  class WorkoutProvider {
    var workouts: seq<Entry>
    var trackedSessions: seq<Session>
    var storedWorkouts: Option<seq<Entry>>
    var storedSessions: Option<seq<Session>>

    /** The provider as first rendered: both lists empty, the store as left by earlier runs. */
    constructor (storedWorkouts: Option<seq<Entry>>, storedSessions: Option<seq<Session>>)
      ensures workouts == [] && trackedSessions == []
      ensures this.storedWorkouts == storedWorkouts && this.storedSessions == storedSessions
    {
      workouts := [];
      trackedSessions := [];
      this.storedWorkouts := storedWorkouts;
      this.storedSessions := storedSessions;
    }

    /**
     * `loadSavedData`: each list is replaced by its stored value when there is one, and kept otherwise.
     * The stored sessions come back through JSON, so their holes come back as `null`.
     */
    method LoadSavedData()
      modifies this`workouts, this`trackedSessions
      ensures workouts == if storedWorkouts.Some? then storedWorkouts.value else old(workouts)
      ensures trackedSessions == if storedSessions.Some? then Reloaded(storedSessions.value) else old(trackedSessions)
    {
      if storedWorkouts.Some? {
        workouts := storedWorkouts.value;
      }
      if storedSessions.Some? {
        trackedSessions := Reloaded(storedSessions.value);
      }
    }

    /**
     * `saveWorkout`: appends the argument as one new element, whatever its name, and writes the whole list
     * to the store. Nothing is replaced or merged.
     */
    method SaveWorkout(w: Entry)
      modifies this`workouts, this`storedWorkouts
      ensures workouts == old(workouts) + [w]
      ensures storedWorkouts == Some(workouts)
    {
      workouts := workouts + [w];
      storedWorkouts := Some(workouts);
    }

    /** `trackSession`: appends the session after all earlier ones and writes the list to the store. */
    method TrackSession(s: Session)
      modifies this`trackedSessions, this`storedSessions
      ensures trackedSessions == old(trackedSessions) + [s]
      ensures storedSessions == Some(trackedSessions)
    {
      trackedSessions := trackedSessions + [s];
      storedSessions := Some(trackedSessions);
    }
  }

  /** Mounting the provider: initial empty state, then the load effect. */
  method Mount(storedWorkouts: Option<seq<Entry>>, storedSessions: Option<seq<Session>>)
    returns (p: WorkoutProvider)
    ensures fresh(p)
    ensures p.workouts == storedWorkouts.GetOr([])
    ensures p.trackedSessions == if storedSessions.Some? then Reloaded(storedSessions.value) else []
    ensures p.storedWorkouts == storedWorkouts && p.storedSessions == storedSessions
  {
    p := new WorkoutProvider(storedWorkouts, storedSessions);
    p.LoadSavedData();
  }

  /**
   * A logged exercise after `JSON.stringify` and `JSON.parse`: a hole among its sets is written as
   * `null` and read back as `null`, which the screens treat like undefined.
   */
  function ReloadedExercise(slot: Slot<LoggedExercise>): Slot<LoggedExercise> {
    match slot
    case Val(ex) => Val(ex.(sets := Spread(ex.sets)))
    case _ => Undef
  }

  /** A session after the JSON round trip: holes among its exercises and among their sets become `null`. */
  function ReloadedSession(s: Session): Session {
    s.(exercises := seq(|s.exercises|, k requires 0 <= k < |s.exercises| => ReloadedExercise(s.exercises[k])))
  }

  /** The tracked sessions as `loadSavedData` reads them back from the store. */
  function Reloaded(sessions: seq<Session>): seq<Session> {
    seq(|sessions|, i requires 0 <= i < |sessions| => ReloadedSession(sessions[i]))
  }

  /**
   * A reloaded session keeps its date, its workout name, its exercises' places, names and values, and
   * its sets' places and values; no hole is left at either level, and what was not a value is `null`.
   */
  lemma ReloadedMeaning(s: Session)
    ensures var r := ReloadedSession(s);
      && r.date == s.date && r.workout == s.workout && |r.exercises| == |s.exercises|
      && (forall k :: 0 <= k < |r.exercises| ==> !r.exercises[k].Hole? && (r.exercises[k].Val? <==> s.exercises[k].Val?))
      && (forall k :: 0 <= k < |r.exercises| && r.exercises[k].Val? ==>
            var before, after := s.exercises[k].value, r.exercises[k].value;
            && after.name == before.name && |after.sets| == |before.sets|
            && (forall j :: 0 <= j < |after.sets| ==> !after.sets[j].Hole? && (after.sets[j].Val? <==> before.sets[j].Val?))
            && (forall j :: 0 <= j < |after.sets| && before.sets[j].Val? ==> after.sets[j] == before.sets[j]))
  {
  }

  /** Reading back what was read back changes nothing: a reloaded list has no hole left to turn. */
  lemma ReloadedIdempotent(sessions: seq<Session>)
    ensures Reloaded(Reloaded(sessions)) == Reloaded(sessions)
  {
    var once := Reloaded(sessions);
    forall i | 0 <= i < |sessions| ensures ReloadedSession(once[i]) == once[i] {
      var exs := once[i].exercises;
      forall k | 0 <= k < |exs| ensures ReloadedExercise(exs[k]) == exs[k] {
        if exs[k].Val? {
          SpreadIdempotent(sessions[i].exercises[k].value.sets);
        }
      }
    }
  }

  /** One entry of `getProgressForExercise`. */
  datatype ProgressPoint = ProgressPoint(date: int, maxWeight: Number, totalVolume: Number)

  // ---------------------------------------------------------------------------------------------
  // The code as written: `some`, `find`, `Math.max` and `reduce` with JavaScript's semantics.

  /** `exercises.some((ex) => ex.name === name)`: skips holes; reading `.name` of undefined throws. */
  function Mentions(exs: seq<Slot<LoggedExercise>>, name: string): Result<bool, JsError>
    decreases |exs|
  {
    if exs == [] then Success(false)
    else
      match exs[0]
      case Hole => Mentions(exs[1..], name)
      case Undef => Failure(TypeError)
      case Val(ex) => if ex.name == name then Success(true) else Mentions(exs[1..], name)
  }

  /** `exercises.find((ex) => ex.name === name)`: visits holes too, and reading `.name` of one throws. */
  function Find(exs: seq<Slot<LoggedExercise>>, name: string): Result<Option<LoggedExercise>, JsError>
    decreases |exs|
  {
    if exs == [] then Success(None)
    else
      match exs[0]
      case Val(ex) => if ex.name == name then Success(Some(ex)) else Find(exs[1..], name)
      case _ => Failure(TypeError)
  }

  /** weight × reps of one set with every missing number counted as 0. */
  function Product(s: WorkSet): nat {
    OrZero(s.weight) * OrZero(s.reps)
  }

  /** Both numbers of a set are present. */
  predicate Numeric(s: WorkSet) {
    s.weight.Some? && s.reps.Some?
  }

  /** Σ weight × reps over the sets present. */
  function SumProducts(sets: seq<Slot<WorkSet>>): nat
    decreases |sets|
  {
    if sets == [] then 0
    else (if sets[0].Val? then Product(sets[0].value) else 0) + SumProducts(sets[1..])
  }

  lemma {:induction false} SumProductsSnoc(sets: seq<Slot<WorkSet>>, last: Slot<WorkSet>)
    ensures SumProducts(sets + [last]) == SumProducts(sets) + (if last.Val? then Product(last.value) else 0)
    decreases |sets|
  {
    if sets == [] {
      assert sets + [last] == [last];
    } else {
      assert (sets + [last])[1..] == sets[1..] + [last];
      SumProductsSnoc(sets[1..], last);
    }
  }

  /**
   * `sets.reduce((acc, set) => acc + set.weight * set.reps, 0)`: an undefined set throws; otherwise holes
   * are skipped, a set without a weight or reps makes the total NaN, and else it is Σ weight × reps.
   */
  function Volume(sets: seq<Slot<WorkSet>>): (r: Result<Number, JsError>)
    ensures r.Failure? <==> UndefSet(sets)
    ensures r.Success? ==> r.value != NegInfinity
    ensures r.Success? ==> (r.value == NaN <==> exists i :: 0 <= i < |sets| && sets[i].Val? && !Numeric(sets[i].value))
    ensures r.Success? && r.value.Finite? ==> r.value.n == SumProducts(sets)
    decreases |sets|
  {
    if sets == [] then Success(Finite(0))
    else
      var init := sets[..|sets| - 1];
      var last := sets[|sets| - 1];
      assert sets == init + [last];
      SumProductsSnoc(init, last);
      assert forall i :: 0 <= i < |init| ==> init[i] == sets[i];
      assert UndefSet(sets) <==> UndefSet(init) || last.Undef?;
      match last
      case Undef => Failure(TypeError)
      case Hole => Volume(init)
      case Val(s) =>
        match Volume(init)
        case Failure(e) => Failure(e)
        case Success(v) => Success(Plus(v, Times(s.weight, s.reps)))
  }

  /** The filter step: the sessions for which `some` finds the name, in order. */
  function SessionsMentioning(sessions: seq<Session>, name: string): Result<seq<Session>, JsError>
    decreases |sessions|
  {
    if sessions == [] then Success([])
    else
      match Mentions(sessions[0].exercises, name)
      case Failure(e) => Failure(e)
      case Success(b) =>
        match SessionsMentioning(sessions[1..], name)
        case Failure(e) => Failure(e)
        case Success(rest) => Success(if b then [sessions[0]] + rest else rest)
  }

  /** The map step: a point per session from the first exercise `find` returns. */
  function PointsFor(sessions: seq<Session>, name: string): Result<seq<ProgressPoint>, JsError>
    decreases |sessions|
  {
    if sessions == [] then Success([])
    else
      match Find(sessions[0].exercises, name)
      case Failure(e) => Failure(e)
      case Success(None) => Failure(TypeError)
      case Success(Some(ex)) =>
        match MaxWeight(ex.sets)
        case Failure(e) => Failure(e)
        case Success(m) =>
          match Volume(ex.sets)
          case Failure(e) => Failure(e)
          case Success(v) =>
            match PointsFor(sessions[1..], name)
            case Failure(e) => Failure(e)
            case Success(rest) => Success([ProgressPoint(sessions[0].date, m, v)] + rest)
  }

  /** `getProgressForExercise(name)` over the provider's tracked sessions. */
  function ProgressForExercise(sessions: seq<Session>, name: string): Result<seq<ProgressPoint>, JsError> {
    match SessionsMentioning(sessions, name)
    case Failure(e) => Failure(e)
    case Success(ms) => PointsFor(ms, name)
  }

  // ---------------------------------------------------------------------------------------------
  // What it means: one point per session holding the name, from the first such exercise.

  predicate Named(slot: Slot<LoggedExercise>, name: string) {
    slot.Val? && slot.value.name == name
  }

  /** The index of the first exercise named `name`, if any. */
  function FirstNamed(exs: seq<Slot<LoggedExercise>>, name: string): (r: Option<nat>)
    ensures r.Some? ==> r.value < |exs| && Named(exs[r.value], name)
    ensures r.Some? ==> forall k :: 0 <= k < r.value ==> !Named(exs[k], name)
    ensures r.None? ==> forall k :: 0 <= k < |exs| ==> !Named(exs[k], name)
    decreases |exs|
  {
    if exs == [] then None
    else if Named(exs[0], name) then Some(0)
    else
      match FirstNamed(exs[1..], name)
      case None => None
      case Some(m) => Some(m + 1)
  }

  /** How far the scans read: up to the first match, or the whole list. */
  function ScanEnd(exs: seq<Slot<LoggedExercise>>, name: string): (n: nat)
    ensures n <= |exs|
  {
    match FirstNamed(exs, name)
    case Some(m) => m
    case None => |exs|
  }

  predicate UndefBefore(exs: seq<Slot<LoggedExercise>>, n: nat) {
    exists k :: 0 <= k < n && k < |exs| && exs[k].Undef?
  }

  predicate GapBefore(exs: seq<Slot<LoggedExercise>>, n: nat) {
    exists k :: 0 <= k < n && k < |exs| && !exs[k].Val?
  }

  /** The first exercise with the name, in a session that holds one. */
  function Matched(s: Session, name: string): LoggedExercise
    requires FirstNamed(s.exercises, name).Some?
  {
    s.exercises[FirstNamed(s.exercises, name).value].value
  }

  /** The session holds the name, and the first such exercise has an undefined set. */
  predicate SetsThrow(s: Session, name: string) {
    FirstNamed(s.exercises, name).Some? && UndefSet(Matched(s, name).sets)
  }

  /**
   * Some session in which the name's lookup throws: an undefined element the scan reaches, or any gap
   * before the match, or an undefined set in the match.
   */
  predicate Throws(s: Session, name: string) {
    var exs := s.exercises;
    if FirstNamed(exs, name).Some? then GapBefore(exs, ScanEnd(exs, name)) || SetsThrow(s, name)
    else UndefBefore(exs, |exs|)
  }

  /** The session holds an exercise with the name. */
  function Holds(name: string): Session -> bool {
    (s: Session) => FirstNamed(s.exercises, name).Some?
  }

  /** The point the provider reports for a session holding the name: its date, and its first such exercise's sets. */
  function PointOf(s: Session, name: string): ProgressPoint
    requires FirstNamed(s.exercises, name).Some? && !SetsThrow(s, name)
  {
    var ex := Matched(s, name);
    ProgressPoint(s.date, MaxWeight(ex.sets).value, Volume(ex.sets).value)
  }

  lemma {:induction false} MentionsMeaning(exs: seq<Slot<LoggedExercise>>, name: string)
    ensures Mentions(exs, name) ==
      if UndefBefore(exs, ScanEnd(exs, name)) then Failure(TypeError)
      else Success(FirstNamed(exs, name).Some?)
    decreases |exs|
  {
    if exs != [] && !Named(exs[0], name) {
      var tl := exs[1..];
      MentionsMeaning(tl, name);
      assert ScanEnd(exs, name) == ScanEnd(tl, name) + 1;
      if exs[0].Undef? {
        assert UndefBefore(exs, ScanEnd(exs, name));
      } else {
        UndefBeforeShift(exs, ScanEnd(tl, name));
      }
    }
  }

  lemma UndefBeforeShift(exs: seq<Slot<LoggedExercise>>, n: nat)
    requires exs != [] && !exs[0].Undef?
    ensures UndefBefore(exs, n + 1) <==> UndefBefore(exs[1..], n)
  {
    if UndefBefore(exs, n + 1) {
      var k :| 0 <= k < n + 1 && k < |exs| && exs[k].Undef?;
      assert exs[1..][k - 1].Undef?;
    }
    if UndefBefore(exs[1..], n) {
      var k :| 0 <= k < n && k < |exs[1..]| && exs[1..][k].Undef?;
      assert exs[k + 1].Undef?;
    }
  }

  lemma GapBeforeShift(exs: seq<Slot<LoggedExercise>>, n: nat)
    requires exs != [] && exs[0].Val?
    ensures GapBefore(exs, n + 1) <==> GapBefore(exs[1..], n)
  {
    if GapBefore(exs, n + 1) {
      var k :| 0 <= k < n + 1 && k < |exs| && !exs[k].Val?;
      assert !exs[1..][k - 1].Val?;
    }
    if GapBefore(exs[1..], n) {
      var k :| 0 <= k < n && k < |exs[1..]| && !exs[1..][k].Val?;
      assert !exs[k + 1].Val?;
    }
  }

  lemma {:induction false} FindMeaning(exs: seq<Slot<LoggedExercise>>, name: string)
    requires FirstNamed(exs, name).Some?
    ensures Find(exs, name) ==
      if GapBefore(exs, ScanEnd(exs, name)) then Failure(TypeError)
      else Success(Some(exs[FirstNamed(exs, name).value].value))
    decreases |exs|
  {
    if !Named(exs[0], name) {
      var tl := exs[1..];
      assert FirstNamed(exs, name).value == FirstNamed(tl, name).value + 1;
      if exs[0].Val? {
        FindMeaning(tl, name);
        GapBeforeShift(exs, ScanEnd(tl, name));
      } else {
        assert GapBefore(exs, ScanEnd(exs, name));
      }
    }
  }

  /** The `some` scan of this session reaches an undefined element. */
  predicate MentionThrows(s: Session, name: string) {
    UndefBefore(s.exercises, ScanEnd(s.exercises, name))
  }

  /** The `find` scan of this session reaches a hole or an undefined element. */
  predicate FindThrows(s: Session, name: string) {
    GapBefore(s.exercises, ScanEnd(s.exercises, name))
  }

  /** The filter step throws exactly when some session's scan meets undefined; otherwise it keeps the sessions holding the name. */
  lemma {:induction false} SessionsMentioningMeaning(sessions: seq<Session>, name: string)
    ensures SessionsMentioning(sessions, name) ==
      if exists s :: s in sessions && MentionThrows(s, name) then Failure(TypeError)
      else Success(Filter(sessions, Holds(name)))
    decreases |sessions|
  {
    if sessions != [] {
      var s0, tl := sessions[0], sessions[1..];
      assert sessions == [s0] + tl;
      MentionsMeaning(s0.exercises, name);
      SessionsMentioningMeaning(tl, name);
      assert (exists s :: s in sessions && MentionThrows(s, name)) <==>
        MentionThrows(s0, name) || exists s :: s in tl && MentionThrows(s, name);
    }
  }

  /** The map step's first session: it throws there, or it gives that session's point before the rest. */
  lemma PointsForHead(ms: seq<Session>, name: string)
    requires ms != [] && FirstNamed(ms[0].exercises, name).Some?
    ensures PointsFor(ms, name).Success? <==>
      !FindThrows(ms[0], name) && !SetsThrow(ms[0], name) && PointsFor(ms[1..], name).Success?
    ensures PointsFor(ms, name).Success? ==>
      PointsFor(ms, name).value == [PointOf(ms[0], name)] + PointsFor(ms[1..], name).value
  {
    var s0 := ms[0];
    FindMeaning(s0.exercises, name);
    if !FindThrows(s0, name) {
      assert Find(s0.exercises, name) == Success(Some(Matched(s0, name)));
    }
  }

  /** Over sessions that all hold the name, the map step throws exactly when some session's lookup or sets throw. */
  lemma {:induction false} PointsForThrows(ms: seq<Session>, name: string)
    requires forall s :: s in ms ==> FirstNamed(s.exercises, name).Some?
    ensures PointsFor(ms, name).Failure? <==> exists s :: s in ms && (FindThrows(s, name) || SetsThrow(s, name))
    decreases |ms|
  {
    if ms != [] {
      var s0, tl := ms[0], ms[1..];
      assert ms == [s0] + tl;
      PointsForHead(ms, name);
      PointsForThrows(tl, name);
      assert (exists s :: s in ms && (FindThrows(s, name) || SetsThrow(s, name))) <==>
        (FindThrows(s0, name) || SetsThrow(s0, name)) || exists s :: s in tl && (FindThrows(s, name) || SetsThrow(s, name));
    }
  }

  /** When the map step succeeds, it gives each session's point, in order. */
  lemma {:induction false} PointsForPoints(ms: seq<Session>, name: string)
    requires forall s :: s in ms ==> FirstNamed(s.exercises, name).Some?
    ensures PointsFor(ms, name).Success? ==>
      |PointsFor(ms, name).value| == |ms| &&
      forall i :: 0 <= i < |ms| ==> !SetsThrow(ms[i], name) && PointsFor(ms, name).value[i] == PointOf(ms[i], name)
    decreases |ms|
  {
    if ms != [] && PointsFor(ms, name).Success? {
      var s0, tl := ms[0], ms[1..];
      assert s0 in ms;
      assert forall k :: 0 <= k < |tl| ==> tl[k] == ms[k + 1];
      PointsForHead(ms, name);
      PointsForPoints(tl, name);
      var rest := PointsFor(tl, name).value;
      var v := PointsFor(ms, name).value;
      forall i | 0 <= i < |ms| ensures !SetsThrow(ms[i], name) && v[i] == PointOf(ms[i], name) {
        if i > 0 {
          assert v[i] == rest[i - 1];
        }
      }
    }
  }

  /**
   * Over sessions that all hold the name, the map step throws exactly when some session's `find` scan meets
   * a gap or its match has an undefined set; otherwise it gives each session's point.
   */
  lemma PointsForMeaning(ms: seq<Session>, name: string)
    requires forall s :: s in ms ==> FirstNamed(s.exercises, name).Some?
    ensures PointsFor(ms, name).Failure? <==> exists s :: s in ms && (FindThrows(s, name) || SetsThrow(s, name))
    ensures PointsFor(ms, name).Success? ==>
      |PointsFor(ms, name).value| == |ms| &&
      forall i :: 0 <= i < |ms| ==> !SetsThrow(ms[i], name) && PointsFor(ms, name).value[i] == PointOf(ms[i], name)
  {
    PointsForThrows(ms, name);
    PointsForPoints(ms, name);
  }

  /** A gap before the match always includes any undefined element before it. */
  lemma ThrowsSplit(s: Session, name: string)
    ensures Throws(s, name) <==>
      MentionThrows(s, name) || (Holds(name)(s) && (FindThrows(s, name) || SetsThrow(s, name)))
  {
    var exs := s.exercises;
    if MentionThrows(s, name) && Holds(name)(s) {
      var k :| 0 <= k < ScanEnd(exs, name) && k < |exs| && exs[k].Undef?;
      assert !exs[k].Val?;
    }
  }

  /**
   * `getProgressForExercise(name)`: it throws exactly when some session's lookup meets a gap or undefined
   * element before the name, or the match has an undefined set; otherwise it gives one point per session
   * holding the name, in session order, made from that session's date and its FIRST exercise with the name.
   */
  lemma ProgressForExerciseMeaning(sessions: seq<Session>, name: string)
    ensures ProgressForExercise(sessions, name).Failure? <==> exists s :: s in sessions && Throws(s, name)
    ensures ProgressForExercise(sessions, name).Success? ==>
      var ms := Filter(sessions, Holds(name));
      var ps := ProgressForExercise(sessions, name).value;
      |ps| == |ms| &&
      forall i :: 0 <= i < |ms| ==>
        FirstNamed(ms[i].exercises, name).Some? && !SetsThrow(ms[i], name) && ps[i] == PointOf(ms[i], name)
  {
    var ms := Filter(sessions, Holds(name));
    SessionsMentioningMeaning(sessions, name);
    PointsForMeaning(ms, name);
    forall s ensures Throws(s, name) <==>
      MentionThrows(s, name) || (Holds(name)(s) && (FindThrows(s, name) || SetsThrow(s, name)))
    {
      ThrowsSplit(s, name);
    }
    if !exists s :: s in sessions && MentionThrows(s, name) {
      assert (exists s :: s in ms && (FindThrows(s, name) || SetsThrow(s, name))) <==>
        exists s :: s in sessions && Throws(s, name);
    }
  }

  /**
   * The reported maximum weight of a session's point: when that first exercise has sets and every set
   * has a weight, it is one of those weights and no weight exceeds it.
   */
  lemma ProgressMaxWeight(s: Session, name: string)
    requires FirstNamed(s.exercises, name).Some?
    requires var ex := Matched(s, name);
      ex.sets != [] && forall i :: 0 <= i < |ex.sets| ==> Weighed(ex.sets[i])
    ensures !SetsThrow(s, name)
    ensures var ex := Matched(s, name);
      var m := PointOf(s, name).maxWeight;
      m.Finite? &&
      (forall i :: 0 <= i < |ex.sets| ==> ex.sets[i].value.weight.value <= m.n) &&
      (exists i :: 0 <= i < |ex.sets| && ex.sets[i].value.weight == Some(m.n))
  {
    var ex := Matched(s, name);
    assert !UndefSet(ex.sets) by {
      forall i | 0 <= i < |ex.sets| ensures !ex.sets[i].Undef? {
        assert Weighed(ex.sets[i]);
      }
    }
  }

  /**
   * A set skipped while logging (a hole in the sets) gives NaN before a reload, but it comes back as
   * `null`, and then the progress of that exercise throws.
   */
  lemma ReloadMakesSkippedSetThrow(date: int, workout: string, name: string, logged: WorkSet)
    ensures var s := Session(date, workout, [Val(LoggedExercise(name, [Hole, Val(logged)]))]);
      && ProgressForExercise([s], name).Success?
      && ProgressForExercise([s], name).value[0].maxWeight == NaN
      && ProgressForExercise(Reloaded([s]), name).Failure?
  {
    var ex := LoggedExercise(name, [Hole, Val(logged)]);
    var s := Session(date, workout, [Val(ex)]);
    SkippedSetBeforeReload(s, ex, name);
    SkippedSetAfterReload(s, ex, name);
  }

  lemma SkippedSetBeforeReload(s: Session, ex: LoggedExercise, name: string)
    requires ex.name == name && |ex.sets| == 2 && ex.sets[0].Hole? && ex.sets[1].Val?
    requires s.exercises == [Val(ex)]
    ensures ProgressForExercise([s], name).Success?
    ensures ProgressForExercise([s], name).value[0].maxWeight == NaN
  {
    assert FirstNamed(s.exercises, name) == Some(0);
    assert !UndefSet(ex.sets) by {
      assert !ex.sets[0].Undef? && !ex.sets[1].Undef?;
    }
    assert !Weighed(ex.sets[0]);
    assert Filter([s], Holds(name)) == [s] by {
      FilterSingle(s, Holds(name));
    }
    ProgressForExerciseMeaning([s], name);
    assert !GapBefore(s.exercises, 0);
    assert !Throws(s, name);
  }

  lemma SkippedSetAfterReload(s: Session, ex: LoggedExercise, name: string)
    requires ex.name == name && |ex.sets| == 2 && ex.sets[0].Hole?
    requires s.exercises == [Val(ex)]
    ensures ProgressForExercise(Reloaded([s]), name).Failure?
  {
    var r := ReloadedSession(s);
    assert Reloaded([s]) == [r];
    ReloadedMeaning(s);
    assert r.exercises[0].Val? && r.exercises[0].value.name == name;
    assert FirstNamed(r.exercises, name) == Some(0);
    assert Matched(r, name).sets[0].Undef?;
    assert SetsThrow(r, name);
    ProgressForExerciseMeaning([r], name);
    assert r in [r];
  }
}
