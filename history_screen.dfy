/**
 * The history screen's chart data for one exercise name: a point for EVERY logged exercise with that
 * name in every tracked session, sorted by date.
 */
module HistoryScreen {
  import opened Wrappers
  import opened Seqs
  import opened Js
  import opened Sorting
  import opened WorkoutData

  datatype HistoryPoint = HistoryPoint(date: int, weight: Number)

  /** A chart's input: one label and one value per point. */
  datatype Series = Series(labels: seq<Label>, data: seq<Number>)

  function PointDate(p: HistoryPoint): int {
    p.date
  }

  /**
   * The points before sorting, as `filter` and `map` build them for one session: an undefined element
   * throws, and so does an undefined set of a matching exercise.
   */
  function SessionPoints(date: int, exs: seq<Slot<LoggedExercise>>, name: string): Result<seq<HistoryPoint>, JsError>
    decreases |exs|
  {
    if exs == [] then Success([])
    else
      match SessionPoints(date, exs[1..], name)
      case Failure(e) => Failure(e)
      case Success(rest) =>
        match exs[0]
        case Hole => Success(rest)
        case Undef => Failure(TypeError)
        case Val(ex) =>
          if ex.name != name then Success(rest)
          else
            match MaxWeight(ex.sets)
            case Failure(e) => Failure(e)
            case Success(m) => Success([HistoryPoint(date, m)] + rest)
  }

  /** `trackedSessions.flatMap(...)`: the sessions' points, concatenated in session order. */
  function AllPoints(sessions: seq<Session>, name: string): Result<seq<HistoryPoint>, JsError>
    decreases |sessions|
  {
    if sessions == [] then Success([])
    else
      match SessionPoints(sessions[0].date, sessions[0].exercises, name)
      case Failure(e) => Failure(e)
      case Success(first) =>
        match AllPoints(sessions[1..], name)
        case Failure(e) => Failure(e)
        case Success(rest) => Success(first + rest)
  }

  /** `processExerciseData(name)`: the points sorted by date, then their labels and weights. */
  function ProcessExerciseData(sessions: seq<Session>, name: string): Result<Series, JsError> {
    match AllPoints(sessions, name)
    case Failure(e) => Failure(e)
    case Success(points) =>
      var sorted := SortBy(points, PointDate);
      Success(Series(
        seq(|sorted|, i requires 0 <= i < |sorted| => Day(sorted[i].date)),
        seq(|sorted|, i requires 0 <= i < |sorted| => sorted[i].weight)))
  }

  // ---------------------------------------------------------------------------------------------
  // What it means.

  /** The point of one logged exercise: its session's date and the largest of its set weights. */
  function PointOf(date: int, ex: LoggedExercise): HistoryPoint {
    HistoryPoint(date, MathMax(SlotWeights(ex.sets)))
  }

  /** Every exercise named `name` in a session, in order, each as a point. */
  function Matches(date: int, exs: seq<Slot<LoggedExercise>>, name: string): seq<HistoryPoint>
    decreases |exs|
  {
    if exs == [] then []
    else if exs[0].Val? && exs[0].value.name == name then [PointOf(date, exs[0].value)] + Matches(date, exs[1..], name)
    else Matches(date, exs[1..], name)
  }

  /** Every matching exercise of every session, sessions in order. */
  function AllMatches(sessions: seq<Session>, name: string): seq<HistoryPoint>
    decreases |sessions|
  {
    if sessions == [] then []
    else Matches(sessions[0].date, sessions[0].exercises, name) + AllMatches(sessions[1..], name)
  }

  /** An element the screen cannot read: undefined, or a matching exercise with an undefined set. */
  predicate Unreadable(slot: Slot<LoggedExercise>, name: string) {
    slot.Undef? || (slot.Val? && slot.value.name == name && UndefSet(slot.value.sets))
  }

  predicate HasUnreadable(s: Session, name: string) {
    exists k :: 0 <= k < |s.exercises| && Unreadable(s.exercises[k], name)
  }

  lemma {:induction false} SessionPointsMeaning(date: int, exs: seq<Slot<LoggedExercise>>, name: string)
    ensures SessionPoints(date, exs, name) ==
      if exists k :: 0 <= k < |exs| && Unreadable(exs[k], name) then Failure(TypeError)
      else Success(Matches(date, exs, name))
    decreases |exs|
  {
    if exs != [] {
      var tl := exs[1..];
      SessionPointsMeaning(date, tl, name);
      assert (exists k :: 0 <= k < |exs| && Unreadable(exs[k], name)) <==>
        Unreadable(exs[0], name) || exists k :: 0 <= k < |tl| && Unreadable(tl[k], name) by {
        if exists k :: 0 <= k < |exs| && Unreadable(exs[k], name) {
          var k :| 0 <= k < |exs| && Unreadable(exs[k], name);
          if k > 0 {
            assert Unreadable(tl[k - 1], name);
          }
        }
        if exists k :: 0 <= k < |tl| && Unreadable(tl[k], name) {
          var k :| 0 <= k < |tl| && Unreadable(tl[k], name);
          assert Unreadable(exs[k + 1], name);
        }
      }
    }
  }

  lemma {:induction false} AllPointsMeaning(sessions: seq<Session>, name: string)
    ensures AllPoints(sessions, name) ==
      if exists s :: s in sessions && HasUnreadable(s, name) then Failure(TypeError)
      else Success(AllMatches(sessions, name))
    decreases |sessions|
  {
    if sessions != [] {
      var s0, tl := sessions[0], sessions[1..];
      assert sessions == [s0] + tl;
      SessionPointsMeaning(s0.date, s0.exercises, name);
      AllPointsMeaning(tl, name);
      assert (exists s :: s in sessions && HasUnreadable(s, name)) <==>
        HasUnreadable(s0, name) || exists s :: s in tl && HasUnreadable(s, name);
    }
  }

  /**
   * `processExerciseData(name)` throws exactly when some session holds an undefined element, or an
   * exercise with the name and an undefined set. Otherwise the
   * chart has one label and one value per matching exercise (every match in a session counts), ordered
   * by date, holding exactly the matches' points, and points of equal date stay in session order.
   */
  lemma ProcessExerciseDataMeaning(sessions: seq<Session>, name: string)
    ensures ProcessExerciseData(sessions, name).Failure? <==> exists s :: s in sessions && HasUnreadable(s, name)
    ensures ProcessExerciseData(sessions, name).Success? ==>
      var c := ProcessExerciseData(sessions, name).value;
      var all := AllMatches(sessions, name);
      exists sorted: seq<HistoryPoint> ::
        && |sorted| == |all| == |c.labels| == |c.data|
        && (forall i :: 0 <= i < |sorted| ==> c.labels[i] == Day(sorted[i].date) && c.data[i] == sorted[i].weight)
        && (forall i, j :: 0 <= i < j < |sorted| ==> sorted[i].date <= sorted[j].date)
        && multiset(sorted) == multiset(all)
        && (forall d :: Filter(sorted, KeyIs(PointDate, d)) == Filter(all, KeyIs(PointDate, d)))
  {
    AllPointsMeaning(sessions, name);
    if ProcessExerciseData(sessions, name).Success? {
      var all := AllMatches(sessions, name);
      var sorted := SortBy(all, PointDate);
      SortByCorrect(all, PointDate);
      var c := ProcessExerciseData(sessions, name).value;
      assert forall i :: 0 <= i < |sorted| ==> c.labels[i] == Day(sorted[i].date) && c.data[i] == sorted[i].weight;
    }
  }

  /** A name that no session holds gives empty labels and empty data. */
  lemma {:induction false} UnknownNameGivesEmptyChart(sessions: seq<Session>, name: string)
    requires forall s, k :: s in sessions && 0 <= k < |s.exercises| ==> !s.exercises[k].Undef?
    requires forall s, k :: s in sessions && 0 <= k < |s.exercises| && s.exercises[k].Val? ==> s.exercises[k].value.name != name
    ensures ProcessExerciseData(sessions, name) == Success(Series([], []))
  {
    AllPointsMeaning(sessions, name);
    NoMatches(sessions, name);
    assert !exists s :: s in sessions && HasUnreadable(s, name);
    assert AllPoints(sessions, name) == Success([]);
    var none: seq<HistoryPoint> := [];
    assert SortBy(none, PointDate) == [];
    assert ProcessExerciseData(sessions, name).Success?;
    var c := ProcessExerciseData(sessions, name).value;
    assert |c.labels| == 0 && |c.data| == 0;
  }

  lemma {:induction false} NoMatches(sessions: seq<Session>, name: string)
    requires forall s, k :: s in sessions && 0 <= k < |s.exercises| && s.exercises[k].Val? ==> s.exercises[k].value.name != name
    ensures AllMatches(sessions, name) == []
    decreases |sessions|
  {
    if sessions != [] {
      NoMatchesIn(sessions[0].date, sessions[0].exercises, name);
      NoMatches(sessions[1..], name);
    }
  }

  lemma {:induction false} NoMatchesIn(date: int, exs: seq<Slot<LoggedExercise>>, name: string)
    requires forall k :: 0 <= k < |exs| && exs[k].Val? ==> exs[k].value.name != name
    ensures Matches(date, exs, name) == []
    decreases |exs|
  {
    if exs != [] {
      var tl := exs[1..];
      forall k | 0 <= k < |tl| && tl[k].Val? ensures tl[k].value.name != name {
        assert tl[k] == exs[k + 1];
      }
      NoMatchesIn(date, tl, name);
    }
  }

  /** Unlike the provider's progress, a session with the name twice yields two points, one per exercise. */
  lemma EveryMatchCounts(date: int, a: LoggedExercise, b: LoggedExercise)
    requires a.name == b.name
    ensures Matches(date, [Val(a), Val(b)], a.name) == [PointOf(date, a), PointOf(date, b)]
  {
    assert [Val(a), Val(b)][1..] == [Val(b)];
    assert [Val(b)][1..] == [];
    assert Matches(date, [Val(b)], a.name) == [PointOf(date, b)];
  }
}
