/**
 * The workout planner: builds a plan (possibly starting from a template) by adding and deleting
 * exercises, and saves it through the provider. Also the cleaning of catalog descriptions.
 */
module WorkoutPlanner {
  import opened Wrappers
  import opened Js
  import opened WorkoutData
  import opened WorkoutContext

  /** The planner's form state. `setsCount` and `targetReps` are the parsed contents of their text boxes. */
  datatype PlannerState = PlannerState(
    workoutName: string,
    exercises: seq<Exercise>,
    exerciseName: string,
    setsCount: nat,
    targetReps: nat)

  /** The state on opening: the template's name and exercises when one is being edited, 3 sets of 12 reps. */
  function InitialState(template: Option<Workout>): (st: PlannerState)
    ensures st.exerciseName == "" && st.setsCount == 3 && st.targetReps == 12
    ensures st.workoutName == (if template.Some? then template.value.name else "")
    ensures st.exercises == (if template.Some? then template.value.exercises else [])
  {
    if template.Some? then PlannerState(template.value.name, template.value.exercises, "", 3, 12)
    else PlannerState("", [], "", 3, 12)
  }

  /**
   * `addExercise`: with no exercise name nothing happens; otherwise one exercise with `setsCount` planned
   * sets of `targetReps` reps is appended and the name box is cleared.
   */
  function AddExercise(st: PlannerState): (r: PlannerState)
    ensures st.exerciseName == "" ==> r == st
    ensures st.exerciseName != "" ==>
      && |r.exercises| == |st.exercises| + 1
      && r.exercises[..|st.exercises|] == st.exercises
      && r.exercises[|st.exercises|].name == st.exerciseName
      && |r.exercises[|st.exercises|].sets| == st.setsCount
      && (forall s :: s in r.exercises[|st.exercises|].sets ==> s == WorkSet(Some(0), Some(st.targetReps), false))
      && r.exercises[|st.exercises|].notes == Some("")
      && r.exerciseName == ""
      && r.(exercises := st.exercises, exerciseName := st.exerciseName) == st
  {
    if st.exerciseName == [] then st
    else
      var ex := Exercise(st.exerciseName, PlannedSets(st.setsCount, st.targetReps), Some(""));
      st.(exercises := st.exercises + [ex], exerciseName := "")
  }

  /**
   * The trash button of exercise `index`: copy the list into a fresh array and `splice(index, 1)`, shifting
   * the later exercises one place left.
   */
  method DeleteExerciseAt(exercises: seq<Exercise>, index: nat) returns (r: seq<Exercise>)
    requires index < |exercises|
    ensures |r| == |exercises| - 1
    ensures r[..index] == exercises[..index]
    ensures r[index..] == exercises[index + 1..]
  {
    var a := new Exercise[|exercises|](i requires 0 <= i < |exercises| => exercises[i]);
    var k := index;
    while k < a.Length - 1
      invariant index <= k <= a.Length - 1
      invariant a[..index] == exercises[..index]
      invariant forall m :: index <= m < k ==> a[m] == exercises[m + 1]
      invariant forall m :: k <= m < a.Length ==> a[m] == exercises[m]
    {
      a[k] := a[k + 1];
      k := k + 1;
    }
    r := a[..a.Length - 1];
  }

  /** Save is enabled when the plan has a name and at least one exercise. */
  predicate SaveEnabled(st: PlannerState) {
    st.workoutName != "" && |st.exercises| > 0
  }

  /**
   * Opening the planner without a template leaves Save disabled. After Add, Save is enabled exactly when
   * the plan has a name and either had an exercise already or an exercise name was typed.
   */
  lemma SaveEnabledAfterAdd(st: PlannerState)
    ensures !SaveEnabled(InitialState(None))
    ensures SaveEnabled(AddExercise(st)) <==> st.workoutName != "" && (st.exercises != [] || st.exerciseName != "")
  {
  }

  /**
   * The record `savePlan` hands to `saveWorkout`: the form's name and exercises, the time of saving, and
   * whether (and from which template) it was derived.
   */
  function PlanRecord(st: PlannerState, isTemplate: bool, template: Option<Workout>, now: int): (w: Workout)
    requires isTemplate ==> template.Some?
    ensures w.name == st.workoutName && w.exercises == st.exercises && w.date == Some(now)
    ensures w.isFromTemplate == Some(isTemplate)
    ensures w.originalTemplate == if isTemplate then Some(template.value.name) else None
    ensures w.kind == None && w.description == None
  {
    Workout(st.workoutName, st.exercises, Some(now), Some(isTemplate),
      if isTemplate then Some(template.value.name) else None, None, None)
  }

  /** `savePlan`: appends the plan record to the provider's workouts (never replacing one of the same name). */
  method SavePlan(provider: WorkoutProvider, st: PlannerState, isTemplate: bool, template: Option<Workout>, now: int)
    requires isTemplate ==> template.Some?
    modifies provider`workouts, provider`storedWorkouts
    ensures provider.workouts == old(provider.workouts) + [Plan(PlanRecord(st, isTemplate, template, now))]
    ensures provider.storedWorkouts == Some(provider.workouts)
  {
    provider.SaveWorkout(Plan(PlanRecord(st, isTemplate, template, now)));
  }

  // ---------------------------------------------------------------------------------------------
  // cleanDescription

  /** No '<' comes before a '>': no `<...>` span is left. */
  predicate NoTag(s: string) {
    forall i, j :: 0 <= i < j < |s| ==> !(s[i] == '<' && s[j] == '>')
  }

  /** "&nbsp;" occurs nowhere. */
  predicate NoNbsp(s: string) {
    forall i :: 0 <= i <= |s| ==> !OccursAt(s, "&nbsp;", i)
  }

  /** The position of the first '>' in s. */
  function CloseAt(s: string): (k: nat)
    requires '>' in s
    ensures k < |s| && s[k] == '>' && '>' !in s[..k]
  {
    if s[0] == '>' then 0 else assert s == [s[0]] + s[1..]; 1 + CloseAt(s[1..])
  }

  /** `replace(/<[^>]*>/g, "")`: from left to right, each '<' with a '>' after it is removed up to that first '>'. */
  function StripTags(s: string): (r: string)
    ensures forall c :: c in r ==> c in s
    decreases |s|
  {
    if s == [] then []
    else if s[0] == '<' && '>' in s[1..] then
      var k := CloseAt(s[1..]);
      StripTags(s[k + 2..])
    else
      [s[0]] + StripTags(s[1..])
  }

  /** `replace(/&nbsp;/g, " ")`. */
  function ReplaceNbsp(s: string): (r: string)
    ensures forall c :: c in r && c != ' ' ==> c in s
    decreases |s|
  {
    if s == [] then []
    else if OccursAt(s, "&nbsp;", 0) then [' '] + ReplaceNbsp(s[6..])
    else [s[0]] + ReplaceNbsp(s[1..])
  }

  /**
   * `cleanDescription`: "" for a missing or empty description; otherwise tags removed, "&nbsp;" turned
   * into a space, whitespace runs collapsed to one space, and the ends trimmed.
   */
  function CleanDescription(description: Option<string>): string {
    if description.None? || description.value == "" then ""
    else Trim(CollapseSpaces(ReplaceNbsp(StripTags(description.value))))
  }

  lemma NoTagCons(c: char, t: string)
    requires NoTag(t) && (c == '<' ==> '>' !in t)
    ensures NoTag([c] + t)
  {
    var r := [c] + t;
    forall i, j | 0 <= i < j < |r| ensures !(r[i] == '<' && r[j] == '>') {
      if i == 0 {
        assert r[j] == t[j - 1];
      } else {
        assert r[i] == t[i - 1] && r[j] == t[j - 1];
      }
    }
  }

  lemma NoTagSlice(s: string, lo: nat, hi: nat)
    requires lo <= hi <= |s| && NoTag(s)
    ensures NoTag(s[lo..hi])
  {
    forall i, j | 0 <= i < j < |s[lo..hi]| ensures !(s[lo..hi][i] == '<' && s[lo..hi][j] == '>') {
      assert s[lo..hi][i] == s[lo + i] && s[lo..hi][j] == s[lo + j];
    }
  }

  lemma NoTagTail(s: string)
    requires s != [] && NoTag(s)
    ensures NoTag(s[1..]) && (s[0] == '<' ==> '>' !in s[1..])
  {
    forall j | 0 <= j < |s[1..]| ensures s[0] == '<' ==> s[1..][j] != '>' {
      assert s[1..][j] == s[j + 1];
    }
    NoTagSlice(s, 1, |s|);
    assert s[1..|s|] == s[1..];
  }

  lemma {:induction false} StripTagsNoTag(s: string)
    ensures NoTag(StripTags(s))
    decreases |s|
  {
    if s != [] {
      if s[0] == '<' && '>' in s[1..] {
        var k := CloseAt(s[1..]);
        StripTagsNoTag(s[k + 2..]);
      } else {
        StripTagsNoTag(s[1..]);
        NoTagCons(s[0], StripTags(s[1..]));
      }
    }
  }

  lemma {:induction false} ReplaceNbspNoTag(s: string)
    requires NoTag(s)
    ensures NoTag(ReplaceNbsp(s))
    decreases |s|
  {
    if s != [] {
      NoTagTail(s);
      if OccursAt(s, "&nbsp;", 0) {
        NoTagSlice(s, 6, |s|);
        assert s[6..|s|] == s[6..];
        ReplaceNbspNoTag(s[6..]);
        NoTagCons(' ', ReplaceNbsp(s[6..]));
      } else {
        ReplaceNbspNoTag(s[1..]);
        NoTagCons(s[0], ReplaceNbsp(s[1..]));
      }
    }
  }

  lemma {:induction false} CollapseSpacesNoTag(s: string)
    requires NoTag(s)
    ensures NoTag(CollapseSpaces(s))
    decreases |s|
  {
    if s != [] {
      NoTagTail(s);
      if IsSpace(s[0]) {
        var t := TrimStart(s[1..]);
        NoTagSlice(s[1..], |s[1..]| - |t|, |s[1..]|);
        assert s[1..][|s[1..]| - |t|..|s[1..]|] == t;
        CollapseSpacesNoTag(t);
        NoTagCons(' ', CollapseSpaces(t));
      } else {
        CollapseSpacesNoTag(s[1..]);
        CollapseSpacesVisible(s[1..]);
        assert s[0] == '<' ==> '>' !in Visible(s[1..]);
        NoTagCons(s[0], CollapseSpaces(s[1..]));
      }
    }
  }

  /** "&nbsp;" starts a string exactly when it starts with '&' followed by "nbsp;". */
  lemma NbspSplit(c: char, t: string)
    ensures OccursAt([c] + t, "&nbsp;", 0) <==> c == '&' && OccursAt(t, "nbsp;", 0)
  {
    var r := [c] + t;
    if 6 <= |r| {
      var a := r[..6];
      assert a == [c] + t[..5];
      assert a[0] == c && a[1..] == t[..5];
      assert "&nbsp;"[0] == '&' && "&nbsp;"[1..] == "nbsp;";
      if c == '&' && t[..5] == "nbsp;" {
        assert a == ['&'] + "nbsp;";
      }
    }
  }

  /** An occurrence inside a slice is an occurrence in the whole string, and one that fits in it is one in it. */
  lemma OccursInSlice(s: string, q: string, lo: nat, hi: nat, i: nat)
    requires lo <= hi <= |s|
    ensures OccursAt(s[lo..hi], q, i) <==> i + |q| <= hi - lo && OccursAt(s, q, lo + i)
  {
    if i + |q| <= hi - lo {
      var inner, outer := s[lo..hi][i..i + |q|], s[lo + i..lo + i + |q|];
      assert forall m :: 0 <= m < |q| ==> inner[m] == outer[m];
      assert inner == outer;
    }
  }

  lemma NoNbspCons(c: char, t: string)
    requires NoNbsp(t) && !(c == '&' && OccursAt(t, "nbsp;", 0))
    ensures NoNbsp([c] + t)
  {
    var r := [c] + t;
    NbspSplit(c, t);
    forall i | 1 <= i <= |r| ensures !OccursAt(r, "&nbsp;", i) {
      OccursInSlice(r, "&nbsp;", 1, |r|, i - 1);
      assert r[1..|r|] == t;
    }
  }

  lemma NoNbspSlice(s: string, lo: nat, hi: nat)
    requires lo <= hi <= |s| && NoNbsp(s)
    ensures NoNbsp(s[lo..hi])
  {
    forall i | 0 <= i <= |s[lo..hi]| ensures !OccursAt(s[lo..hi], "&nbsp;", i) {
      OccursInSlice(s, "&nbsp;", lo, hi, i);
    }
  }

  /** Where ReplaceNbsp's output starts with no spaces, it starts exactly as its input does. */
  lemma {:induction false} ReplaceNbspHead(x: string, k: nat)
    ensures k <= |ReplaceNbsp(x)| && (forall m :: 0 <= m < k ==> ReplaceNbsp(x)[m] != ' ') ==>
      k <= |x| && x[..k] == ReplaceNbsp(x)[..k]
    decreases k
  {
    var r := ReplaceNbsp(x);
    if 0 < k <= |r| && forall m :: 0 <= m < k ==> r[m] != ' ' {
      assert r[0] != ' ';
      assert r == [x[0]] + ReplaceNbsp(x[1..]);
      ReplaceNbspHead(x[1..], k - 1);
      assert forall m :: 0 <= m < k - 1 ==> ReplaceNbsp(x[1..])[m] == r[m + 1];
      assert x[..k] == [x[0]] + x[1..][..k - 1];
      assert r[..k] == [x[0]] + ReplaceNbsp(x[1..])[..k - 1];
    }
  }

  /** Where CollapseSpaces's output starts with no whitespace, it starts exactly as its input does. */
  lemma {:induction false} CollapseSpacesHead(x: string, k: nat)
    ensures k <= |CollapseSpaces(x)| && (forall m :: 0 <= m < k ==> !IsSpace(CollapseSpaces(x)[m])) ==>
      k <= |x| && x[..k] == CollapseSpaces(x)[..k]
    decreases k
  {
    var r := CollapseSpaces(x);
    if 0 < k <= |r| && forall m :: 0 <= m < k ==> !IsSpace(r[m]) {
      assert !IsSpace(r[0]);
      assert x != [] && !IsSpace(x[0]);
      var tl := x[1..];
      var rt := CollapseSpaces(tl);
      assert r == [x[0]] + rt;
      assert forall m :: 0 <= m < k - 1 ==> !IsSpace(rt[m]) by {
        forall m | 0 <= m < k - 1 ensures !IsSpace(rt[m]) {
          assert rt[m] == r[m + 1];
        }
      }
      CollapseSpacesHead(tl, k - 1);
      assert x[..k] == [x[0]] + tl[..k - 1];
      assert r[..k] == [x[0]] + rt[..k - 1];
    }
  }

  /** A string that starts with "nbsp;" has no space among its first five characters. */
  lemma NbspTailHasNoSpace(t: string)
    ensures OccursAt(t, "nbsp;", 0) ==> 5 <= |t| && forall m :: 0 <= m < 5 ==> t[m] != ' ' && !IsSpace(t[m])
  {
    if OccursAt(t, "nbsp;", 0) {
      assert forall m :: 0 <= m < 5 ==> t[m] == t[..5][m];
    }
  }

  lemma {:induction false} ReplaceNbspNoNbsp(s: string)
    ensures NoNbsp(ReplaceNbsp(s))
    decreases |s|
  {
    if s != [] {
      assert s == [s[0]] + s[1..];
      NbspSplit(s[0], s[1..]);
      if OccursAt(s, "&nbsp;", 0) {
        ReplaceNbspNoNbsp(s[6..]);
        NbspSplit(' ', ReplaceNbsp(s[6..]));
        NoNbspCons(' ', ReplaceNbsp(s[6..]));
      } else {
        var t := ReplaceNbsp(s[1..]);
        ReplaceNbspNoNbsp(s[1..]);
        ReplaceNbspHead(s[1..], 5);
        NbspTailHasNoSpace(t);
        assert OccursAt(t, "nbsp;", 0) ==> s[1..][..5] == t[..5];
        NoNbspCons(s[0], t);
      }
    }
  }

  lemma {:induction false} CollapseSpacesNoNbsp(s: string)
    requires NoNbsp(s)
    ensures NoNbsp(CollapseSpaces(s))
    decreases |s|
  {
    if s != [] {
      NoNbspSlice(s, 1, |s|);
      assert s[1..|s|] == s[1..];
      if IsSpace(s[0]) {
        var t := TrimStart(s[1..]);
        NoNbspSlice(s[1..], |s[1..]| - |t|, |s[1..]|);
        assert s[1..][|s[1..]| - |t|..|s[1..]|] == t;
        CollapseSpacesNoNbsp(t);
        NbspSplit(' ', CollapseSpaces(t));
        NoNbspCons(' ', CollapseSpaces(t));
      } else {
        var t := CollapseSpaces(s[1..]);
        CollapseSpacesNoNbsp(s[1..]);
        CollapseSpacesHead(s[1..], 5);
        NbspTailHasNoSpace(t);
        assert OccursAt(t, "nbsp;", 0) ==> s[1..][..5] == t[..5];
        assert s == [s[0]] + s[1..];
        NbspSplit(s[0], s[1..]);
        assert !OccursAt(s, "&nbsp;", 0);
        NoNbspCons(s[0], t);
      }
    }
  }

  /** Text without '<' passes through tag removal unchanged. */
  lemma {:induction false} StripTagsPlain(s: string)
    requires '<' !in s
    ensures StripTags(s) == s
    decreases |s|
  {
    if s != [] {
      assert s == [s[0]] + s[1..];
      StripTagsPlain(s[1..]);
    }
  }

  /**
   * A span `<t>` whose inside holds no '>' is removed as a whole, and text before it that holds no '<'
   * is kept unchanged; removal then goes on after the span.
   */
  lemma {:induction false} StripTagsSpan(x: string, t: string, y: string)
    requires '<' !in x && '>' !in t
    ensures StripTags(x + ['<'] + t + ['>'] + y) == x + StripTags(y)
    decreases |x|
  {
    var s := x + ['<'] + t + ['>'] + y;
    if x == [] {
      JoinAssoc(x, ['<'], []);
      StripTagsLeadingSpan(t, y);
    } else {
      var x1 := x[1..];
      assert x == [x[0]] + x1;
      assert s[0] == x[0] && s[1..] == x1 + ['<'] + t + ['>'] + y;
      StripTagsSpan(x1, t, y);
      var r := StripTags(y);
      assert StripTags(s) == [x[0]] + (x1 + r);
      JoinAssoc([x[0]], x1, r);
    }
  }

  lemma StripTagsLeadingSpan(t: string, y: string)
    requires '>' !in t
    ensures StripTags(['<'] + t + ['>'] + y) == StripTags(y)
  {
    var s := ['<'] + t + ['>'] + y;
    var s1 := t + ['>'] + y;
    assert s == ['<'] + s1 && s[1..] == s1;
    assert s1[|t|] == '>';
    var k := CloseAt(s1);
    assert s1[..|t|] == t;
    assert k == |t|;
    assert s[k + 2..] == y;
  }

  /** Text without "&nbsp;" passes through the replacement unchanged. */
  lemma {:induction false} ReplaceNbspPlain(s: string)
    requires NoNbsp(s)
    ensures ReplaceNbsp(s) == s
    decreases |s|
  {
    if s != [] {
      assert !OccursAt(s, "&nbsp;", 0);
      NoNbspSlice(s, 1, |s|);
      assert s[1..|s|] == s[1..];
      assert s == [s[0]] + s[1..];
      ReplaceNbspPlain(s[1..]);
    }
  }

  /** The first "&nbsp;" becomes one space; the text before it is kept and the replacement goes on after it. */
  lemma {:induction false} ReplaceNbspAt(x: string, y: string)
    requires NoNbsp(x)
    ensures ReplaceNbsp(x + "&nbsp;" + y) == x + [' '] + ReplaceNbsp(y)
    decreases |x|
  {
    var s := x + "&nbsp;" + y;
    if x == [] {
      assert s == "&nbsp;" + y;
      assert s[0..6] == "&nbsp;";
      assert s[6..] == y;
    } else {
      NbspNotBefore(x, "&nbsp;" + y);
      assert x + ("&nbsp;" + y) == s;
      var x1 := x[1..];
      NoNbspSlice(x, 1, |x|);
      assert x[1..|x|] == x1;
      assert s[1..] == x1 + "&nbsp;" + y;
      ReplaceNbspAt(x1, y);
      var r := ReplaceNbsp(y);
      assert ReplaceNbsp(s) == [x[0]] + (x1 + [' '] + r);
      assert x == [x[0]] + x1;
      JoinAssoc([x[0]], x1 + [' '], r);
      JoinAssoc([x[0]], x1, [' ']);
    }
  }

  /** Text without "&nbsp;" followed by text starting with '&' does not start with "&nbsp;". */
  lemma NbspNotBefore(x: string, z: string)
    requires x != [] && NoNbsp(x)
    requires z != [] && z[0] == '&'
    ensures !OccursAt(x + z, "&nbsp;", 0)
  {
    var s := x + z;
    if 6 <= |s| {
      var u := s[0..6];
      if 6 <= |x| {
        assert u == x[0..6];
        assert !OccursAt(x, "&nbsp;", 0);
      } else {
        assert u[|x|] == '&';
        assert "&nbsp;"[|x|] != '&';
      }
      assert u != "&nbsp;";
    }
  }

  /** Trimming keeps a string free of tags. */
  lemma TrimKeepsNoTag(c: string)
    requires NoTag(c)
    ensures NoTag(Trim(c))
  {
    var t := TrimStart(c);
    var r := Trim(c);
    assert r == t[..|r|];
    NoTagSlice(c, |c| - |t|, |c|);
    assert c[|c| - |t|..|c|] == t;
    NoTagSlice(t, 0, |r|);
  }

  /** Trimming keeps a string free of "&nbsp;". */
  lemma TrimKeepsNoNbsp(c: string)
    requires NoNbsp(c)
    ensures NoNbsp(Trim(c))
  {
    var t := TrimStart(c);
    var r := Trim(c);
    assert r == t[..|r|];
    NoNbspSlice(c, |c| - |t|, |c|);
    assert c[|c| - |t|..|c|] == t;
    NoNbspSlice(t, 0, |r|);
  }

  /**
   * The cleaned description of a missing or empty text is "". Otherwise it has no whitespace at either
   * end, never two whitespace characters in a row, no `<...>` span, no "&nbsp;", and exactly the visible
   * characters left once tags are removed and "&nbsp;" entities replaced, in order.
   */
  lemma CleanDescriptionMeaning(description: Option<string>)
    ensures description.None? || description.value == "" ==> CleanDescription(description) == ""
    ensures var r := CleanDescription(description);
      && (r == [] || (!IsSpace(r[0]) && !IsSpace(r[|r| - 1])))
      && NoDoubleSpace(r)
      && NoTag(r)
      && NoNbsp(r)
    ensures description.Some? ==>
      Visible(CleanDescription(description)) == Visible(ReplaceNbsp(StripTags(description.value)))
  {
    if description.Some? && description.value != "" {
      var s := ReplaceNbsp(StripTags(description.value));
      var c := CollapseSpaces(s);
      assert CleanDescription(description) == Trim(c);
      StripTagsNoTag(description.value);
      ReplaceNbspNoTag(StripTags(description.value));
      CollapseSpacesNoTag(s);
      ReplaceNbspNoNbsp(StripTags(description.value));
      CollapseSpacesNoNbsp(s);
      TrimKeepsNoTag(c);
      TrimKeepsNoNbsp(c);
      CollapseSpacesVisible(s);
      TrimKeeps(c);
    }
  }
}
