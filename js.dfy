/**
 * The JavaScript semantics the screens rely on: numbers that can become NaN or -Infinity,
 * Math.max over values that may be undefined, whitespace, trim, toLowerCase and includes.
 */
module Js {
  import opened Wrappers
  import opened Seqs

  /**
   * The numbers the model's arithmetic produces: non-negative integers, NaN (arithmetic or
   * Math.max involving undefined) and -Infinity (Math.max of no arguments).
   */
  datatype Number = Finite(n: nat) | NaN | NegInfinity

  /** One step of Math.max: NaN absorbs everything, -Infinity is the identity. */
  function MaxStep(m: Number, x: Option<nat>): Number {
    match (m, x)
    case (NaN, _) => NaN
    case (_, None) => NaN
    case (NegInfinity, Some(v)) => Finite(v)
    case (Finite(a), Some(v)) => Finite(if a < v then v else a)
  }

  /** `Math.max(...xs)` where every argument is a number or undefined (None). */
  function MathMax(xs: seq<Option<nat>>): (r: Number)
    ensures r == NegInfinity <==> xs == []
    ensures r == NaN <==> None in xs
    ensures r.Finite? ==> Some(r.n) in xs && forall x :: x in xs ==> x.Some? && x.value <= r.n
  {
    if xs == [] then NegInfinity
    else
      var init := xs[..|xs| - 1];
      assert xs == init + [xs[|xs| - 1]];
      MaxStep(MathMax(init), xs[|xs| - 1])
  }

  /** `a + b` on the model's numbers. */
  function Plus(a: Number, b: Number): Number {
    match (a, b)
    case (Finite(x), Finite(y)) => Finite(x + y)
    case (NaN, _) => NaN
    case (_, NaN) => NaN
    case _ => NegInfinity
  }

  /** `a * b` where either operand may be undefined, which makes the product NaN. */
  function Times(a: Option<nat>, b: Option<nat>): Number {
    if a.Some? && b.Some? then Finite(a.value * b.value) else NaN
  }

  /** `Number(x) || 0`: a value that is not a number counts as 0. */
  function OrZero(x: Option<nat>): nat {
    x.GetOr(0)
  }

  /** Truthiness of a numeric field: undefined and 0 are falsy. */
  predicate Truthy(x: Option<nat>) {
    x.Some? && x.value != 0
  }

  /** The characters matched by the regular-expression class `\s` and removed by `trim()`. */
  predicate IsSpace(c: char) {
    || c == '\t' || c == '\n' || c == '\U{B}' || c == '\U{C}' || c == '\r' || c == ' '
    || c == '\U{A0}' || c == '\U{1680}' || ('\U{2000}' <= c <= '\U{200A}')
    || c == '\U{2028}' || c == '\U{2029}' || c == '\U{202F}' || c == '\U{205F}'
    || c == '\U{3000}' || c == '\U{FEFF}'
  }

  /** Every character of s is whitespace (so trim(s) is ""). */
  predicate AllSpace(s: string) {
    forall i :: 0 <= i < |s| ==> IsSpace(s[i])
  }

  /** The characters of s that are not whitespace, in order. */
  function Visible(s: string): (r: string)
    ensures forall c :: c in r <==> c in s && !IsSpace(c)
  {
    if s == [] then []
    else
      assert s == [s[0]] + s[1..];
      if IsSpace(s[0]) then Visible(s[1..]) else [s[0]] + Visible(s[1..])
  }

  lemma {:induction false} VisibleConcat(a: string, b: string)
    ensures Visible(a + b) == Visible(a) + Visible(b)
  {
    if a != [] {
      assert (a + b)[0] == a[0] && (a + b)[1..] == a[1..] + b;
      VisibleConcat(a[1..], b);
    } else {
      assert a + b == b;
    }
  }

  /** No two neighbouring characters are both whitespace. */
  predicate NoDoubleSpace(s: string) {
    forall i :: 0 <= i < |s| - 1 ==> !(IsSpace(s[i]) && IsSpace(s[i + 1]))
  }

  lemma NoDoubleSpaceCons(c: char, t: string)
    requires NoDoubleSpace(t)
    requires t == [] || !IsSpace(c) || !IsSpace(t[0])
    ensures NoDoubleSpace([c] + t)
  {
    var r := [c] + t;
    forall i | 0 <= i < |r| - 1 ensures !(IsSpace(r[i]) && IsSpace(r[i + 1])) {
      if i > 0 {
        assert r[i] == t[i - 1] && r[i + 1] == t[i];
      }
    }
  }

  /** A slice of a string without double whitespace has none either. */
  lemma NoDoubleSpaceSlice(s: string, lo: nat, hi: nat)
    requires lo <= hi <= |s| && NoDoubleSpace(s)
    ensures NoDoubleSpace(s[lo..hi])
  {
    var t := s[lo..hi];
    forall i | 0 <= i < |t| - 1 ensures !(IsSpace(t[i]) && IsSpace(t[i + 1])) {
      assert t[i] == s[lo + i] && t[i + 1] == s[lo + i + 1];
    }
  }

  /** `trimStart()`: drops the leading whitespace and nothing else. */
  function TrimStart(s: string): (r: string)
    ensures |r| <= |s| && r == s[|s| - |r|..]
    ensures forall i :: 0 <= i < |s| - |r| ==> IsSpace(s[i])
    ensures r != [] ==> !IsSpace(r[0])
  {
    if s != [] && IsSpace(s[0]) then TrimStart(s[1..]) else s
  }

  lemma {:induction false} TrimStartVisible(s: string)
    ensures Visible(TrimStart(s)) == Visible(s)
  {
    if s != [] && IsSpace(s[0]) {
      TrimStartVisible(s[1..]);
    }
  }

  /** `trimEnd()`: drops the trailing whitespace and nothing else. */
  function TrimEnd(s: string): (r: string)
    ensures |r| <= |s| && r == s[..|r|]
    ensures forall i :: |r| <= i < |s| ==> IsSpace(s[i])
    ensures r != [] ==> !IsSpace(r[|r| - 1])
  {
    if s != [] && IsSpace(s[|s| - 1]) then TrimEnd(s[..|s| - 1]) else s
  }

  lemma {:induction false} TrimEndVisible(s: string)
    ensures Visible(TrimEnd(s)) == Visible(s)
  {
    if s != [] && IsSpace(s[|s| - 1]) {
      var init := s[..|s| - 1];
      assert s == init + [s[|s| - 1]];
      VisibleConcat(init, [s[|s| - 1]]);
      assert Visible([s[|s| - 1]]) == [];
      TrimEndVisible(init);
    }
  }

  /** `trim()`: removes leading and trailing whitespace. */
  function Trim(s: string): (r: string)
    ensures r == [] || (!IsSpace(r[0]) && !IsSpace(r[|r| - 1]))
  {
    TrimEnd(TrimStart(s))
  }

  /** trim() keeps every visible character and adds no double whitespace. */
  lemma TrimKeeps(s: string)
    ensures Visible(Trim(s)) == Visible(s)
    ensures NoDoubleSpace(s) ==> NoDoubleSpace(Trim(s))
  {
    var t := TrimStart(s);
    TrimStartVisible(s);
    TrimEndVisible(t);
    if NoDoubleSpace(s) {
      NoDoubleSpaceSlice(s, |s| - |t|, |s|);
      NoDoubleSpaceSlice(t, 0, |Trim(s)|);
    }
  }

  /** trim() yields "" exactly for a string of whitespace. */
  lemma TrimEmpty(s: string)
    ensures Trim(s) == [] <==> AllSpace(s)
  {
    var t := TrimStart(s);
    var k := |s| - |t|;
    if Trim(s) == [] {
      assert t == [];
    } else {
      assert t != [] && t[0] == s[k];
    }
  }

  /** `replace(/\s+/g, " ")`: every maximal run of whitespace becomes one space. */
  function CollapseSpaces(s: string): (r: string)
    ensures s != [] ==> r != [] && (IsSpace(r[0]) <==> IsSpace(s[0]))
    ensures NoDoubleSpace(r)
    decreases |s|
  {
    if s == [] then []
    else if IsSpace(s[0]) then
      var rest := CollapseSpaces(TrimStart(s[1..]));
      NoDoubleSpaceCons(' ', rest);
      [' '] + rest
    else
      var rest := CollapseSpaces(s[1..]);
      NoDoubleSpaceCons(s[0], rest);
      [s[0]] + rest
  }

  /** Collapsing whitespace keeps every visible character, in order. */
  lemma {:induction false} CollapseSpacesVisible(s: string)
    ensures Visible(CollapseSpaces(s)) == Visible(s)
    decreases |s|
  {
    if s != [] {
      if IsSpace(s[0]) {
        var t := TrimStart(s[1..]);
        CollapseSpacesVisible(t);
        TrimStartVisible(s[1..]);
        VisibleConcat([' '], CollapseSpaces(t));
      } else {
        CollapseSpacesVisible(s[1..]);
        VisibleConcat([s[0]], CollapseSpaces(s[1..]));
      }
    }
  }

  /** Leading whitespace before a non-whitespace character (or the end) is all `trimStart()` drops. */
  lemma {:induction false} TrimStartRun(u: string, b: string)
    requires AllSpace(u)
    requires b == [] || !IsSpace(b[0])
    ensures TrimStart(u + b) == b
    decreases |u|
  {
    if u == [] {
      assert u + b == b;
    } else {
      assert (u + b)[0] == u[0] && (u + b)[1..] == u[1..] + b;
      assert AllSpace(u[1..]) by {
        forall i | 0 <= i < |u[1..]| ensures IsSpace(u[1..][i]) {
          assert u[1..][i] == u[i + 1];
        }
      }
      TrimStartRun(u[1..], b);
    }
  }

  /** `trimStart()` stops inside x when x ends with a non-whitespace character. */
  lemma {:induction false} TrimStartConcat(x: string, z: string)
    requires x != [] && !IsSpace(x[|x| - 1])
    ensures TrimStart(x + z) == TrimStart(x) + z
    decreases |x|
  {
    assert (x + z)[0] == x[0];
    if IsSpace(x[0]) {
      assert (x + z)[1..] == x[1..] + z;
      assert x[1..][|x[1..]| - 1] == x[|x| - 1];
      TrimStartConcat(x[1..], z);
    }
  }

  /** Text without whitespace passes through `replace(/\s+/g, " ")` unchanged. */
  lemma {:induction false} CollapseSpacesWord(a: string)
    requires forall i :: 0 <= i < |a| ==> !IsSpace(a[i])
    ensures CollapseSpaces(a) == a
    decreases |a|
  {
    if a != [] {
      assert forall i :: 0 <= i < |a[1..]| ==> a[1..][i] == a[i + 1];
      CollapseSpacesWord(a[1..]);
    }
  }

  /** A leading run of whitespace becomes one space. */
  lemma CollapseSpacesLeadingRun(w: string, b: string)
    requires w != [] && AllSpace(w)
    requires b == [] || !IsSpace(b[0])
    ensures CollapseSpaces(w + b) == [' '] + CollapseSpaces(b)
  {
    var s := w + b;
    assert s[0] == w[0] && s[1..] == w[1..] + b;
    assert AllSpace(w[1..]) by {
      forall i | 0 <= i < |w[1..]| ensures IsSpace(w[1..][i]) {
        assert w[1..][i] == w[i + 1];
      }
    }
    TrimStartRun(w[1..], b);
  }

  /**
   * Collapsing splits at a visible character: a part that ends with one is collapsed independently of
   * what follows it.
   */
  lemma {:induction false} CollapseSpacesConcat(x: string, y: string)
    requires x != [] && !IsSpace(x[|x| - 1])
    ensures CollapseSpaces(x + y) == CollapseSpaces(x) + CollapseSpaces(y)
    decreases |x|, 1
  {
    if |x| == 1 {
      var xy := x + y;
      assert xy[0] == x[0] && xy[1..] == y;
    } else if IsSpace(x[0]) {
      CollapseSpacesConcatAtSpace(x, y);
    } else {
      CollapseSpacesConcatAtChar(x, y);
    }
  }

  lemma {:induction false} CollapseSpacesConcatAtSpace(x: string, y: string)
    requires 1 < |x| && IsSpace(x[0]) && !IsSpace(x[|x| - 1])
    ensures CollapseSpaces(x + y) == CollapseSpaces(x) + CollapseSpaces(y)
    decreases |x|, 0
  {
    var x1 := x[1..];
    var xy := x + y;
    assert xy[0] == x[0] && xy[1..] == x1 + y;
    assert x1[|x1| - 1] == x[|x| - 1];
    var t := TrimStart(x1);
    TrimStartConcat(x1, y);
    TrimStartKeepsLast(x1);
    CollapseSpacesConcat(t, y);
    CollapseSpacesAtSpace(xy);
    CollapseSpacesAtSpace(x);
    JoinAssoc([' '], CollapseSpaces(t), CollapseSpaces(y));
  }

  lemma {:induction false} CollapseSpacesConcatAtChar(x: string, y: string)
    requires 1 < |x| && !IsSpace(x[0]) && !IsSpace(x[|x| - 1])
    ensures CollapseSpaces(x + y) == CollapseSpaces(x) + CollapseSpaces(y)
    decreases |x|, 0
  {
    var x1 := x[1..];
    var xy := x + y;
    assert xy[0] == x[0] && xy[1..] == x1 + y;
    assert x1[|x1| - 1] == x[|x| - 1];
    CollapseSpacesConcat(x1, y);
    CollapseSpacesAtChar(xy);
    CollapseSpacesAtChar(x);
    JoinAssoc([x[0]], CollapseSpaces(x1), CollapseSpaces(y));
  }

  /**
   * A whole run of whitespace, between a part that is empty or ends with a visible character and a part
   * that is empty or starts with one, becomes exactly one space; the two parts are collapsed independently.
   */
  lemma CollapseSpacesRun(a: string, w: string, b: string)
    requires a == [] || !IsSpace(a[|a| - 1])
    requires w != [] && AllSpace(w)
    requires b == [] || !IsSpace(b[0])
    ensures CollapseSpaces(a + w + b) == CollapseSpaces(a) + [' '] + CollapseSpaces(b)
  {
    CollapseSpacesLeadingRun(w, b);
    var ca, cb := CollapseSpaces(a), CollapseSpaces(b);
    JoinAssoc(a, w, b);
    JoinAssoc(ca, [' '], cb);
    if a != [] {
      CollapseSpacesConcat(a, w + b);
    }
  }

  lemma JoinAssoc(x: string, y: string, z: string)
    ensures x + (y + z) == x + y + z
    ensures x == [] ==> x + y == y
  {
  }

  /** `trimStart()` of a string ending with a visible character keeps that last character. */
  lemma TrimStartKeepsLast(x: string)
    requires x != [] && !IsSpace(x[|x| - 1])
    ensures TrimStart(x) != [] && TrimStart(x)[|TrimStart(x)| - 1] == x[|x| - 1]
  {
  }

  lemma CollapseSpacesAtChar(s: string)
    requires s != [] && !IsSpace(s[0])
    ensures CollapseSpaces(s) == [s[0]] + CollapseSpaces(s[1..])
  {
  }

  lemma CollapseSpacesAtSpace(s: string)
    requires s != [] && IsSpace(s[0])
    ensures CollapseSpaces(s) == [' '] + CollapseSpaces(TrimStart(s[1..]))
  {
  }

  /** `toLowerCase()` on one character (letters A to Z). */
  function LowerChar(c: char): char {
    if 'A' <= c <= 'Z' then (c as int + 32) as char else c
  }

  /**
   * `toLowerCase()` on the letters A to Z: the result has no capital letter, every capital becomes its
   * small letter, and every other character is kept.
   */
  function ToLower(s: string): (r: string)
    ensures |r| == |s|
    ensures forall i :: 0 <= i < |s| ==> !('A' <= r[i] <= 'Z')
    ensures forall i :: 0 <= i < |s| && 'A' <= s[i] <= 'Z' ==> r[i] as int == s[i] as int + 32
    ensures forall i :: 0 <= i < |s| && !('A' <= s[i] <= 'Z') ==> r[i] == s[i]
  {
    seq(|s|, i requires 0 <= i < |s| => LowerChar(s[i]))
  }

  /** Lowercasing twice is lowercasing once, and text without capitals is already lowercase. */
  lemma ToLowerIdempotent(s: string)
    ensures ToLower(ToLower(s)) == ToLower(s)
    ensures (forall i :: 0 <= i < |s| ==> !('A' <= s[i] <= 'Z')) ==> ToLower(s) == s
  {
  }

  /** q occurs in s starting at position i. */
  predicate OccursAt(s: string, q: string, i: nat) {
    i + |q| <= |s| && s[i..i + |q|] == q
  }

  /** `s.includes(q)`: q occurs somewhere in s. Every string includes "". */
  function Includes(s: string, q: string): (b: bool)
    ensures b <==> exists i: nat :: OccursAt(s, q, i)
    decreases |s|
  {
    if OccursAt(s, q, 0) then true
    else if s == [] then false
    else
      var b := Includes(s[1..], q);
      assert forall i: nat :: OccursAt(s[1..], q, i) <==> OccursAt(s, q, i + 1) by {
        forall i: nat ensures OccursAt(s[1..], q, i) <==> OccursAt(s, q, i + 1) {
          if i + |q| <= |s[1..]| {
            assert s[1..][i..i + |q|] == s[i + 1..i + 1 + |q|];
          }
        }
      }
      assert (exists i: nat :: OccursAt(s, q, i)) ==> exists i: nat :: OccursAt(s[1..], q, i) by {
        if exists i: nat :: OccursAt(s, q, i) {
          var i: nat :| OccursAt(s, q, i);
          assert i != 0;
          assert OccursAt(s[1..], q, i - 1);
        }
      }
      b
  }
}
