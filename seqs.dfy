/** Sequence operations that stand for JavaScript array built-ins. */
module Seqs {

  /** `s.filter(p)`: the elements of `s` that satisfy `p`, in their original order. */
  function Filter<T(!new)>(s: seq<T>, p: T -> bool): (r: seq<T>)
    ensures |r| <= |s|
    ensures forall x :: x in r <==> x in s && p(x)
  {
    if s == [] then []
    else
      assert s == [s[0]] + s[1..];
      if p(s[0]) then [s[0]] + Filter(s[1..], p) else Filter(s[1..], p)
  }

  /** Filtering distributes over concatenation, so it keeps the input's order. */
  lemma {:induction false} FilterConcat<T(!new)>(a: seq<T>, b: seq<T>, p: T -> bool)
    ensures Filter(a + b, p) == Filter(a, p) + Filter(b, p)
  {
    if a == [] {
      assert a + b == b;
    } else {
      var ab := a + b;
      assert ab[0] == a[0] && ab[1..] == a[1..] + b;
      FilterConcat(a[1..], b, p);
      var rest := Filter(a[1..], p) + Filter(b, p);
      if p(a[0]) {
        calc {
          Filter(ab, p);
          [a[0]] + Filter(a[1..] + b, p);
          [a[0]] + rest;
          ([a[0]] + Filter(a[1..], p)) + Filter(b, p);
        }
      }
    }
  }

  /** `filter` keeps every element that passes as often as the input holds it, and no other. */
  lemma {:induction false} FilterCount<T(!new)>(s: seq<T>, p: T -> bool)
    ensures forall e :: multiset(Filter(s, p))[e] == if p(e) then multiset(s)[e] else 0
  {
    if s != [] {
      var tl := s[1..];
      assert s == [s[0]] + tl;
      FilterCount(tl, p);
      assert multiset(s) == multiset{s[0]} + multiset(tl);
      if p(s[0]) {
        assert multiset(Filter(s, p)) == multiset{s[0]} + multiset(Filter(tl, p));
      }
    }
  }

  /** Filtering a one-element sequence. */
  lemma FilterSingle<T(!new)>(x: T, p: T -> bool)
    ensures Filter([x], p) == if p(x) then [x] else []
  {
    assert [x][1..] == [];
  }

  /** `r` can be obtained from `s` by deleting elements. */
  ghost predicate Subsequence<T>(r: seq<T>, s: seq<T>)
    decreases |s|
  {
    if r == [] then true
    else if s == [] then false
    else if r[0] == s[0] then Subsequence(r[1..], s[1..])
    else Subsequence(r, s[1..])
  }

  /** What filtering keeps is a subsequence of its input. */
  lemma {:induction false} FilterIsSubsequence<T(!new)>(s: seq<T>, p: T -> bool)
    ensures Subsequence(Filter(s, p), s)
  {
    if s != [] {
      FilterIsSubsequence(s[1..], p);
      if p(s[0]) {
        assert Filter(s, p) == [s[0]] + Filter(s[1..], p);
        assert Filter(s, p)[1..] == Filter(s[1..], p);
      }
    }
  }

  /**
   * One index of a JavaScript array: a hole (never written), an element that is `undefined`, or a value.
   * Iteration methods such as `every`, `some`, `filter` and `map` skip holes but visit undefined elements;
   * `find` and the spread `[...a]` visit both, and spreading turns each hole into an undefined element.
   */
  datatype Slot<+T> = Hole | Undef | Val(value: T)

  /** Reading `a[i]`: beyond the end it is undefined. */
  function At<T>(s: seq<Slot<T>>, i: nat): Slot<T> {
    if i < |s| then s[i] else Hole
  }

  /**
   * The assignment `a[i] = x`: inside the array it overwrites one element; past the end it grows the
   * array to length i + 1 and leaves holes in between.
   */
  function WriteAt<T>(s: seq<Slot<T>>, i: nat, x: T): (r: seq<Slot<T>>)
    ensures |r| == if i < |s| then |s| else i + 1
    ensures r[i] == Val(x)
    ensures forall j :: 0 <= j < |r| && j != i ==> r[j] == At(s, j)
  {
    if i < |s| then s[i := Val(x)] else s + seq(i - |s|, _ => Hole) + [Val(x)]
  }

  /**
   * The copy `[...a]` (and equally a JSON round trip, which writes a hole as `null`): same length, no
   * hole is left, every value stays where it was, and what was not a value is now undefined.
   */
  function Spread<T>(s: seq<Slot<T>>): (r: seq<Slot<T>>)
    ensures |r| == |s|
    ensures forall j :: 0 <= j < |s| ==> !r[j].Hole?
    ensures forall j :: 0 <= j < |s| ==> (r[j].Val? <==> s[j].Val?)
    ensures forall j :: 0 <= j < |s| && s[j].Val? ==> r[j] == s[j]
  {
    seq(|s|, j requires 0 <= j < |s| => if s[j].Hole? then Undef else s[j])
  }

  /** Copying a copy changes nothing more: a spread array has no hole left to turn. */
  lemma SpreadIdempotent<T>(s: seq<Slot<T>>)
    ensures Spread(Spread(s)) == Spread(s)
  {
    var once := Spread(s);
    forall j | 0 <= j < |s| ensures Spread(once)[j] == once[j] {
      if !once[j].Val? {
        assert once[j].Undef? && Spread(once)[j].Undef?;
      }
    }
  }

  /** `Array(n).fill(x)`: n copies of x. */
  function Filled<T>(n: nat, x: T): (r: seq<T>)
    ensures |r| == n
    ensures forall i :: 0 <= i < n ==> r[i] == x
  {
    seq(n, _ => x)
  }
}
