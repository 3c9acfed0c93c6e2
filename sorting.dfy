/**
 * Array.prototype.sort with a comparator `(a, b) => key(a) - key(b)`: a stable ascending sort.
 * SortBy is the specification (insertion sort on sequences); SortInPlace runs it on an array.
 */
module Sorting {
  import opened Seqs

  ghost predicate SortedBy<T>(s: seq<T>, key: T -> int) {
    forall i, j :: 0 <= i < j < |s| ==> key(s[i]) <= key(s[j])
  }

  /** The elements whose key is d. */
  function KeyIs<T>(key: T -> int, d: int): T -> bool {
    x => key(x) == d
  }

  /** Inserts x after every trailing element whose key exceeds key(x) has been passed over from the right. */
  function InsertBy<T>(s: seq<T>, x: T, key: T -> int): seq<T>
    decreases |s|
  {
    if s == [] || key(s[|s| - 1]) <= key(x) then s + [x]
    else InsertBy(s[..|s| - 1], x, key) + [s[|s| - 1]]
  }

  /** Insertion sort, inserting the elements left to right. */
  function SortBy<T>(s: seq<T>, key: T -> int): seq<T>
    decreases |s|
  {
    if s == [] then [] else InsertBy(SortBy(s[..|s| - 1], key), s[|s| - 1], key)
  }

  lemma {:induction false} InsertByPermutes<T>(s: seq<T>, x: T, key: T -> int)
    ensures multiset(InsertBy(s, x, key)) == multiset(s) + multiset{x}
    decreases |s|
  {
    if !(s == [] || key(s[|s| - 1]) <= key(x)) {
      var init := s[..|s| - 1];
      assert s == init + [s[|s| - 1]];
      InsertByPermutes(init, x, key);
    }
  }

  lemma {:induction false} InsertBySorted<T>(s: seq<T>, x: T, key: T -> int)
    requires SortedBy(s, key)
    ensures SortedBy(InsertBy(s, x, key), key)
    decreases |s|
  {
    if !(s == [] || key(s[|s| - 1]) <= key(x)) {
      var init := s[..|s| - 1];
      var last := s[|s| - 1];
      assert s == init + [last];
      InsertBySorted(init, x, key);
      var t := InsertBy(init, x, key);
      InsertByPermutes(init, x, key);
      forall i | 0 <= i < |t| ensures key(t[i]) <= key(last) {
        assert t[i] in multiset(t);
        assert t[i] in multiset(init) || t[i] == x;
      }
    }
  }

  /** Insertion keeps the relative order of equal keys, and x comes after those already there. */
  lemma {:induction false} InsertByStable<T(!new)>(s: seq<T>, x: T, key: T -> int, d: int)
    ensures Filter(InsertBy(s, x, key), KeyIs(key, d)) == Filter(s, KeyIs(key, d)) + Filter([x], KeyIs(key, d))
    decreases |s|
  {
    var p := KeyIs(key, d);
    if s == [] || key(s[|s| - 1]) <= key(x) {
      FilterConcat(s, [x], p);
    } else {
      var init := s[..|s| - 1];
      var last := s[|s| - 1];
      assert s == init + [last];
      var t := InsertBy(init, x, key);
      assert InsertBy(s, x, key) == t + [last];
      assert Filter(t, p) == Filter(init, p) + Filter([x], p) by {
        InsertByStable(init, x, key, d);
      }
      assert Filter(t + [last], p) == Filter(t, p) + Filter([last], p) by {
        FilterConcat(t, [last], p);
      }
      assert Filter(s, p) == Filter(init, p) + Filter([last], p) by {
        FilterConcat(init, [last], p);
      }
      assert Filter([x], p) + Filter([last], p) == Filter([last], p) + Filter([x], p) by {
        FilterSingle(x, p);
        FilterSingle(last, p);
      }
    }
  }

  /** SortBy orders by key, permutes its input, and is stable. */
  lemma {:induction false} SortByCorrect<T(!new)>(s: seq<T>, key: T -> int)
    ensures SortedBy(SortBy(s, key), key)
    ensures multiset(SortBy(s, key)) == multiset(s)
    ensures |SortBy(s, key)| == |s|
    ensures forall d :: Filter(SortBy(s, key), KeyIs(key, d)) == Filter(s, KeyIs(key, d))
    decreases |s|
  {
    if s != [] {
      var init := s[..|s| - 1];
      var last := s[|s| - 1];
      assert s == init + [last];
      SortByCorrect(init, key);
      InsertBySorted(SortBy(init, key), last, key);
      InsertByPermutes(SortBy(init, key), last, key);
      forall d ensures Filter(SortBy(s, key), KeyIs(key, d)) == Filter(s, KeyIs(key, d)) {
        InsertByStable(SortBy(init, key), last, key, d);
        FilterConcat(init, [last], KeyIs(key, d));
      }
    }
  }

  /** The insertion sort of `SortBy`, done in place the way an array sort works. */
  method SortInPlace<T>(a: array<T>, key: T -> int)
    modifies a
    ensures a[..] == SortBy(old(a[..]), key)
  {
    ghost var orig := a[..];
    var i := 0;
    while i < a.Length
      invariant 0 <= i <= a.Length
      invariant a[..i] == SortBy(orig[..i], key)
      invariant a[i..] == orig[i..]
    {
      assert orig[..i + 1][..i] == orig[..i];
      InsertInPlace(a, i, key);
      i := i + 1;
    }
    assert orig[..a.Length] == orig;
  }

  /** Inserting x into p puts it right after the last element whose key does not exceed key(x). */
  lemma {:induction false} InsertByAt<T>(p: seq<T>, j: nat, x: T, key: T -> int)
    requires j <= |p|
    requires j == 0 || key(p[j - 1]) <= key(x)
    requires forall k :: j <= k < |p| ==> key(p[k]) > key(x)
    ensures InsertBy(p, x, key) == p[..j] + [x] + p[j..]
    decreases |p|
  {
    if |p| == j {
      assert p[..j] == p && p[j..] == [];
    } else {
      var init, last := p[..|p| - 1], p[|p| - 1];
      InsertByAt(init, j, x, key);
      assert init[..j] == p[..j];
      assert init[j..] + [last] == p[j..];
    }
  }

  /** Moves a[i] left past the elements of a[..i] whose key exceeds its own. */
  method InsertInPlace<T>(a: array<T>, i: nat, key: T -> int)
    requires i < a.Length
    modifies a
    ensures a[..i + 1] == InsertBy(old(a[..i]), old(a[i]), key)
    ensures a[i + 1..] == old(a[i + 1..])
  {
    var x := a[i];
    ghost var p := a[..i];
    var j := ShiftRight(a, i, x, key);
    a[j] := x;
    InsertByAt(p, j, x, key);
    Assemble(a[..i + 1], p, x, j);
    forall k | i < k < a.Length ensures a[k] == old(a[k]) {
    }
  }

  /**
   * Shifts the trailing elements of a[..i] whose key exceeds key(x) one place right, over a[i], and
   * returns the gap left where x belongs.
   */
  method ShiftRight<T>(a: array<T>, i: nat, x: T, key: T -> int) returns (j: nat)
    requires i < a.Length
    modifies a
    ensures j <= i
    ensures forall k :: 0 <= k < j ==> a[k] == old(a[k])
    ensures forall k :: j < k <= i ==> a[k] == old(a[k - 1])
    ensures forall k :: i < k < a.Length ==> a[k] == old(a[k])
    ensures j == 0 || key(old(a[j - 1])) <= key(x)
    ensures forall k :: j <= k < i ==> key(old(a[k])) > key(x)
  {
    ghost var p := a[..i];
    j := i;
    while j > 0 && key(a[j - 1]) > key(x)
      invariant 0 <= j <= i
      invariant forall k {:trigger a[k]} :: 0 <= k < j ==> a[k] == p[k]
      invariant forall k {:trigger a[k]} :: j < k <= i ==> a[k] == p[k - 1]
      invariant forall k :: i < k < a.Length ==> a[k] == old(a[k])
      invariant forall k :: j <= k < i ==> key(p[k]) > key(x)
    {
      a[j] := a[j - 1];
      j := j - 1;
    }
  }

  /** A sequence that agrees with p before j, holds x at j and p shifted by one after j is p with x put at j. */
  lemma Assemble<T>(b: seq<T>, p: seq<T>, x: T, j: nat)
    requires j <= |p| && |b| == |p| + 1
    requires forall k :: 0 <= k < j ==> b[k] == p[k]
    requires b[j] == x
    requires forall k :: j < k < |b| ==> b[k] == p[k - 1]
    ensures b == p[..j] + [x] + p[j..]
  {
  }
}
