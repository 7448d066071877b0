/**
 * Sequence operations the pages rely on: `Array.prototype.filter`,
 * `Array.prototype.map`, and the iteration order of a JavaScript `Set`
 * built from an array (insertion order, duplicates ignored).
 */
module Seqs {

  /** `s.filter(p)`: the elements of `s` that satisfy `p`, in their order. */
  function Filter<T>(p: T -> bool, s: seq<T>): (r: seq<T>)
    ensures |r| <= |s|
    ensures forall x :: x in r ==> x in s && p(x)
    ensures forall x :: x in s && p(x) ==> x in r
    decreases |s|
  {
    if s == [] then []
    else if p(s[0]) then [s[0]] + Filter(p, s[1..])
    else Filter(p, s[1..])
  }

  /** `s.map(f)`. */
  function Map<T, U>(f: T -> U, s: seq<T>): (r: seq<U>)
    ensures |r| == |s|
    ensures forall i :: 0 <= i < |s| ==> r[i] == f(s[i])
    decreases |s|
  {
    if s == [] then [] else [f(s[0])] + Map(f, s[1..])
  }

  /** `a` is obtained from `b` by deleting elements, keeping the order of the rest. */
  predicate IsSubsequence<T(==)>(a: seq<T>, b: seq<T>)
    decreases |b|
  {
    a == [] ||
    (b != [] && (IsSubsequence(a, b[1..]) || (a[0] == b[0] && IsSubsequence(a[1..], b[1..]))))
  }

  predicate NoDuplicates<T(==)>(s: seq<T>) {
    forall i, j :: 0 <= i < j < |s| ==> s[i] != s[j]
  }

  /** Number of occurrences of `x` in `s`. */
  function Count<T(==)>(s: seq<T>, x: T): nat
    decreases |s|
  {
    if s == [] then 0 else (if s[0] == x then 1 else 0) + Count(s[1..], x)
  }

  /**
   * A filter keeps every occurrence of a value satisfying the predicate, and
   * no occurrence of any other value.
   */
  lemma {:induction false} FilterCount<T>(p: T -> bool, s: seq<T>, x: T)
    ensures Count(Filter(p, s), x) == if p(x) then Count(s, x) else 0
    decreases |s|
  {
    if s != [] {
      FilterCount(p, s[1..], x);
      if p(s[0]) {
        assert Filter(p, s)[1..] == Filter(p, s[1..]);
      }
    }
  }

  /** A filter never reorders: its result is a subsequence of its input. */
  lemma {:induction false} FilterIsSubsequence<T>(p: T -> bool, s: seq<T>)
    ensures IsSubsequence(Filter(p, s), s)
    decreases |s|
  {
    if s != [] {
      FilterIsSubsequence(p, s[1..]);
      var r := Filter(p, s);
      if p(s[0]) {
        assert r[0] == s[0] && r[1..] == Filter(p, s[1..]);
      }
    }
  }

  /** Filters that keep the same elements give the same result. */
  lemma {:induction false} FilterExt<T>(p: T -> bool, q: T -> bool, s: seq<T>)
    requires forall x :: x in s ==> p(x) == q(x)
    ensures Filter(p, s) == Filter(q, s)
    decreases |s|
  {
    if s != [] {
      FilterExt(p, q, s[1..]);
    }
  }

  /** A filter whose predicate holds of every element returns its input. */
  lemma {:induction false} FilterKeepsAll<T>(p: T -> bool, s: seq<T>)
    requires forall x :: x in s ==> p(x)
    ensures Filter(p, s) == s
    decreases |s|
  {
    if s != [] {
      FilterKeepsAll(p, s[1..]);
    }
  }

  /** A filter whose predicate holds of no element returns the empty sequence. */
  lemma {:induction false} FilterDropsAll<T>(p: T -> bool, s: seq<T>)
    requires forall x :: x in s ==> !p(x)
    ensures Filter(p, s) == []
    decreases |s|
  {
    if s != [] {
      FilterDropsAll(p, s[1..]);
    }
  }

  /** Filtering by `p` and then by `q` is filtering once by their conjunction `r`. */
  lemma {:induction false} FilterFilter<T>(p: T -> bool, q: T -> bool, r: T -> bool, s: seq<T>)
    requires forall x :: r(x) == (p(x) && q(x))
    ensures Filter(q, Filter(p, s)) == Filter(r, s)
    decreases |s|
  {
    if s != [] {
      FilterFilter(p, q, r, s[1..]);
      if p(s[0]) {
        assert Filter(p, s) == [s[0]] + Filter(p, s[1..]);
        assert Filter(p, s)[0] == s[0] && Filter(p, s)[1..] == Filter(p, s[1..]);
      }
    }
  }

  /** Filtering twice with the same predicate changes nothing the second time. */
  lemma FilterIdempotent<T>(p: T -> bool, s: seq<T>)
    ensures Filter(p, Filter(p, s)) == Filter(p, s)
  {
    FilterKeepsAll(p, Filter(p, s));
  }

  /** The elements of `s` that do not occur earlier in `s`, in order of first occurrence. */
  function FirstOccurrences<T(==)>(s: seq<T>): seq<T>
    decreases |s|
  {
    if s == [] then []
    else
      var init := s[..|s| - 1];
      FirstOccurrences(init) + (if s[|s| - 1] in init then [] else [s[|s| - 1]])
  }

  /**
   * The contents, in iteration order, of a JavaScript `Set` whose contents were
   * `acc` after the elements of `s` are added to it one by one.
   */
  function InsertAll<T(==)>(acc: seq<T>, s: seq<T>): seq<T>
    decreases |s|
  {
    if s == [] then acc else InsertAll(if s[0] in acc then acc else acc + [s[0]], s[1..])
  }

  lemma {:induction false} FirstOccurrencesElements<T>(s: seq<T>)
    ensures forall i :: 0 <= i < |FirstOccurrences(s)| ==> FirstOccurrences(s)[i] in s
    ensures forall i :: 0 <= i < |s| ==> s[i] in FirstOccurrences(s)
    decreases |s|
  {
    if s != [] {
      var init := s[..|s| - 1];
      FirstOccurrencesElements(init);
      assert s == init + [s[|s| - 1]];
    }
  }

  lemma {:induction false} FirstOccurrencesDistinct<T>(s: seq<T>)
    ensures NoDuplicates(FirstOccurrences(s))
    decreases |s|
  {
    if s != [] {
      var init := s[..|s| - 1];
      FirstOccurrencesDistinct(init);
      FirstOccurrencesElements(init);
    }
  }

  lemma InFirstOccurrences<T>(s: seq<T>, x: T)
    ensures x in FirstOccurrences(s) <==> x in s
  {
    FirstOccurrencesElements(s);
    if x in s {
      var i :| 0 <= i < |s| && s[i] == x;
    }
  }

  /** Adding one element to the set of first occurrences of `p`. */
  lemma InsertOneFirstOccurrences<T>(p: seq<T>, x: T)
    ensures FirstOccurrences(p + [x])
         == if x in FirstOccurrences(p) then FirstOccurrences(p) else FirstOccurrences(p) + [x]
  {
    InFirstOccurrences(p, x);
    assert (p + [x])[..|p + [x]| - 1] == p;
  }

  /** Adding the elements of `s` to a set that holds the first occurrences of `p`. */
  lemma {:induction false} InsertAllFirstOccurrences<T>(p: seq<T>, s: seq<T>)
    ensures InsertAll(FirstOccurrences(p), s) == FirstOccurrences(p + s)
    decreases |s|
  {
    if s == [] {
      assert p + s == p;
    } else {
      var p' := p + [s[0]];
      calc {
        InsertAll(FirstOccurrences(p), s);
        InsertAll(if s[0] in FirstOccurrences(p) then FirstOccurrences(p)
                  else FirstOccurrences(p) + [s[0]], s[1..]);
        { InsertOneFirstOccurrences(p, s[0]); }
        InsertAll(FirstOccurrences(p'), s[1..]);
        { InsertAllFirstOccurrences(p', s[1..]); }
        FirstOccurrences(p' + s[1..]);
        { assert p' + s[1..] == p + s; }
        FirstOccurrences(p + s);
      }
    }
  }

  /**
   * `[...new Set(s)]`: each distinct element of `s` once, in order of first
   * occurrence.
   */
  function Distinct<T(==)>(s: seq<T>): (r: seq<T>)
    ensures r == FirstOccurrences(s)
    ensures NoDuplicates(r)
    ensures forall i :: 0 <= i < |r| ==> r[i] in s
    ensures forall i :: 0 <= i < |s| ==> s[i] in r
  {
    InsertAllFirstOccurrences([], s);
    assert [] + s == s;
    FirstOccurrencesDistinct(s);
    FirstOccurrencesElements(s);
    assert FirstOccurrences<T>([]) == [];
    InsertAll([], s)
  }
}
