/**
 * A stable insertion sort by a comparison `le`, with the facts the models need:
 * it permutes its input, its output is ordered, and for an antisymmetric order
 * the ordered permutation is unique (so equal multisets sort to equal sequences).
 */
module Sorting {

  ghost predicate Total<T(!new)>(le: (T, T) -> bool) {
    forall a, b :: le(a, b) || le(b, a)
  }

  ghost predicate Transitive<T(!new)>(le: (T, T) -> bool) {
    forall a, b, c :: le(a, b) && le(b, c) ==> le(a, c)
  }

  ghost predicate Antisymmetric<T(!new)>(le: (T, T) -> bool) {
    forall a, b :: le(a, b) && le(b, a) ==> a == b
  }

  ghost predicate TotalPreorder<T(!new)>(le: (T, T) -> bool) {
    Total(le) && Transitive(le)
  }

  predicate SortedBy<T>(s: seq<T>, le: (T, T) -> bool) {
    forall i, j :: 0 <= i < j < |s| ==> le(s[i], s[j])
  }

  /** Puts `x` in front of the first element it is `le` to. */
  function Insert<T>(x: T, s: seq<T>, le: (T, T) -> bool): (r: seq<T>)
    ensures |r| == |s| + 1
    ensures multiset(r) == multiset(s) + multiset{x}
  {
    if |s| == 0 then [x]
    else if le(x, s[0]) then [x] + s
    else
      assert s == [s[0]] + s[1..];
      [s[0]] + Insert(x, s[1..], le)
  }

  /** Stable insertion sort: elements the order does not separate keep their input order. */
  function SortBy<T>(s: seq<T>, le: (T, T) -> bool): (r: seq<T>)
    ensures |r| == |s|
    ensures multiset(r) == multiset(s)
  {
    if |s| == 0 then []
    else
      assert s == [s[0]] + s[1..];
      Insert(s[0], SortBy(s[1..], le), le)
  }

  lemma {:induction false} InsertSorted<T(!new)>(x: T, s: seq<T>, le: (T, T) -> bool)
    requires TotalPreorder(le)
    requires SortedBy(s, le)
    ensures SortedBy(Insert(x, s, le), le)
  {
    if |s| > 0 && !le(x, s[0]) {
      InsertSorted(x, s[1..], le);
      var tail := Insert(x, s[1..], le);
      assert le(s[0], x);
      forall k | 0 <= k < |tail| ensures le(s[0], tail[k]) {
        assert tail[k] in multiset(tail);
        assert tail[k] == x || tail[k] in multiset(s[1..]);
        if tail[k] != x {
          var m :| 0 <= m < |s[1..]| && s[1..][m] == tail[k];
          assert s[m + 1] == tail[k];
        }
      }
    }
  }

  /** SortBy orders its result. */
  lemma {:induction false} SortBySorted<T(!new)>(s: seq<T>, le: (T, T) -> bool)
    requires TotalPreorder(le)
    ensures SortedBy(SortBy(s, le), le)
  {
    if |s| > 0 {
      SortBySorted(s[1..], le);
      InsertSorted(s[0], SortBy(s[1..], le), le);
    }
  }

  /** Under an antisymmetric total order, two ordered sequences with the same elements are equal. */
  lemma {:induction false} SortedUnique<T(!new)>(a: seq<T>, b: seq<T>, le: (T, T) -> bool)
    requires Total(le) && Antisymmetric(le)
    requires SortedBy(a, le) && SortedBy(b, le)
    requires multiset(a) == multiset(b)
    ensures a == b
    decreases |a|
  {
    assert |a| == |multiset(a)| == |b|;
    if |a| > 0 {
      FirstIsLeast(b, a[0], le);
      FirstIsLeast(a, b[0], le);
      assert a[0] == b[0];
      DropFirst(a);
      DropFirst(b);
      SortedUnique(a[1..], b[1..], le);
    }
  }

  /** In an ordered sequence the first element is `le` every element. */
  lemma FirstIsLeast<T(!new)>(s: seq<T>, x: T, le: (T, T) -> bool)
    requires SortedBy(s, le) && x in multiset(s)
    requires Total(le)
    ensures le(s[0], x)
  {
    var i :| 0 <= i < |s| && s[i] == x;
    if i > 0 { assert le(s[0], s[i]); } else { assert le(x, x) || le(x, x); }
  }

  lemma DropFirst<T>(s: seq<T>)
    requires |s| > 0
    ensures multiset(s[1..]) == multiset(s) - multiset{s[0]}
  {
    assert s == [s[0]] + s[1..];
  }

  /** Moving a middle part to the front keeps the multiset. */
  lemma MultisetMiddle<T>(a: seq<T>, b: seq<T>, c: seq<T>)
    ensures multiset(a + (b + c)) == multiset(b) + multiset(a + c)
  {
  }

  /** Removing the element at `i` takes exactly one copy of it out of the multiset. */
  lemma MultisetRemoveAt<T>(b: seq<T>, i: nat)
    requires i < |b|
    ensures multiset(b[..i] + b[i + 1..]) == multiset(b) - multiset{b[i]}
  {
    assert b == b[..i] + [b[i]] + b[i + 1..];
  }

  /** Where the first element of `a` sits in a permutation `b` of it; the rests are permutations too. */
  lemma IndexInPermutation<T>(a: seq<T>, b: seq<T>) returns (i: nat)
    requires 0 < |a| && multiset(a) == multiset(b)
    ensures i < |b| && b[i] == a[0]
    ensures multiset(a[1..]) == multiset(b[..i] + b[i + 1..])
  {
    assert a[0] in multiset(a);
    i :| 0 <= i < |b| && b[i] == a[0];
    assert a[..0] + a[1..] == a[1..];
    MultisetRemoveAt(b, i);
    MultisetRemoveAt(a, 0);
  }

  /** Sorting by an antisymmetric total order depends only on the multiset of the input. */
  lemma SortByPermutationInvariant<T(!new)>(a: seq<T>, b: seq<T>, le: (T, T) -> bool)
    requires TotalPreorder(le) && Antisymmetric(le)
    requires multiset(a) == multiset(b)
    ensures SortBy(a, le) == SortBy(b, le)
  {
    SortBySorted(a, le);
    SortBySorted(b, le);
    SortedUnique(SortBy(a, le), SortBy(b, le), le);
  }

  /** The elements of `s` that the order does not separate from `x`, in their order in `s`. */
  function Ties<T>(s: seq<T>, x: T, le: (T, T) -> bool): (r: seq<T>)
    ensures |r| <= |s|
  {
    if |s| == 0 then []
    else (if le(s[0], x) && le(x, s[0]) then [s[0]] else []) + Ties(s[1..], x, le)
  }

  lemma NotLeThrough<T(!new)>(a: T, b: T, c: T, le: (T, T) -> bool)
    requires Transitive(le)
    requires le(a, b) && !le(a, c)
    ensures !le(b, c)
  {
  }

  lemma {:induction false} InsertTies<T(!new)>(y: T, s: seq<T>, x: T, le: (T, T) -> bool)
    requires Transitive(le)
    ensures Ties(Insert(y, s, le), x, le) == (if le(y, x) && le(x, y) then [y] else []) + Ties(s, x, le)
  {
    if |s| > 0 && !le(y, s[0]) {
      InsertTies(y, s[1..], x, le);
      if le(y, x) {
        NotLeThrough(y, x, s[0], le);
      }
      var t := Ties(s[1..], x, le);
      var u := Insert(y, s[1..], le);
      var h0: seq<T> := if le(s[0], x) && le(x, s[0]) then [s[0]] else [];
      var hy: seq<T> := if le(y, x) && le(x, y) then [y] else [];
      assert Insert(y, s, le) == [s[0]] + u;
      TiesCons(s[0], u, x, le);
      assert s == [s[0]] + s[1..];
      TiesCons(s[0], s[1..], x, le);
      CommuteEmpty(h0, hy, t);
    }
  }

  lemma CommuteEmpty<T>(h0: seq<T>, hy: seq<T>, t: seq<T>)
    requires h0 == [] || hy == []
    ensures h0 + (hy + t) == hy + (h0 + t)
  {
    if h0 == [] {
      assert h0 + (hy + t) == hy + t;
    } else {
      assert hy + (h0 + t) == h0 + t;
    }
  }

  /** Putting `a` in front adds it to the ties exactly when it ties with `x`. */
  lemma TiesCons<T>(a: T, u: seq<T>, x: T, le: (T, T) -> bool)
    ensures Ties([a] + u, x, le) == (if le(a, x) && le(x, a) then [a] else []) + Ties(u, x, le)
  {
    assert ([a] + u)[1..] == u;
  }

  /**
   * SortBy is stable: the elements the order does not separate from any given
   * `x` come out in the order they went in.
   */
  lemma {:induction false} SortByStable<T(!new)>(s: seq<T>, x: T, le: (T, T) -> bool)
    requires TotalPreorder(le)
    ensures Ties(SortBy(s, le), x, le) == Ties(s, x, le)
  {
    if |s| > 0 {
      SortByStable(s[1..], x, le);
      InsertTies(s[0], SortBy(s[1..], le), x, le);
    }
  }
}
