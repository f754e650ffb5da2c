/**
 * The outcome records the two load-test scripts collect, and `analyze_results`:
 * a group-by on the concurrency level with min, max, mean, median and count of
 * the response times, plus the success rate per level. pandas' group-by sorts
 * its keys ascending and drops rows whose key is missing.
 */
module LoadAnalysis {
  import opened Wrappers
  import Sorting

  /** One timed operation. `concurrentUsers` is absent until the phase loop tags it. */
  datatype Outcome = Outcome(
    success: bool,
    responseTime: nat,
    userId: string,
    numAnswers: Option<nat>,
    error: Option<string>,
    concurrentUsers: Option<nat>)

  /** One row of the statistics table. */
  datatype LevelStats = LevelStats(level: nat, min: nat, max: nat, mean: real, median: real, count: nat)

  function NatLe(a: nat, b: nat): bool { a <= b }

  lemma NatLeIsLinear()
    ensures Sorting.TotalPreorder(NatLe) && Sorting.Antisymmetric(NatLe)
  {
  }

  /** Keeps, in order, the images of the elements `f` maps to a value. */
  function FilterMap<T, U>(s: seq<T>, f: T -> Option<U>): (r: seq<U>)
    ensures |r| <= |s|
  {
    if |s| == 0 then []
    else
      var rest := FilterMap(s[1..], f);
      match f(s[0])
      case Some(y) => [y] + rest
      case None => rest
  }

  lemma {:induction false} FilterMapAppend<T, U>(a: seq<T>, b: seq<T>, f: T -> Option<U>)
    ensures FilterMap(a + b, f) == FilterMap(a, f) + FilterMap(b, f)
  {
    if |a| > 0 {
      assert (a + b)[1..] == a[1..] + b;
      FilterMapAppend(a[1..], b, f);
    } else {
      assert a + b == b;
    }
  }

  /** Every output value is the image of some input element. */
  lemma {:induction false} FilterMapSource<T, U>(s: seq<T>, f: T -> Option<U>, y: U)
    requires y in FilterMap(s, f)
    ensures exists x :: x in s && f(x) == Some(y)
  {
    if f(s[0]) == Some(y) {
      assert s[0] in s;
    } else {
      FilterMapSource(s[1..], f, y);
      var x :| x in s[1..] && f(x) == Some(y);
      assert x in s;
    }
  }

  /** Taking one element out of the input takes its image out of the output. */
  lemma FilterMapRemove<T, U>(b: seq<T>, i: nat, f: T -> Option<U>)
    requires i < |b|
    ensures multiset(FilterMap(b, f)) == multiset(FilterMap([b[i]], f)) + multiset(FilterMap(b[..i] + b[i + 1..], f))
  {
    var pre, mid, post := b[..i], [b[i]], b[i + 1..];
    assert b == pre + (mid + post);
    FilterMapAppend(pre, mid + post, f);
    FilterMapAppend(mid, post, f);
    FilterMapAppend(pre, post, f);
    var fp, fm, fq := FilterMap(pre, f), FilterMap(mid, f), FilterMap(post, f);
    assert FilterMap(b, f) == fp + (fm + fq);
    assert FilterMap(pre + post, f) == fp + fq;
    Sorting.MultisetMiddle(fp, fm, fq);
  }

  /** FilterMap only sees the multiset of its input, up to order. */
  lemma {:induction false} FilterMapPermutation<T, U>(a: seq<T>, b: seq<T>, f: T -> Option<U>)
    requires multiset(a) == multiset(b)
    ensures multiset(FilterMap(a, f)) == multiset(FilterMap(b, f))
    decreases |a|
  {
    if |a| > 0 {
      var i := Sorting.IndexInPermutation(a, b);
      FilterMapPermutation(a[1..], b[..i] + b[i + 1..], f);
      FilterMapPermutationStep(a, b, i, f);
    } else {
      assert b == [];
    }
  }

  /** Matching the first element of `a` with an equal element of `b` extends a permutation of the rests. */
  lemma FilterMapPermutationStep<T, U>(a: seq<T>, b: seq<T>, i: nat, f: T -> Option<U>)
    requires 0 < |a| && i < |b| && b[i] == a[0]
    requires multiset(FilterMap(a[1..], f)) == multiset(FilterMap(b[..i] + b[i + 1..], f))
    ensures multiset(FilterMap(a, f)) == multiset(FilterMap(b, f))
  {
    assert a[..0] + a[1..] == a[1..];
    FilterMapRemove(a, 0, f);
    FilterMapRemove(b, i, f);
  }

  /** The concatenation of a sequence of sequences: a phase's stored batches, or a run's phase results. */
  function Flatten<T>(bs: seq<seq<T>>): seq<T> {
    if |bs| == 0 then [] else Flatten(bs[..|bs| - 1]) + bs[|bs| - 1]
  }

  function LevelOf(o: Outcome): Option<nat> { o.concurrentUsers }

  /** The level tag of each outcome, in order. */
  function TagsOf(rs: seq<Outcome>): seq<Option<nat>> {
    seq(|rs|, i requires 0 <= i < |rs| => rs[i].concurrentUsers)
  }

  /** The response times of the outcomes tagged with `level`, in input order. */
  function Latencies(rs: seq<Outcome>, level: nat): seq<nat> {
    FilterMap(rs, (o: Outcome) => if o.concurrentUsers == Some(level) then Some(o.responseTime) else None)
  }

  /** The success flags of the outcomes tagged with `level`, in input order. */
  function Successes(rs: seq<Outcome>, level: nat): seq<bool> {
    FilterMap(rs, (o: Outcome) => if o.concurrentUsers == Some(level) then Some(o.success) else None)
  }

  /** Drops adjacent repeats. */
  function Dedup(s: seq<nat>): (r: seq<nat>)
    ensures forall x :: x in r <==> x in s
    ensures |s| > 0 ==> |r| > 0 && r[0] == s[0]
  {
    if |s| <= 1 then s
    else if s[0] == s[1] then Dedup(s[1..])
    else
      assert forall x :: x in s <==> x == s[0] || x in s[1..];
      [s[0]] + Dedup(s[1..])
  }

  predicate StrictlyIncreasing(s: seq<nat>) {
    forall i, j :: 0 <= i < j < |s| ==> s[i] < s[j]
  }

  lemma {:induction false} DedupOfSorted(s: seq<nat>)
    requires Sorting.SortedBy(s, NatLe)
    ensures StrictlyIncreasing(Dedup(s))
  {
    if |s| > 1 {
      DedupOfSorted(s[1..]);
      var d := Dedup(s[1..]);
      if s[0] != s[1] {
        assert forall k :: 0 <= k < |d| ==> d[k] in s[1..];
        forall k | 0 <= k < |d| ensures s[0] < d[k] {
          var x := d[k];
          var m :| 0 <= m < |s[1..]| && s[1..][m] == x;
          assert NatLe(s[0], s[m + 1]);
          assert NatLe(s[0], s[1]);
        }
      }
    }
  }

  /** The distinct tagged levels, ascending: the group keys. */
  function Levels(rs: seq<Outcome>): seq<nat> {
    Dedup(Sorting.SortBy(FilterMap(rs, LevelOf), NatLe))
  }

  function Sum(s: seq<nat>): nat {
    if |s| == 0 then 0 else s[0] + Sum(s[1..])
  }

  lemma {:induction false} SumAppend(a: seq<nat>, b: seq<nat>)
    ensures Sum(a + b) == Sum(a) + Sum(b)
  {
    if |a| > 0 {
      assert (a + b)[1..] == a[1..] + b;
      SumAppend(a[1..], b);
    } else {
      assert a + b == b;
    }
  }

  /** The total of a sample does not depend on the order of its values. */
  lemma {:induction false} SumPermutation(a: seq<nat>, b: seq<nat>)
    requires multiset(a) == multiset(b)
    ensures Sum(a) == Sum(b)
  {
    if |a| > 0 {
      var i := Sorting.IndexInPermutation(a, b);
      SumPermutation(a[1..], b[..i] + b[i + 1..]);
      assert b == b[..i] + ([b[i]] + b[i + 1..]);
      SumAppend(b[..i], [b[i]] + b[i + 1..]);
      SumAppend(b[..i], b[i + 1..]);
      assert ([b[i]] + b[i + 1..])[1..] == b[i + 1..];
    } else {
      assert b == [];
    }
  }

  lemma {:induction false} SumBounds(s: seq<nat>, lo: nat, hi: nat)
    requires forall i :: 0 <= i < |s| ==> lo <= s[i] <= hi
    ensures |s| * lo <= Sum(s) <= |s| * hi
  {
    if |s| > 0 {
      SumBounds(s[1..], lo, hi);
      MulSucc(|s| - 1, lo);
      MulSucc(|s| - 1, hi);
    }
  }

  lemma MulSucc(n: nat, x: nat)
    ensures (n + 1) * x == n * x + x
  {
  }

  /** The middle value of a sorted sample, or the average of the two middle values. */
  function Median(sorted: seq<nat>): real
    requires |sorted| > 0
  {
    var n := |sorted|;
    if n % 2 == 1 then sorted[n / 2] as real
    else (sorted[n / 2 - 1] + sorted[n / 2]) as real / 2.0
  }

  /** A sorted sample lies between its first and last elements. */
  lemma SortedBetweenEnds(s: seq<nat>)
    requires |s| > 0 && Sorting.SortedBy(s, NatLe)
    ensures forall i :: 0 <= i < |s| ==> s[0] <= s[i] <= s[|s| - 1]
  {
    forall i | 0 <= i < |s| ensures s[0] <= s[i] <= s[|s| - 1] {
      if 0 < i { assert NatLe(s[0], s[i]); }
      if i < |s| - 1 { assert NatLe(s[i], s[|s| - 1]); }
    }
  }

  lemma MeanBetween(sum: nat, n: nat, lo: nat, hi: nat)
    requires n > 0 && n * lo <= sum <= n * hi
    ensures lo as real <= sum as real / n as real <= hi as real
  {
    assert n as real * lo as real <= sum as real <= n as real * hi as real;
  }

  lemma MedianBetween(s: seq<nat>)
    requires |s| > 0
    requires forall i :: 0 <= i < |s| ==> s[0] <= s[i] <= s[|s| - 1]
    ensures s[0] as real <= Median(s) <= s[|s| - 1] as real
  {
  }

  /** The statistics of one group, computed on its sorted response times. */
  function StatsOf(level: nat, xs: seq<nat>): (r: LevelStats)
    requires |xs| > 0
    ensures r.level == level && r.count == |xs|
    ensures r.min in xs && r.max in xs
    ensures forall x :: x in xs ==> r.min <= x <= r.max
    ensures r.min as real <= r.median <= r.max as real
    ensures r.min as real <= r.mean <= r.max as real
    ensures r.mean == Sum(xs) as real / |xs| as real
    ensures r.median == Median(Sorting.SortBy(xs, NatLe))
  {
    var s := Sorting.SortBy(xs, NatLe);
    var n := |s|;
    var lo := s[0];
    var hi := s[n - 1];
    SampleSummary(xs);
    SumPermutation(s, xs);
    LevelStats(level, lo, hi, Sum(s) as real / n as real, Median(s), n)
  }

  /** Minimum, maximum, mean and median of a non-empty sample, read off its sorted copy. */
  lemma SampleSummary(xs: seq<nat>)
    requires |xs| > 0
    ensures var s := Sorting.SortBy(xs, NatLe);
      && s[0] in xs && s[|s| - 1] in xs
      && (forall x :: x in xs ==> s[0] <= x <= s[|s| - 1])
      && s[0] as real <= Median(s) <= s[|s| - 1] as real
      && s[0] as real <= Sum(s) as real / |s| as real <= s[|s| - 1] as real
  {
    var s := Sorting.SortBy(xs, NatLe);
    SortedSampleFacts(xs);
    SumBounds(s, s[0], s[|s| - 1]);
    MeanBetween(Sum(s), |s|, s[0], s[|s| - 1]);
    MedianBetween(s);
  }

  lemma SortedSampleFacts(xs: seq<nat>)
    requires |xs| > 0
    ensures var s := Sorting.SortBy(xs, NatLe);
      && s[0] in xs && s[|s| - 1] in xs
      && (forall i :: 0 <= i < |s| ==> s[0] <= s[i] <= s[|s| - 1])
      && (forall x :: x in xs ==> s[0] <= x <= s[|s| - 1])
  {
    var s := Sorting.SortBy(xs, NatLe);
    assert Sorting.SortedBy(s, NatLe) by {
      NatLeIsLinear();
      Sorting.SortBySorted(xs, NatLe);
    }
    SortedBetweenEnds(s);
    SameElements(s, xs);
  }

  lemma SameElements(s: seq<nat>, xs: seq<nat>)
    requires multiset(s) == multiset(xs)
    ensures forall x :: x in s <==> x in xs
  {
    forall x ensures x in s <==> x in xs {
      assert x in s <==> x in multiset(s);
      assert x in xs <==> x in multiset(xs);
    }
  }

  /**
   * `analyze_results`: one row per distinct tagged level, ascending, holding
   * the statistics of the response times tagged with that level.
   */
  function Analyze(rs: seq<Outcome>): (r: seq<LevelStats>)
    ensures |r| == |Levels(rs)|
    ensures forall k :: 0 <= k < |r| ==> r[k].level == Levels(rs)[k]
    ensures forall k :: 0 <= k < |r| ==> r[k].count == |Latencies(rs, r[k].level)| > 0
    ensures forall k :: 0 <= k < |r| ==>
      |Latencies(rs, Levels(rs)[k])| > 0 && r[k] == StatsOf(Levels(rs)[k], Latencies(rs, Levels(rs)[k]))
  {
    var levels := Levels(rs);
    seq(|levels|, k requires 0 <= k < |levels| =>
      LatenciesNonEmpty(rs, levels[k]);
      StatsOf(levels[k], Latencies(rs, levels[k])))
  }

  /**
   * `analyze_results` up to the statistics table. pandas gives the frame a
   * `concurrent_users` column only when some result carries that key, so
   * with no tagged result (in particular with no result at all) the
   * `groupby` raises a KeyError; otherwise the table is that of `Analyze`.
   */
  function AnalyzeResults(rs: seq<Outcome>): (r: Result<seq<LevelStats>, string>)
    ensures r.Failure? <==> forall o :: o in rs ==> o.concurrentUsers.None?
    ensures r.Failure? ==> r.error == NO_LEVEL_COLUMN
    ensures r.Success? ==> |r.value| > 0 && r.value == Analyze(rs)
  {
    LevelsAreTheTaggedLevels(rs);
    if forall o | o in rs :: o.concurrentUsers.None? then
      Failure(NO_LEVEL_COLUMN)
    else
      var o :| o in rs && o.concurrentUsers.Some?;
      assert o.concurrentUsers.value in Levels(rs);
      Success(Analyze(rs))
  }

  /** The error `groupby` raises for a frame without the level column. */
  const NO_LEVEL_COLUMN := "KeyError: 'concurrent_users'"

  /** Every group key has at least one row. */
  lemma LatenciesNonEmpty(rs: seq<Outcome>, level: nat)
    requires level in Levels(rs)
    ensures |Latencies(rs, level)| > 0
  {
    var tagged := FilterMap(rs, LevelOf);
    LevelsKeepTagged(tagged, level);
    FilterMapSource(rs, LevelOf, level);
    var o :| o in rs && LevelOf(o) == Some(level);
    var i :| 0 <= i < |rs| && rs[i] == o;
    var f := (o: Outcome) => if o.concurrentUsers == Some(level) then Some(o.responseTime) else None;
    FilterMapHit(rs, i, f);
  }

  /** The group keys are ascending and are exactly the levels some outcome carries. */
  lemma LevelsAreTheTaggedLevels(rs: seq<Outcome>)
    ensures StrictlyIncreasing(Levels(rs))
    ensures forall l :: l in Levels(rs) <==> exists o :: o in rs && o.concurrentUsers == Some(l)
  {
    var tagged := FilterMap(rs, LevelOf);
    NatLeIsLinear();
    Sorting.SortBySorted(tagged, NatLe);
    DedupOfSorted(Sorting.SortBy(tagged, NatLe));
    forall l ensures l in Levels(rs) <==> exists o :: o in rs && o.concurrentUsers == Some(l) {
      LevelsKeepTagged(tagged, l);
      if l in tagged {
        FilterMapSource(rs, LevelOf, l);
      }
      if o :| o in rs && o.concurrentUsers == Some(l) {
        var i :| 0 <= i < |rs| && rs[i] == o;
        FilterMapHit(rs, i, LevelOf);
      }
    }
  }

  /** Sorting and dropping repeats keeps exactly the values there were. */
  lemma LevelsKeepTagged(tagged: seq<nat>, l: nat)
    ensures l in Dedup(Sorting.SortBy(tagged, NatLe)) <==> l in tagged
  {
    var sorted := Sorting.SortBy(tagged, NatLe);
    assert l in sorted <==> l in multiset(sorted);
    assert l in tagged <==> l in multiset(tagged);
  }

  /** An element that `f` maps to a value contributes that value. */
  lemma FilterMapHit<T, U>(s: seq<T>, i: nat, f: T -> Option<U>)
    requires i < |s| && f(s[i]).Some?
    ensures f(s[i]).value in FilterMap(s, f)
  {
    assert s == s[..i] + [s[i]] + s[i + 1..];
    FilterMapAppend(s[..i] + [s[i]], s[i + 1..], f);
    FilterMapAppend(s[..i], [s[i]], f);
    assert FilterMap([s[i]], f) == [f(s[i]).value];
  }

  /**
   * The order in which outcomes complete does not matter: any reordering of
   * the results gives the same statistics table.
   */
  lemma AnalyzeOrderIndependent(a: seq<Outcome>, b: seq<Outcome>)
    requires multiset(a) == multiset(b)
    ensures Analyze(a) == Analyze(b)
  {
    LevelsOrderIndependent(a, b);
    var ra, rb := Analyze(a), Analyze(b);
    forall k | 0 <= k < |ra| ensures ra[k] == rb[k] {
      var l := Levels(a)[k];
      LatenciesNonEmpty(a, l);
      LatenciesOrderIndependent(a, b, l);
      StatsOfSeesSortedSample(l, Latencies(a, l), Latencies(b, l));
    }
  }

  lemma LevelsOrderIndependent(a: seq<Outcome>, b: seq<Outcome>)
    requires multiset(a) == multiset(b)
    ensures Levels(a) == Levels(b)
  {
    NatLeIsLinear();
    FilterMapPermutation(a, b, LevelOf);
    Sorting.SortByPermutationInvariant(FilterMap(a, LevelOf), FilterMap(b, LevelOf), NatLe);
  }

  lemma LatenciesOrderIndependent(a: seq<Outcome>, b: seq<Outcome>, l: nat)
    requires multiset(a) == multiset(b)
    ensures Sorting.SortBy(Latencies(a, l), NatLe) == Sorting.SortBy(Latencies(b, l), NatLe)
  {
    NatLeIsLinear();
    FilterMapPermutation(a, b, (o: Outcome) => if o.concurrentUsers == Some(l) then Some(o.responseTime) else None);
    Sorting.SortByPermutationInvariant(Latencies(a, l), Latencies(b, l), NatLe);
  }

  /** A group's statistics depend only on its sorted sample. */
  lemma StatsOfSeesSortedSample(level: nat, xs: seq<nat>, ys: seq<nat>)
    requires |xs| > 0
    requires Sorting.SortBy(xs, NatLe) == Sorting.SortBy(ys, NatLe)
    ensures |ys| > 0 && StatsOf(level, xs) == StatsOf(level, ys)
  {
    assert |Sorting.SortBy(ys, NatLe)| == |ys|;
  }

  function CountTrue(s: seq<bool>): (n: nat)
    ensures n <= |s|
  {
    if |s| == 0 then 0 else (if s[0] then 1 else 0) + CountTrue(s[1..])
  }

  /** The success rate of one level: the mean of its success flags. */
  function SuccessRate(rs: seq<Outcome>, level: nat): (r: real)
    requires |Successes(rs, level)| > 0
    ensures 0.0 <= r <= 1.0
    ensures r == 1.0 <==> false !in Successes(rs, level)
  {
    var s := Successes(rs, level);
    AllTrueIffCountIsLength(s);
    RatioBounds(CountTrue(s), |s|);
    CountTrue(s) as real / |s| as real
  }

  lemma RatioBounds(c: nat, n: nat)
    requires 0 < n && c <= n
    ensures 0.0 <= c as real / n as real <= 1.0
    ensures c as real / n as real == 1.0 <==> c == n
  {
  }

  lemma {:induction false} AllTrueIffCountIsLength(s: seq<bool>)
    ensures CountTrue(s) == |s| <==> false !in s
  {
    if |s| > 0 {
      AllTrueIffCountIsLength(s[1..]);
      assert s == [s[0]] + s[1..];
    }
  }
}
