/**
 * The parts of Python's `random` module the load-test scripts use. The random
 * source is a parameter: a sequence of draws, one per call of the generator.
 */
module PyRandom {
  import opened Wrappers

  /** The i-th draw; a source that has run dry hands out 0. */
  function DrawAt(draws: seq<nat>, i: nat): nat {
    if i < |draws| then draws[i] else 0
  }

  /** `random.randint(lo, hi)` fed with draw `d`: a value in the closed range. */
  function RandInt(lo: int, hi: int, d: nat): (r: int)
    requires lo <= hi
    ensures lo <= r <= hi
  {
    lo + d % (hi - lo + 1)
  }

  predicate Distinct<T(==)>(s: seq<T>) {
    forall i, j :: 0 <= i < j < |s| ==> s[i] != s[j]
  }

  /**
   * `random.sample(population, k)` by CPython's pool algorithm: step i picks
   * `j = randbelow(n - i)` (here the i-th draw modulo n - i), emits `pool[j]`
   * and moves the last live element into its place. Asking for more than the
   * population holds raises ValueError.
   */
  method Sample<T(==)>(population: seq<T>, k: nat, draws: seq<nat>) returns (r: Result<seq<T>, string>)
    ensures r.Failure? <==> k > |population|
    ensures r.Success? ==> |r.value| == k && multiset(r.value) <= multiset(population)
  {
    var n := |population|;
    if k > n {
      return Failure("Sample larger than population or is negative");
    }
    var pool := population;
    var result: seq<T> := [];
    var i := 0;
    assert pool[..n] == population;
    while i < k
      invariant 0 <= i <= k
      invariant |pool| == n && |result| == i
      invariant multiset(pool[..n - i]) + multiset(result) == multiset(population)
    {
      var picked;
      pool, picked := TakeFromPool(pool, n - i, DrawAt(draws, i) % (n - i));
      result := result + [picked];
      i := i + 1;
    }
    assert pool[..n - k] + [] == pool[..n - k];
    r := Success(result);
  }

  /** One step of the pool algorithm: emit the live element at `j` and move the last live element into its slot. */
  method TakeFromPool<T>(pool: seq<T>, live: nat, j: nat) returns (pool': seq<T>, picked: T)
    requires j < live <= |pool|
    ensures |pool'| == |pool| && picked == pool[j]
    ensures multiset(pool'[..live - 1]) + multiset{picked} == multiset(pool[..live])
  {
    picked := pool[j];
    pool' := pool[j := pool[live - 1]];
    assert pool'[..live - 1] == pool[..live][j := pool[..live][live - 1]][..live - 1];
    LiveShrinks(pool[..live], j, pool'[..live - 1]);
  }

  /** Moving the last live element into slot j drops exactly the element that was there. */
  lemma LiveShrinks<T>(live: seq<T>, j: nat, after: seq<T>)
    requires j < |live|
    requires after == live[j := live[|live| - 1]][..|live| - 1]
    ensures multiset(after) + multiset{live[j]} == multiset(live)
  {
    var m := |live| - 1;
    assert live == live[..m] + [live[m]];
    if j < m {
      assert after == live[..m][j := live[m]];
      assert live[..m] == live[..j] + [live[j]] + live[j + 1..m];
      assert after == live[..j] + [live[m]] + live[j + 1..m];
    } else {
      assert after == live[..m];
    }
  }

  lemma {:induction false} DistinctCountsAtMostOne<T>(s: seq<T>, x: T)
    requires Distinct(s)
    ensures multiset(s)[x] <= 1
  {
    if |s| > 0 {
      assert s == [s[0]] + s[1..];
      DistinctCountsAtMostOne(s[1..], x);
      if x == s[0] {
        assert x !in s[1..];
      }
    }
  }

  /** Drawing without replacement from a population of distinct values gives distinct values. */
  lemma SubMultisetOfDistinct<T>(population: seq<T>, r: seq<T>)
    requires Distinct(population)
    requires multiset(r) <= multiset(population)
    ensures Distinct(r)
  {
    forall i, j | 0 <= i < j < |r| ensures r[i] != r[j] {
      if r[i] == r[j] {
        var x := r[i];
        assert r == r[..j] + [r[j]] + r[j + 1..];
        assert x in r[..j];
        assert multiset(r)[x] >= 2;
        DistinctCountsAtMostOne(population, x);
      }
    }
  }
}
