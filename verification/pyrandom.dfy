/** Python's `random` module as the nodes use it. `random.seed(seed)` fixes a
    stream of draws; the model takes that stream as `rng: nat -> nat` and a
    counter of the draws made so far. A draw below a bound `b` is `rng(k) % b`.
    `choice`, `sample` and `shuffle` consume draws in the order CPython's
    implementations do; the numeric values of the Mersenne Twister are not
    modelled, only which draw feeds which decision. */
module PyRandom {

  /** `random.choice(xs)` made with draw number `k`. */
  function Choice<T>(xs: seq<T>, rng: nat -> nat, k: nat): (x: T)
    requires |xs| > 0
    ensures x in xs
  {
    xs[rng(k) % |xs|]
  }

  // ------------------------------------------------------------------ sample

  /** The pool after its slot `j` is refilled with its last element and the
      last slot is dropped: `pool[j] = pool[n - i - 1]` in CPython's `sample`. */
  function Refill(pool: seq<nat>, j: nat): (r: seq<nat>)
    requires j < |pool|
    ensures |r| == |pool| - 1
  {
    pool[j := pool[|pool| - 1]][..|pool| - 1]
  }

  /** Positions picked by CPython's pool algorithm for `random.sample`:
      draw `c` picks slot `rng(c) % |pool|` of the remaining pool. */
  function SampleFrom(pool: seq<nat>, k: nat, rng: nat -> nat, c: nat): (r: seq<nat>)
    requires k <= |pool|
    ensures |r| == k
    decreases k
  {
    if k == 0 then []
    else
      var j := rng(c) % |pool|;
      [pool[j]] + SampleFrom(Refill(pool, j), k - 1, rng, c + 1)
  }

  function Range(n: nat): (r: seq<nat>)
    ensures |r| == n && forall i | 0 <= i < n :: r[i] == i
  {
    if n == 0 then [] else Range(n - 1) + [n - 1]
  }

  /** The positions `random.sample(population, k)` takes from a population of
      size `n`, starting at draw `c`. */
  function SamplePositions(n: nat, k: nat, rng: nat -> nat, c: nat): seq<nat>
    requires k <= n
  {
    SampleFrom(Range(n), k, rng, c)
  }

  predicate Distinct(s: seq<nat>) {
    forall i, j | 0 <= i < j < |s| :: s[i] != s[j]
  }

  /** Refilling a pool of distinct entries removes exactly the picked entry. */
  lemma RefillRemoves(pool: seq<nat>, j: nat)
    requires j < |pool| && Distinct(pool)
    ensures Distinct(Refill(pool, j))
    ensures forall x :: x in Refill(pool, j) <==> x in pool && x != pool[j]
  {
    var r := Refill(pool, j);
    var last := |pool| - 1;
    forall x ensures x in r <==> x in pool && x != pool[j] {
      if x in pool && x != pool[j] {
        var i :| 0 <= i < |pool| && pool[i] == x;
        if i == last {
          assert r[j] == x;
        } else {
          assert r[i] == x;
        }
      }
    }
  }

  /** The pool algorithm picks distinct entries of a pool of distinct entries. */
  lemma {:induction false} SampleFromDistinct(pool: seq<nat>, k: nat, rng: nat -> nat, c: nat)
    requires k <= |pool| && Distinct(pool)
    ensures Distinct(SampleFrom(pool, k, rng, c))
    ensures forall x | x in SampleFrom(pool, k, rng, c) :: x in pool
    decreases k
  {
    if k > 0 {
      var j := rng(c) % |pool|;
      var rest := SampleFrom(Refill(pool, j), k - 1, rng, c + 1);
      RefillRemoves(pool, j);
      SampleFromDistinct(Refill(pool, j), k - 1, rng, c + 1);
      var r := SampleFrom(pool, k, rng, c);
      assert r == [pool[j]] + rest;
      forall a, b | 0 <= a < b < |r| ensures r[a] != r[b] {
        if a == 0 {
          assert r[b] == rest[b - 1] && r[b] in Refill(pool, j);
        } else {
          assert r[a] == rest[a - 1] && r[b] == rest[b - 1];
        }
      }
    }
  }

  /** `random.sample` takes `k` distinct positions of the population. */
  lemma SamplePositionsValid(n: nat, k: nat, rng: nat -> nat, c: nat)
    requires k <= n
    ensures |SamplePositions(n, k, rng, c)| == k
    ensures Distinct(SamplePositions(n, k, rng, c))
    ensures forall i | 0 <= i < k :: SamplePositions(n, k, rng, c)[i] < n
  {
    SampleFromDistinct(Range(n), k, rng, c);
    var ps := SamplePositions(n, k, rng, c);
    forall i | 0 <= i < k ensures ps[i] < n {
      assert ps[i] in Range(n);
    }
  }

  /** `random.sample(population, k)` with its first draw at `c`. */
  function Sample<T>(population: seq<T>, k: nat, rng: nat -> nat, c: nat): (r: seq<T>)
    requires k <= |population|
    ensures |r| == k
    ensures forall x | x in r :: x in population
  {
    var ps := SamplePositions(|population|, k, rng, c);
    SamplePositionsValid(|population|, k, rng, c);
    seq(k, i requires 0 <= i < k => population[ps[i]])
  }

  /** What `Sample` returns is read at distinct positions of the population. */
  lemma SampleAtDistinctPositions<T>(population: seq<T>, k: nat, rng: nat -> nat, c: nat)
    requires k <= |population|
    ensures var ps := SamplePositions(|population|, k, rng, c);
      && |ps| == k && Distinct(ps)
      && forall i | 0 <= i < k :: ps[i] < |population| && Sample(population, k, rng, c)[i] == population[ps[i]]
  {
    SamplePositionsValid(|population|, k, rng, c);
  }

  /** `random.sample(xs, 1)[0]` uses one draw, the same one `random.choice(xs)`
      would, and picks the same element. */
  lemma SampleOneIsChoice<T>(xs: seq<T>, rng: nat -> nat, k: nat)
    requires |xs| > 0
    ensures Sample(xs, 1, rng, k)[0] == Choice(xs, rng, k)
  {
    var ps := SamplePositions(|xs|, 1, rng, k);
    assert ps == [Range(|xs|)[rng(k) % |xs|]] + SampleFrom(Refill(Range(|xs|), rng(k) % |xs|), 0, rng, k + 1);
    SampleAtDistinctPositions(xs, 1, rng, k);
  }

  // ----------------------------------------------------------------- shuffle

  function Swap<T>(s: seq<T>, i: nat, j: nat): (r: seq<T>)
    requires i < |s| && j < |s|
    ensures |r| == |s|
  {
    s[i := s[j]][j := s[i]]
  }

  /** Swapping two slots only permutes. */
  lemma SwapPermutes<T>(s: seq<T>, i: nat, j: nat)
    requires i < |s| && j < |s|
    ensures multiset(Swap(s, i, j)) == multiset(s)
  {
  }

  /** The steps of CPython's `shuffle` still to do when the loop is at index
      `i` and `c` draws have been made: swap slot `i` with slot
      `rng(c) % (i + 1)`, then continue at `i - 1`, down to index 1. */
  function ShuffleFrom<T>(s: seq<T>, i: nat, rng: nat -> nat, c: nat): (r: seq<T>)
    requires i < |s|
    ensures |r| == |s|
    decreases i
  {
    if i == 0 then s else ShuffleFrom(Swap(s, i, rng(c) % (i + 1)), i - 1, rng, c + 1)
  }

  /** `random.shuffle(x)` applied to a list `s`, after `random.seed`. */
  function Shuffled<T>(s: seq<T>, rng: nat -> nat): seq<T> {
    if |s| <= 1 then s else ShuffleFrom(s, |s| - 1, rng, 0)
  }

  /** Shuffling only permutes. */
  lemma {:induction false} ShuffleFromPermutes<T>(s: seq<T>, i: nat, rng: nat -> nat, c: nat)
    requires i < |s|
    ensures multiset(ShuffleFrom(s, i, rng, c)) == multiset(s)
    decreases i
  {
    if i > 0 {
      var t := Swap(s, i, rng(c) % (i + 1));
      assert ShuffleFrom(s, i, rng, c) == ShuffleFrom(t, i - 1, rng, c + 1);
      ShuffleFromPermutes(t, i - 1, rng, c + 1);
      SwapPermutes(s, i, rng(c) % (i + 1));
    }
  }

  lemma ShuffledPermutes<T>(s: seq<T>, rng: nat -> nat)
    ensures |Shuffled(s, rng)| == |s| && multiset(Shuffled(s, rng)) == multiset(s)
  {
    if |s| > 1 {
      ShuffleFromPermutes(s, |s| - 1, rng, 0);
    }
  }

  /** One step of the loop: swap slot `i` with the drawn slot. */
  lemma ShuffleStep<T>(s: seq<T>, i: nat, rng: nat -> nat, c: nat)
    requires 0 < i < |s|
    ensures ShuffleFrom(s, i, rng, c) == ShuffleFrom(Swap(s, i, rng(c) % (i + 1)), i - 1, rng, c + 1)
  {
  }

  /** `random.shuffle(a)`: CPython's in-place Fisher-Yates loop. */
  method Shuffle<T>(a: array<T>, rng: nat -> nat)
    modifies a
    ensures a[..] == Shuffled(old(a[..]), rng)
  {
    if a.Length <= 1 {
      return;
    }
    ghost var s0 := a[..];
    var i := a.Length - 1;
    var c := 0;
    while i > 0
      invariant 0 <= i < a.Length
      invariant ShuffleFrom(a[..], i, rng, c) == ShuffleFrom(s0, a.Length - 1, rng, 0)
    {
      var j := rng(c) % (i + 1);
      ghost var before := a[..];
      ShuffleStep(before, i, rng, c);
      a[i], a[j] := a[j], a[i];
      assert a[..] == Swap(before, i, j);
      i, c := i - 1, c + 1;
    }
  }
}
