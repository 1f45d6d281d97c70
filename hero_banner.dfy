/**
  The home page carousel: one current index over the hero movies, moved by
  the previous/next arrows, the indicator dots and a five-second timer that
  exists only when there are at least two movies.
 */
module HeroBanner {

  /** `(i + 1) % n`; the index is never negative, so JavaScript's `%` agrees with Dafny's. */
  function NextIndex(i: nat, n: nat): (r: nat)
    requires n > 0
    ensures r < n
    ensures i < n ==> r == if i == n - 1 then 0 else i + 1
  {
    (i + 1) % n
  }

  /** `i === 0 ? n - 1 : i - 1` */
  function PrevIndex(i: nat, n: nat): (r: nat)
    requires 0 < n && i < n
    ensures r < n
  {
    if i == 0 then n - 1 else i - 1
  }

  /** Previous is next run backwards, and both are a step of one modulo n. */
  lemma PrevNextInverse(i: nat, n: nat)
    requires 0 < n && i < n
    ensures PrevIndex(NextIndex(i, n), n) == i
    ensures NextIndex(PrevIndex(i, n), n) == i
    ensures PrevIndex(i, n) == (i + n - 1) % n
  {
  }

  /** k presses of next from i. */
  function Advance(i: nat, n: nat, k: nat): (r: nat)
    requires n > 0
    decreases k
  {
    if k == 0 then i else NextIndex(Advance(i, n, k - 1), n)
  }

  /** Within one lap, k presses move the index k places. */
  lemma {:induction false} AdvanceWithin(i: nat, n: nat, k: nat)
    requires i + k < n
    ensures Advance(i, n, k) == i + k
    decreases k
  {
    if k > 0 {
      AdvanceWithin(i, n, k - 1);
    }
  }

  /** Pressing a then b times is pressing a + b times. */
  lemma {:induction false} AdvanceSplit(i: nat, n: nat, a: nat, b: nat)
    requires n > 0
    ensures Advance(i, n, a + b) == Advance(Advance(i, n, a), n, b)
    decreases b
  {
    if b > 0 {
      AdvanceSplit(i, n, a, b - 1);
    }
  }

  /** From the last slide, one press wraps to the first. */
  lemma Wrap(i: nat, n: nat)
    requires 0 < n && i < n
    ensures Advance(i, n, n - i) == 0
  {
    AdvanceWithin(i, n, n - i - 1);
    assert Advance(i, n, n - i) == NextIndex(Advance(i, n, n - i - 1), n);
  }

  /** n presses of next bring the carousel back where it started, and no fewer do. */
  lemma FullCycle(i: nat, n: nat)
    requires 0 < n && i < n
    ensures Advance(i, n, n) == i
    ensures forall k :: 0 < k < n ==> Advance(i, n, k) != i
  {
    Wrap(i, n);
    AdvanceSplit(i, n, n - i, i);
    AdvanceWithin(0, n, i);
    forall k | 0 < k < n ensures Advance(i, n, k) != i {
      if i + k < n {
        AdvanceWithin(i, n, k);
      } else {
        AdvanceSplit(i, n, n - i, i + k - n);
        AdvanceWithin(0, n, i + k - n);
      }
    }
  }

  /** The timer is installed only for two or more movies. */
  predicate AutoRotates(movieCount: nat) {
    movieCount > 1
  }

  /** No movies or no hero data: the placeholder is shown instead of the slides. */
  predicate ShowsSkeleton(movieCount: nat, dataCount: nat) {
    movieCount == 0 || dataCount == 0
  }

  class Banner {
    const movieCount: nat
    const dataCount: nat
    var index: nat

    /** The index names a slide whenever there are slides. */
    predicate Valid()
      reads this
    {
      movieCount > 0 ==> index < movieCount
    }

    constructor(movieCount: nat, dataCount: nat)
      ensures this.movieCount == movieCount && this.dataCount == dataCount && index == 0 && Valid()
    {
      this.movieCount := movieCount;
      this.dataCount := dataCount;
      index := 0;
    }

    /** A dot of the indicator; one dot per movie. */
    method GoTo(i: nat)
      requires i < movieCount
      modifies this
      ensures index == i && Valid()
    {
      index := i;
    }

    /** The left arrow, present only when slides are shown. */
    method Prev()
      requires Valid() && !ShowsSkeleton(movieCount, dataCount)
      modifies this
      ensures index == PrevIndex(old(index), movieCount) && Valid()
    {
      index := if index == 0 then movieCount - 1 else index - 1;
    }

    /** The right arrow, present only when slides are shown. */
    method Next()
      requires Valid() && !ShowsSkeleton(movieCount, dataCount)
      modifies this
      ensures index == NextIndex(old(index), movieCount) && Valid()
    {
      index := (index + 1) % movieCount;
    }

    /** One tick of the five-second timer. */
    method Tick()
      requires Valid() && AutoRotates(movieCount)
      modifies this
      ensures index == NextIndex(old(index), movieCount) && Valid()
    {
      index := (index + 1) % movieCount;
    }
  }
}
