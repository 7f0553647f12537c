/** Duplication and deduplication of a stream: src/pushpull/dup.h, src/pushpull/dedup.h and
    the erasing variant in src/click/dedup.h. */
module Dedups {
  import opened Counting
  import opened Maps

  /** A deduplicator's counter for a value after so many occurrences. */
  function Counter(num: int, occurrences: nat): nat {
    if occurrences == 0 then 0
    else
      var c := Counter(num, occurrences - 1) + 1;
      if c == num then 0 else c
  }

  /** What a deduplicator for `num` copies passes on of `input`. */
  function Passed<T(==)>(num: int, input: seq<T>): seq<T> {
    if input == [] then []
    else
      var n := |input| - 1;
      if Counter(num, Count(input, input[n])) == 0 then Passed(num, input[..n]) + [input[n]]
      else Passed(num, input[..n])
  }

  lemma ModStep(c: nat, n: nat)
    requires n >= 1
    ensures (c + 1) % n == if c % n + 1 == n then 0 else c % n + 1
    ensures (c + 1) / n == if c % n + 1 == n then c / n + 1 else c / n
  {
    var q, r := c / n, c % n;
    assert c == q * n + r;
    if r + 1 == n {
      assert c + 1 == (q + 1) * n;
      DivModUnique(c + 1, n, q + 1, 0);
    } else {
      DivModUnique(c + 1, n, q, r + 1);
    }
  }

  lemma DivModUnique(a: nat, n: nat, q: nat, r: nat)
    requires n >= 1 && r < n && a == q * n + r
    ensures a / n == q && a % n == r
  {
    var d := a / n - q;
    assert a == (a / n) * n + a % n;
    assert d * n == r - a % n;
    ScaledBound(d, n);
  }

  lemma ScaledBound(d: int, n: int)
    requires n >= 1
    ensures d >= 1 ==> d * n >= n
    ensures d <= -1 ==> d * n <= -n
  {
  }

  /** The counter wraps at `num`, and never when num < 1. */
  lemma {:induction false} CounterIsRemainder(num: int, c: nat)
    ensures Counter(num, c) == if num >= 1 then c % num else c
  {
    if c > 0 {
      CounterIsRemainder(num, c - 1);
      if num >= 1 { ModStep(c - 1, num); }
    }
  }

  /** From zero the counter runs up to `num` and is zero again. */
  lemma {:induction false} CounterCycle(num: nat, c: nat, k: nat)
    requires 1 <= num && k <= num && Counter(num, c) == 0
    ensures Counter(num, c + k) == if k == num then 0 else k
  {
    if k > 0 { CounterCycle(num, c, k - 1); }
  }

  ghost predicate Tallied<T(!new)>(num: int, counts: map<T, nat>, input: seq<T>) {
    forall x :: Lookup(counts, x, 0) == Counter(num, Count(input, x))
  }

  /** What a push must do to the counters, and when it must pass the value on. */
  lemma TalliedStep<T(!new)>(num: int, counts: map<T, nat>, counts': map<T, nat>, input: seq<T>, x: T)
    requires Tallied(num, counts, input)
    requires forall y :: y != x ==> Lookup(counts', y, 0) == Lookup(counts, y, 0)
    requires Lookup(counts', x, 0) == if Lookup(counts, x, 0) + 1 == num then 0 else Lookup(counts, x, 0) + 1
    ensures Tallied(num, counts', input + [x])
    ensures Passed(num, input + [x]) ==
              if Lookup(counts', x, 0) == 0 then Passed(num, input) + [x] else Passed(num, input)
  {
    assert (input + [x])[..|input|] == input;
    forall y ensures Lookup(counts', y, 0) == Counter(num, Count(input + [x], y)) {
      CountLast(input, x, y);
      assert Lookup(counts, y, 0) == Counter(num, Count(input, y));
    }
  }

  // ------------------------------------------------------------------- the classes

  class Dedup<T(==, !new)> {
    const numDups: int
    var counts: map<T, nat>
    var emitted: seq<T>
    ghost var input: seq<T>

    ghost predicate Valid()
      reads this
    {
      && Tallied(numDups, counts, input)
      && emitted == Passed(numDups, input)
    }

    constructor (numDups: int)
      ensures Valid() && input == [] && emitted == [] && this.numDups == numDups
    {
      this.numDups := numDups;
      counts, emitted, input := map[], [], [];
    }

    method Push(x: T)
      requires Valid()
      modifies this
      ensures Valid() && input == old(input) + [x]
    {
      counts := counts[x := Lookup(counts, x, 0) + 1];
      if counts[x] == numDups {
        counts := counts[x := 0];
        emitted := emitted + [x];
      }
      TalliedStep(numDups, old(counts), counts, input, x);
      input := input + [x];
    }
  }

  /** The variant that drops a counter instead of resetting it. Its constructor asserts that
      there are at least two copies. */
  class ErasingDedup<T(==, !new)> {
    const numDups: int
    var counts: map<T, nat>
    var emitted: seq<T>
    ghost var input: seq<T>

    ghost predicate Valid()
      reads this
    {
      && numDups > 1
      && Tallied(numDups, counts, input)
      && (forall x :: x in counts ==> counts[x] > 0)
      && emitted == Passed(numDups, input)
    }

    constructor (numDups: int)
      requires numDups > 1
      ensures Valid() && input == [] && emitted == [] && this.numDups == numDups
    {
      this.numDups := numDups;
      counts, emitted, input := map[], [], [];
    }

    method Push(x: T)
      requires Valid()
      modifies this
      ensures Valid() && input == old(input) + [x]
    {
      if x !in counts {
        counts := counts[x := 1];
      } else {
        counts := counts[x := counts[x] + 1];
        if counts[x] == numDups {
          emitted := emitted + [x];
          counts := counts - {x};
        }
      }
      TalliedStep(numDups, old(counts), counts, input, x);
      input := input + [x];
    }
  }

  class Dup<T> {
    const numDups: int
    /** What has been pushed downstream. */
    var emitted: seq<T>
    ghost var input: seq<T>

    ghost predicate Valid()
      reads this
    {
      emitted == Duplicated(numDups, input)
    }

    constructor (numDups: int)
      ensures Valid() && input == [] && emitted == [] && this.numDups == numDups
    {
      this.numDups := numDups;
      emitted, input := [], [];
    }

    method Push(x: T)
      requires Valid()
      modifies this
      ensures Valid() && input == old(input) + [x] && emitted == old(emitted) + Repeat(x, numDups)
    {
      var i := 0;
      assert emitted + [] == emitted;
      while i < numDups
        invariant 0 <= i && (numDups >= 0 ==> i <= numDups) && (numDups < 0 ==> i == 0)
        invariant emitted == old(emitted) + Repeat(x, i) && input == old(input)
      {
        emitted := emitted + [x];
        i := i + 1;
        RepeatMore(old(emitted), x, i);
      }
      assert (input + [x])[..|input|] == input;
      input := input + [x];
    }
  }

  // -------------------------------------------------------------------- main results

  /** One more value is passed on exactly when its number, counted from one, is a multiple of
      `num`. */
  lemma PassedStep<T>(num: int, before: seq<T>, x: T)
    ensures Passed(num, before + [x]) ==
              if num >= 1 && (Count(before, x) + 1) % num == 0 then Passed(num, before) + [x]
              else Passed(num, before)
  {
    assert (before + [x])[..|before|] == before;
    CountLast(before, x, x);
    CounterIsRemainder(num, Count(before, x) + 1);
  }

  /** A value is passed on once for every `num` occurrences. */
  lemma {:induction false} PassedCount<T>(num: int, input: seq<T>, x: T)
    ensures Count(Passed(num, input), x) == if num >= 1 then Count(input, x) / num else 0
  {
    if input != [] {
      var rest, y := input[..|input| - 1], input[|input| - 1];
      PassedCount(num, rest, x);
      CountLast(Passed(num, rest), y, x);
      CounterIsRemainder(num, Count(input, y));
      if num >= 1 { ModStep(Count(rest, y), num); }
    }
  }

  /** What Dup sends on. */
  function Duplicated<T>(num: int, xs: seq<T>): seq<T> {
    if xs == [] then [] else Duplicated(num, xs[..|xs| - 1]) + Repeat(xs[|xs| - 1], num)
  }

  lemma {:induction false} CountRepeat<T>(x: T, n: nat, y: T)
    ensures Count(Repeat(x, n), y) == if x == y then n else 0
  {
    if n > 0 {
      CountRepeat(x, n - 1, y);
      CountLast(Repeat(x, n - 1), x, y);
    }
  }

  lemma PassedLast<T>(num: int, before: seq<T>, x: T)
    ensures Passed(num, before + [x]) ==
              if Counter(num, Count(before, x) + 1) == 0 then Passed(num, before) + [x] else Passed(num, before)
  {
    assert (before + [x])[..|before|] == before;
    CountLast(before, x, x);
  }

  lemma OneAtTheEnd<T>(before: seq<T>, more: seq<T>, x: T)
    ensures before + (more + [x]) == (before + more) + [x]
  {
  }

  lemma RepeatMore<T>(before: seq<T>, x: T, k: nat)
    requires k > 0
    ensures before + Repeat(x, k) == (before + Repeat(x, k - 1)) + [x]
  {
    OneAtTheEnd(before, Repeat(x, k - 1), x);
  }

  lemma RepeatCount<T>(before: seq<T>, x: T, k: nat)
    ensures Count(before + Repeat(x, k), x) == Count(before, x) + k
  {
    CountConcat(before, Repeat(x, k), x);
    CountRepeat(x, k, x);
  }

  lemma PassedAfter<T>(num: nat, earlier: seq<T>, x: T, c: nat, k: nat)
    requires 1 <= k <= num && Counter(num, c) == 0 && Count(earlier, x) == c + k - 1
    ensures Passed(num, earlier + [x]) ==
              if k == num then Passed(num, earlier) + [x] else Passed(num, earlier)
  {
    PassedLast(num, earlier, x);
    CounterCycle(num, c, k);
  }

  /** From a counter at zero, only the last of `num` equal values goes through. */
  lemma {:induction false} PassedRepeat<T>(num: nat, before: seq<T>, x: T, k: nat)
    requires 1 <= num && k <= num && Counter(num, Count(before, x)) == 0
    ensures Passed(num, before + Repeat(x, k)) ==
              if k == num then Passed(num, before) + [x] else Passed(num, before)
  {
    if k == 0 {
      assert before + [] == before;
    } else {
      PassedRepeat(num, before, x, k - 1);
      var earlier, all := before + Repeat(x, k - 1), before + Repeat(x, k);
      assert all == earlier + [x] && Count(earlier, x) == Count(before, x) + k - 1 by {
        RepeatMore(before, x, k);
        RepeatCount(before, x, k - 1);
      }
      PassedAfter(num, earlier, x, Count(before, x), k);
    }
  }

  lemma {:induction false} DuplicatedIsBalanced<T>(num: nat, xs: seq<T>, x: T)
    requires num >= 1
    ensures Counter(num, Count(Duplicated(num, xs), x)) == 0
  {
    if xs != [] {
      var n := |xs| - 1;
      DuplicatedIsBalanced(num, xs[..n], x);
      CountConcat(Duplicated(num, xs[..n]), Repeat(xs[n], num), x);
      CountRepeat(xs[n], num, x);
      CounterCycle(num, Count(Duplicated(num, xs[..n]), x), num);
    }
  }

  /** Duplicating and then deduplicating by the same number gives the stream back exactly
      when that number is at least one, or there is nothing to give back. */
  lemma {:induction false} DedupInvertsDup<T>(num: int, xs: seq<T>)
    ensures Passed(num, Duplicated(num, xs)) == xs <==> num >= 1 || xs == []
  {
    if num >= 1 {
      if xs != [] {
        var n := |xs| - 1;
        DedupInvertsDup(num, xs[..n]);
        DuplicatedIsBalanced(num, xs[..n], xs[n]);
        PassedRepeat(num, Duplicated(num, xs[..n]), xs[n], num);
      }
    } else {
      NothingDuplicated(num, xs);
    }
  }

  lemma {:induction false} NothingDuplicated<T>(num: int, xs: seq<T>)
    requires num < 1
    ensures Duplicated(num, xs) == []
  {
    if xs != [] { NothingDuplicated(num, xs[..|xs| - 1]); }
  }

  /** A whole stream through Dup into a fresh Dedup. */
  method RoundTrip<T(==, !new)>(num: int, xs: seq<T>) returns (ys: seq<T>)
    ensures ys == xs <==> num >= 1 || xs == []
    ensures num < 1 ==> ys == []
  {
    var dup := new Dup<T>(num);
    var dedup := new Dedup<T>(num);
    for i := 0 to |xs|
      invariant fresh(dup) && fresh(dedup)
      invariant dup.Valid() && dup.numDups == num && dup.input == xs[..i]
      invariant dedup.Valid() && dedup.numDups == num && dedup.input == dup.emitted
    {
      var before := |dup.emitted|;
      dup.Push(xs[i]);
      PushAll(dedup, dup.emitted[before..]);
      assert xs[..i] + [xs[i]] == xs[..i + 1];
    }
    assert xs[..|xs|] == xs;
    DedupInvertsDup(num, xs);
    if num < 1 { NothingDuplicated(num, xs); }
    ys := dedup.emitted;
  }

  method PushAll<T(==, !new)>(dedup: Dedup<T>, xs: seq<T>)
    requires dedup.Valid()
    modifies dedup
    ensures dedup.Valid() && dedup.input == old(dedup.input) + xs
  {
    for i := 0 to |xs|
      invariant dedup.Valid() && dedup.input == old(dedup.input) + xs[..i]
    {
      dedup.Push(xs[i]);
      assert xs[..i + 1] == xs[..i] + [xs[i]];
    }
    assert xs[..|xs|] == xs;
  }
}
