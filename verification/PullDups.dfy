/** The pull forms of Dup and Dedup (src/pushpull/dup.h, src/pushpull/dedup.h). */
module PullDups {
  import opened Options
  import opened Counting
  import opened Maps
  import opened Pullers
  import opened Dedups

  /** The pull of the upstream that answers pull n of a Dup. */
  function Origin(num: int, n: nat): nat {
    if num >= 1 then n / num else 0
  }

  /** Replays each answer of its upstream, values and nothings alike. */
  class DupPull<T> {
    const upstream: Upstream<T>
    const numDups: int
    var numDupsSent: int
    var buf: Option<T>
    ghost var answers: seq<Option<T>>

    /** With fewer than one copy the counter never comes round again, so the first answer is
        replayed for ever. */
    ghost predicate Valid()
      reads this, upstream
    {
      && (if answers == [] then upstream.pulls == 0 && numDupsSent == 0
          else
            && upstream.pulls >= 1 && numDupsSent >= 1
            && buf == upstream.answer(upstream.pulls - 1)
            && (numDups >= 1 ==> numDupsSent <= numDups)
            && |answers| == (if numDups >= 1 then (upstream.pulls - 1) * numDups else 0) + numDupsSent
            && (numDups < 1 ==> upstream.pulls == 1))
      && (forall n :: 0 <= n < |answers| ==> answers[n] == upstream.answer(Origin(numDups, n)))
    }

    constructor (upstream: Upstream<T>, numDups: int)
      requires upstream.pulls == 0
      ensures Valid() && answers == [] && this.upstream == upstream && this.numDups == numDups
    {
      this.upstream, this.numDups := upstream, numDups;
      numDupsSent, buf, answers := 0, None, [];
    }

    method Pull() returns (x: Option<T>)
      requires Valid()
      modifies this, upstream
      ensures Valid() && answers == old(answers) + [x]
      ensures x == upstream.answer(Origin(numDups, |old(answers)|))
    {
      OriginStep(numDups, |answers|, upstream.pulls, numDupsSent);
      if numDupsSent == numDups {
        numDupsSent := 0;
      }
      if numDupsSent == 0 {
        buf := upstream.Pull();
      }
      numDupsSent := numDupsSent + 1;
      answers := answers + [buf];
      x := buf;
    }
  }

  lemma OriginStep(num: int, n: nat, pulls: nat, sent: int)
    requires n == 0 ==> pulls == 0 && sent == 0
    requires n > 0 ==> pulls >= 1 && sent >= 1
    requires n > 0 && num >= 1 ==> sent <= num && n == (pulls - 1) * num + sent
    requires n > 0 && num < 1 ==> pulls == 1 && n == sent
    ensures Origin(num, n) == if n == 0 || (num >= 1 && sent == num) then pulls else pulls - 1
    ensures num >= 1 && (n == 0 || sent == num) ==> n == pulls * num
  {
    if num >= 1 {
      if n == 0 || sent == num {
        assert n > 0 ==> (pulls - 1) * num + num == pulls * num;
        DivModUnique(n, num, pulls, 0);
      } else {
        DivModUnique(n, num, pulls - 1, sent);
      }
    }
  }

  /** What a Dedup answers to each of a sequence of upstream answers. */
  function Answers<T(==)>(num: int, input: seq<Option<T>>): seq<Option<T>> {
    if input == [] then []
    else
      var n := |input| - 1;
      Answers(num, input[..n]) + [if Counter(num, Count(input, input[n])) == 0 then input[n] else None]
  }

  /** Counts nothings like values. */
  class DedupPull<T(==, !new)> {
    const numDups: int
    var counts: map<Option<T>, nat>
    ghost var input: seq<Option<T>>
    ghost var answers: seq<Option<T>>

    ghost predicate Valid()
      reads this
    {
      Tallied(numDups, counts, input) && answers == Answers(numDups, input)
    }

    constructor (numDups: int)
      ensures Valid() && input == [] && answers == [] && this.numDups == numDups
    {
      this.numDups := numDups;
      counts, input, answers := map[], [], [];
    }

    /** A pull to which the upstream, whatever it is, has answered x. */
    method Pull(x: Option<T>) returns (y: Option<T>)
      requires Valid()
      modifies this
      ensures Valid() && input == old(input) + [x] && answers == old(answers) + [y]
      ensures y == if Counter(numDups, Count(input, x)) == 0 then x else None
    {
      counts := counts[x := Lookup(counts, x, 0) + 1];
      if counts[x] == numDups {
        counts := counts[x := 0];
        y := x;
      } else {
        y := None;
      }
      TalliedStep(numDups, old(counts), counts, input, x);
      AnswersStep(numDups, input, x);
      input := input + [x];
      assert Lookup(counts, x, 0) == Counter(numDups, Count(input, x));
      answers := answers + [y];
    }
  }

  lemma AnswersStep<T>(num: int, input: seq<Option<T>>, x: Option<T>)
    ensures Answers(num, input + [x]) ==
              Answers(num, input) + [if Counter(num, Count(input + [x], x)) == 0 then x else None]
  {
    assert (input + [x])[..|input|] == input;
  }

  function Present<T>(answers: seq<Option<T>>): seq<T> {
    if answers == [] then []
    else if answers[|answers| - 1].Some? then Present(answers[..|answers| - 1]) + [answers[|answers| - 1].value]
    else Present(answers[..|answers| - 1])
  }

  lemma PresentStep<T>(xs: seq<Option<T>>, x: Option<T>)
    ensures Present(xs + [x]) == if x.Some? then Present(xs) + [x.value] else Present(xs)
  {
    assert (xs + [x])[..|xs|] == xs;
  }

  /** The values it answers with are those that the push form would pass on. */
  lemma {:induction false} AnswersArePassed<T>(num: int, input: seq<Option<T>>)
    ensures Present(Answers(num, input)) == Present(Passed(num, input))
  {
    if input != [] {
      var n := |input| - 1;
      var x := input[n];
      AnswersArePassed(num, input[..n]);
      PresentStep(Answers(num, input[..n]), if Counter(num, Count(input, x)) == 0 then x else None);
      PresentStep(Passed(num, input[..n]), x);
    }
  }

  /** The first k answers of an upstream. */
  function First<T>(answer: nat -> Option<T>, k: nat): (xs: seq<Option<T>>)
    ensures |xs| == k
  {
    seq(k, i requires 0 <= i => answer(i))
  }

  /** k upstream answers, each replayed `num` times. */
  lemma {:induction false} ReplayedIsDuplicated<T>(answer: nat -> Option<T>, num: nat, k: nat, xs: seq<Option<T>>)
    requires num >= 1 && |xs| == k * num
    requires forall n: nat :: n < |xs| ==> xs[n] == answer(Origin(num, n))
    ensures xs == Duplicated(num, First(answer, k))
  {
    if k > 0 {
      var m := OneLess(k, num);
      var head, tail := xs[..m], xs[m..];
      ReplayedIsDuplicated(answer, num, k - 1, head);
      OneReplayed(answer, num, k - 1, m, tail, num);
      DuplicatedStep(answer, num, k);
      assert xs == head + tail;
    }
  }

  lemma OneLess(k: nat, num: nat) returns (m: nat)
    requires k > 0
    ensures m == (k - 1) * num && k * num == m + num
  {
    m := (k - 1) * num;
  }

  lemma DuplicatedStep<T>(answer: nat -> Option<T>, num: nat, k: nat)
    requires k > 0
    ensures Duplicated(num, First(answer, k)) == Duplicated(num, First(answer, k - 1)) + Repeat(answer(k - 1), num)
  {
    assert First(answer, k)[..k - 1] == First(answer, k - 1);
  }

  lemma {:induction false} OneReplayed<T>(
      answer: nat -> Option<T>, num: nat, k: nat, base: nat, xs: seq<Option<T>>, m: nat)
    requires |xs| == m <= num && base == k * num
    requires forall j: nat :: j < m ==> xs[j] == answer(Origin(num, base + j))
    ensures xs == Repeat(answer(k), m)
  {
    if m > 0 {
      OneReplayed(answer, num, k, base, xs[..m - 1], m - 1);
      DivModUnique(base + (m - 1), num, k, m - 1);
      assert xs == xs[..m - 1] + [xs[m - 1]];
    }
  }

  lemma {:induction false} FirstPresent<T>(answer: nat -> Option<T>, k: nat)
    ensures Present(First(answer, k)) == Values(answer, k)
  {
    if k > 0 {
      FirstPresent(answer, k - 1);
      assert First(answer, k)[..k - 1] == First(answer, k - 1);
    }
  }

  /** The values of the upstream that n pulls bring through: those of its first n / num answers,
      and none when there is less than one copy. */
  function Through<T>(answer: nat -> Option<T>, num: int, n: nat): seq<T> {
    if num >= 1 then Values(answer, n / num) else []
  }

  ghost predicate Replays<T>(answer: nat -> Option<T>, num: int, from: nat, xs: seq<Option<T>>) {
    forall n: nat :: n < |xs| ==> xs[n] == answer(Origin(num, from + n))
  }

  lemma SplitReplay<T>(answer: nat -> Option<T>, num: int, xs: seq<Option<T>>, ys: seq<Option<T>>)
    requires Replays(answer, num, 0, xs + ys)
    ensures Replays(answer, num, 0, xs) && Replays(answer, num, |xs|, ys)
  {
    forall n: nat | n < |xs| ensures xs[n] == answer(Origin(num, n)) {
      assert (xs + ys)[n] == answer(Origin(num, 0 + n));
    }
    forall n: nat | n < |ys| ensures ys[n] == answer(Origin(num, |xs| + n)) {
      assert (xs + ys)[|xs| + n] == answer(Origin(num, 0 + (|xs| + n)));
    }
  }

  /** Whole groups of `num` pulls. */
  lemma WholeGroups<T>(answer: nat -> Option<T>, num: nat, k: nat, xs: seq<Option<T>>, x: Option<T>)
    requires num >= 1 && |xs| == k * num && Replays(answer, num, 0, xs)
    ensures Passed(num, xs) == First(answer, k)
    ensures Counter(num, Count(xs, x)) == 0
  {
    assert forall n: nat :: n < |xs| ==> xs[n] == answer(Origin(num, 0 + n));
    ReplayedIsDuplicated(answer, num, k, xs);
    DedupInvertsDup(num, First(answer, k));
    DuplicatedIsBalanced(num, First(answer, k), x);
  }

  /** A group that is not complete passes nothing. */
  lemma PartialGroup<T>(num: nat, xs: seq<Option<T>>, x: Option<T>, ys: seq<Option<T>>)
    requires num >= 1 && |ys| < num && Counter(num, Count(xs, x)) == 0 && ys == Repeat(x, |ys|)
    ensures Passed(num, xs + ys) == Passed(num, xs)
  {
    PassedRepeat(num, xs, x, |ys|);
  }

  lemma GroupsAndMore<T>(answer: nat -> Option<T>, num: nat, k: nat, xs: seq<Option<T>>, ys: seq<Option<T>>)
    requires num >= 1 && |xs| == k * num && |ys| < num && Replays(answer, num, 0, xs + ys)
    ensures Passed(num, xs + ys) == First(answer, k)
  {
    SplitReplay(answer, num, xs, ys);
    WholeGroups(answer, num, k, xs, answer(k));
    OneReplayed(answer, num, k, |xs|, ys, |ys|);
    PartialGroup(num, xs, answer(k), ys);
  }

  lemma {:induction false} NothingPasses<T>(num: int, xs: seq<T>)
    requires num < 1
    ensures Passed(num, xs) == []
  {
    if xs != [] {
      NothingPasses(num, xs[..|xs| - 1]);
      CounterIsRemainder(num, Count(xs, xs[|xs| - 1]));
    }
  }

  /** n pulls of a Dup, handed to a Dedup of the same number. */
  lemma PullRoundTrip<T>(answer: nat -> Option<T>, num: int, xs: seq<Option<T>>)
    requires Replays(answer, num, 0, xs)
    ensures Present(Answers(num, xs)) == Through(answer, num, |xs|)
  {
    AnswersArePassed(num, xs);
    if num >= 1 {
      var k, m := Groups(|xs|, num);
      assert xs == xs[..m] + xs[m..];
      GroupsAndMore(answer, num, k, xs[..m], xs[m..]);
      FirstPresent(answer, k);
    } else {
      NothingPasses(num, xs);
    }
  }

  lemma Groups(n: nat, num: nat) returns (k: nat, m: nat)
    requires num >= 1
    ensures k == n / num && m == k * num && m <= n < m + num
  {
    k := n / num;
    m := k * num;
  }

  /** A Dup and a Dedup of the same number, chained: n pulls bring through exactly the values
      of the first n / num answers of the upstream, in order; with less than one copy,
      nothing. */
  method PullThrough<T(==, !new)>(answer: nat -> Option<T>, num: int, n: nat) returns (ys: seq<Option<T>>)
    ensures |ys| == n && Present(ys) == Through(answer, num, n)
  {
    var upstream := new Upstream<T>(answer);
    var dup := new DupPull<T>(upstream, num);
    var dedup := new DedupPull<T>(num);
    ys := [];
    for i := 0 to n
      invariant fresh(dedup) && fresh(dup) && fresh(upstream)
      invariant Chained(dup, dedup) && dup.upstream == upstream && dup.numDups == num && upstream.answer == answer
      invariant ys == dedup.answers && |ys| == i
    {
      var y := PullBoth(dup, dedup);
      ys := ys + [y];
    }
    PullRoundTrip(answer, num, dup.answers);
  }

  ghost predicate Chained<T(!new)>(dup: DupPull<T>, dedup: DedupPull<T>)
    reads dup, dup.upstream, dedup
  {
    && dup.Valid() && dedup.Valid() && dup.numDups == dedup.numDups
    && dedup.input == dup.answers && |dedup.answers| == |dup.answers|
  }

  method PullBoth<T(==, !new)>(dup: DupPull<T>, dedup: DedupPull<T>) returns (y: Option<T>)
    requires Chained(dup, dedup)
    modifies dup, dup.upstream, dedup
    ensures Chained(dup, dedup) && dedup.answers == old(dedup.answers) + [y]
  {
    var x := dup.Pull();
    y := dedup.Pull(x);
  }
}
