/** How often a value occurs in a sequence, and sequences of one value. */
module Counting {

  function Count<T(==)>(xs: seq<T>, x: T): nat {
    if xs == [] then 0
    else Count(xs[..|xs| - 1], x) + (if xs[|xs| - 1] == x then 1 else 0)
  }

  lemma {:induction false} CountConcat<T>(xs: seq<T>, ys: seq<T>, x: T)
    ensures Count(xs + ys, x) == Count(xs, x) + Count(ys, x)
  {
    if ys == [] {
      assert xs + ys == xs;
    } else {
      CountConcat(xs, ys[..|ys| - 1], x);
      assert (xs + ys)[..|xs + ys| - 1] == xs + ys[..|ys| - 1];
    }
  }

  lemma CountFirst<T>(xs: seq<T>, n: nat, x: T)
    requires n < |xs|
    ensures Count(xs[n..], x) == Count(xs[n + 1..], x) + (if xs[n] == x then 1 else 0)
  {
    assert xs[n..] == [xs[n]] + xs[n + 1..];
    assert [xs[n]][..0] == [];
    CountConcat([xs[n]], xs[n + 1..], x);
  }

  lemma CountLast<T>(xs: seq<T>, y: T, x: T)
    ensures Count(xs + [y], x) == Count(xs, x) + (if y == x then 1 else 0)
  {
    assert (xs + [y])[..|xs|] == xs;
  }

  function Repeat<T>(x: T, n: int): (xs: seq<T>)
    ensures |xs| == (if n <= 0 then 0 else n) && forall i :: 0 <= i < |xs| ==> xs[i] == x
  {
    if n <= 0 then [] else Repeat(x, n - 1) + [x]
  }
}
