/** The relations that the join operators compute, as sequences in the order of the nested
    loops: what it means to be an equijoin, a cross product, a selection. */
module Relations {
  import opened Options

  /** The pairs of `l` with the elements of `rs` that have its key. */
  function Matches<K(==), L, R>(keyLeft: L -> K, keyRight: R -> K, l: L, rs: seq<R>): seq<(L, R)> {
    if rs == [] then []
    else (if keyLeft(l) == keyRight(rs[0]) then [(l, rs[0])] else []) + Matches(keyLeft, keyRight, l, rs[1..])
  }

  function Equijoin<K(==), L, R>(keyLeft: L -> K, keyRight: R -> K, ls: seq<L>, rs: seq<R>): seq<(L, R)> {
    if ls == [] then []
    else Matches(keyLeft, keyRight, ls[0], rs) + Equijoin(keyLeft, keyRight, ls[1..], rs)
  }

  function PairsWith<L, R>(l: L, rs: seq<R>): seq<(L, R)> {
    if rs == [] then [] else [(l, rs[0])] + PairsWith(l, rs[1..])
  }

  function Product<L, R>(ls: seq<L>, rs: seq<R>): seq<(L, R)> {
    if ls == [] then [] else PairsWith(ls[0], rs) + Product(ls[1..], rs)
  }

  function Select<T>(keep: T -> bool, xs: seq<T>): seq<T> {
    if xs == [] then [] else (if keep(xs[0]) then [xs[0]] else []) + Select(keep, xs[1..])
  }

  function EqualKeys<K(==), L, R>(keyLeft: L -> K, keyRight: R -> K): ((L, R)) -> bool {
    (p: (L, R)) => keyLeft(p.0) == keyRight(p.1)
  }

  lemma Assoc<T>(a: seq<T>, b: seq<T>, c: seq<T>)
    ensures (a + b) + c == a + (b + c)
  {
  }

  lemma {:induction false} SelectConcat<T>(keep: T -> bool, xs: seq<T>, ys: seq<T>)
    ensures Select(keep, xs + ys) == Select(keep, xs) + Select(keep, ys)
  {
    if xs == [] {
      assert xs + ys == ys;
    } else {
      SelectConcat(keep, xs[1..], ys);
      assert (xs + ys)[0] == xs[0] && (xs + ys)[1..] == xs[1..] + ys;
      Assoc(if keep(xs[0]) then [xs[0]] else [], Select(keep, xs[1..]), Select(keep, ys));
    }
  }

  lemma {:induction false} SelectPairs<K, L, R>(keyLeft: L -> K, keyRight: R -> K, l: L, rs: seq<R>)
    ensures Select(EqualKeys(keyLeft, keyRight), PairsWith(l, rs)) == Matches(keyLeft, keyRight, l, rs)
  {
    if rs != [] {
      SelectPairs(keyLeft, keyRight, l, rs[1..]);
      assert PairsWith(l, rs)[1..] == PairsWith(l, rs[1..]);
    }
  }

  /** An equijoin is a selection on a product, tuple for tuple and in the same order. */
  lemma {:induction false} EquijoinIsSelection<K, L, R>(keyLeft: L -> K, keyRight: R -> K, ls: seq<L>, rs: seq<R>)
    ensures Select(EqualKeys(keyLeft, keyRight), Product(ls, rs)) == Equijoin(keyLeft, keyRight, ls, rs)
  {
    if ls != [] {
      SelectPairs(keyLeft, keyRight, ls[0], rs);
      EquijoinIsSelection(keyLeft, keyRight, ls[1..], rs);
      SelectConcat(EqualKeys(keyLeft, keyRight), PairsWith(ls[0], rs), Product(ls[1..], rs));
    }
  }

  lemma {:induction false} PairsWithAt<L, R>(l: L, rs: seq<R>, j: nat)
    ensures |PairsWith(l, rs)| == |rs|
    ensures j < |rs| ==> PairsWith(l, rs)[j] == (l, rs[j])
  {
    if rs != [] { PairsWithAt(l, rs[1..], if j > 0 then j - 1 else 0); }
  }

  /** How many pairs stand before those of the n-th left value. */
  function Offset(n: nat, m: nat): nat {
    if n == 0 then 0 else m + Offset(n - 1, m)
  }

  lemma {:induction false} OffsetIs(n: nat, m: nat)
    ensures Offset(n, m) == n * m
  {
    if n > 0 { OffsetIs(n - 1, m); }
  }

  lemma {:induction false} ProductLength<L, R>(ls: seq<L>, rs: seq<R>)
    ensures |Product(ls, rs)| == Offset(|ls|, |rs|)
  {
    if ls != [] {
      PairsWithAt(ls[0], rs, 0);
      ProductLength(ls[1..], rs);
    }
  }

  lemma InSecond<T>(a: seq<T>, b: seq<T>, k: nat)
    requires k < |b|
    ensures (a + b)[|a| + k] == b[k]
  {
  }

  lemma {:induction false} ProductOffsets<L, R>(ls: seq<L>, rs: seq<R>, i: nat, j: nat)
    requires i < |ls| && j < |rs|
    ensures Offset(i, |rs|) + j < |Product(ls, rs)| && Product(ls, rs)[Offset(i, |rs|) + j] == (ls[i], rs[j])
  {
    var first, rest := PairsWith(ls[0], rs), Product(ls[1..], rs);
    PairsWithAt(ls[0], rs, j);
    if i > 0 {
      ProductOffsets(ls[1..], rs, i - 1, j);
      InSecond(first, rest, Offset(i - 1, |rs|) + j);
    }
  }

  /** The product runs through the right values once for each left value. */
  lemma ProductAt<L, R>(ls: seq<L>, rs: seq<R>, i: nat, j: nat)
    ensures |Product(ls, rs)| == |ls| * |rs|
    ensures i < |ls| && j < |rs| ==>
              i * |rs| + j < |Product(ls, rs)| && Product(ls, rs)[i * |rs| + j] == (ls[i], rs[j])
  {
    ProductLength(ls, rs);
    if i < |ls| && j < |rs| { ProductOffsets(ls, rs, i, j); }
    OffsetIs(|ls|, |rs|);
    OffsetIs(i, |rs|);
  }

  lemma CountHead<T>(xs: seq<T>, x: T)
    requires xs != []
    ensures multiset(xs)[x] == (if xs[0] == x then 1 else 0) + multiset(xs[1..])[x]
  {
    assert xs == [xs[0]] + xs[1..];
  }

  lemma CountBoth<T>(xs: seq<T>, ys: seq<T>, x: T)
    ensures multiset(xs + ys)[x] == multiset(xs)[x] + multiset(ys)[x]
  {
  }

  lemma {:induction false} MatchesCount<K, L, R>(keyLeft: L -> K, keyRight: R -> K, l: L, rs: seq<R>, p: (L, R))
    ensures multiset(Matches(keyLeft, keyRight, l, rs))[p] ==
              if p.0 == l && keyLeft(l) == keyRight(p.1) then multiset(rs)[p.1] else 0
  {
    if rs != [] {
      MatchesCount(keyLeft, keyRight, l, rs[1..], p);
      CountHead(rs, p.1);
      CountBoth(if keyLeft(l) == keyRight(rs[0]) then [(l, rs[0])] else [], Matches(keyLeft, keyRight, l, rs[1..]), p);
    }
  }

  lemma DistributeOne(n: nat, m: nat, c: nat)
    requires c == 0 || c == 1
    ensures (c + n) * m == (if c == 1 then m else 0) + n * m
  {
  }

  /** Each pair of equal keys occurs once for every combination of occurrences of its two
      halves, and no other pair occurs. */
  lemma {:induction false} EquijoinCount<K, L, R>(keyLeft: L -> K, keyRight: R -> K, ls: seq<L>, rs: seq<R>, p: (L, R))
    ensures multiset(Equijoin(keyLeft, keyRight, ls, rs))[p] ==
              if keyLeft(p.0) == keyRight(p.1) then multiset(ls)[p.0] * multiset(rs)[p.1] else 0
  {
    if ls != [] {
      var first, rest := Matches(keyLeft, keyRight, ls[0], rs), Equijoin(keyLeft, keyRight, ls[1..], rs);
      MatchesCount(keyLeft, keyRight, ls[0], rs, p);
      EquijoinCount(keyLeft, keyRight, ls[1..], rs, p);
      CountBoth(first, rest, p);
      CountHead(ls, p.0);
      DistributeOne(multiset(ls[1..])[p.0], multiset(rs)[p.1], if ls[0] == p.0 then 1 else 0);
    }
  }

  // ------------------------------------------------ what a stream of calls observes

  datatype Call = CallNext | CallReset

  /** What the calls see of an operator whose full output is `full`, `pos` of it already
      delivered: one result per `next`, empty for ever after the end, all over again after
      a reset. */
  function Observed<T>(full: seq<T>, pos: nat, calls: seq<Call>): seq<Option<T>>
    decreases |calls|
  {
    if calls == [] then []
    else match calls[0]
      case CallReset => Observed(full, 0, calls[1..])
      case CallNext =>
        if pos < |full| then [Some(full[pos])] + Observed(full, pos + 1, calls[1..])
        else [None] + Observed(full, pos, calls[1..])
  }

  /** One call, at the position the operator has reached. */
  lemma ObservedStep<T>(full: seq<T>, pos: nat, calls: seq<Call>, i: nat)
    requires i < |calls| && pos <= |full|
    ensures calls[i].CallReset? ==> Observed(full, pos, calls[i..]) == Observed(full, 0, calls[i + 1..])
    ensures calls[i].CallNext? && full[pos..] == [] ==>
              Observed(full, pos, calls[i..]) == [None] + Observed(full, pos, calls[i + 1..])
    ensures calls[i].CallNext? && full[pos..] != [] ==>
              pos < |full| && full[pos..][1..] == full[pos + 1..]
              && Observed(full, pos, calls[i..]) == [Some(full[pos..][0])] + Observed(full, pos + 1, calls[i + 1..])
  {
    assert calls[i..][1..] == calls[i + 1..];
  }
}
