/** The pull operators of src/flow: iterators, the nested-loop product and equijoin, which
    run as coroutines, and filters. Each is proved to deliver the relation it stands for. */
module Operators {
  import opened Options
  import opened Relations

  class Iterator<T> {
    const xs: seq<T>
    var it: nat

    ghost predicate Valid()
      reads this
    {
      it <= |xs|
    }

    ghost function Remaining(): seq<T>
      requires Valid()
      reads this
    {
      xs[it..]
    }

    constructor (xs: seq<T>)
      ensures Valid() && this.xs == xs && it == 0
    {
      this.xs, it := xs, 0;
    }

    method Next() returns (o: Option<T>)
      requires Valid()
      modifies this
      ensures Valid()
      ensures old(Remaining()) == [] ==> o == None && it == old(it)
      ensures old(Remaining()) != [] ==>
                o == Some(old(Remaining())[0]) && Remaining() == old(Remaining())[1..] && it == old(it) + 1
    {
      if it != |xs| {
        o := Some(xs[it]);
        it := it + 1;
      } else {
        o := None;
      }
    }

    method Reset()
      modifies this
      ensures Valid() && Remaining() == xs && it == 0
    {
      it := 0;
    }
  }

  /** A coroutine runs ahead to its first `yield` when it is created and to the next one when
      its iterator is advanced. `current` is the tuple it is suspended on, None once it has
      returned; `l` is the outer loop's variable. */
  class NaiveEquijoin<K(==), L, R> {
    const left: Iterator<L>
    const right: Iterator<R>
    const keyLeft: L -> K
    const keyRight: R -> K
    var l: Option<L>
    var current: Option<(L, R)>

    ghost predicate Valid()
      reads this, left, right
    {
      left as object != right as object && left.Valid() && right.Valid() && (current.None? ==> l.None?)
    }

    /** What the suspended loops have still to yield after `current`. */
    ghost function Rest(): seq<(L, R)>
      requires left.Valid() && right.Valid()
      reads this, left, right
    {
      if l.None? then []
      else Matches(keyLeft, keyRight, l.value, right.Remaining())
           + Equijoin(keyLeft, keyRight, left.Remaining(), right.xs)
    }

    ghost function Remaining(): seq<(L, R)>
      requires Valid()
      reads this, left, right
    {
      (if current.Some? then [current.value] else []) + Rest()
    }

    ghost function Full(): seq<(L, R)> {
      Equijoin(keyLeft, keyRight, left.xs, right.xs)
    }

    constructor (left: Iterator<L>, right: Iterator<R>, keyLeft: L -> K, keyRight: R -> K)
      requires left as object != right as object
      modifies left, right
      ensures Valid() && Remaining() == Full()
      ensures this.left == left && this.right == right
      ensures this.keyLeft == keyLeft && this.keyRight == keyRight
    {
      this.left, this.right, this.keyLeft, this.keyRight := left, right, keyLeft, keyRight;
      l, current := None, None;
      new;
      Reset();
    }

    method Reset()
      requires left as object != right as object
      modifies this, left, right
      ensures Valid() && Remaining() == Full()
    {
      left.Reset();
      right.Reset();
      l := left.Next();
      RunToYield();
    }

    method Next() returns (o: Option<(L, R)>)
      requires Valid()
      modifies this, left, right
      ensures Valid()
      ensures old(Remaining()) == [] ==> o == None && Remaining() == []
      ensures old(Remaining()) != [] ==> o == Some(old(Remaining())[0]) && Remaining() == old(Remaining())[1..]
    {
      if current.Some? {
        o := current;
        RunToYield();
      } else {
        o := None;
      }
    }

    /** The outer loop, from its condition to the next yield or the end. */
    method RunToYield()
      requires left as object != right as object && left.Valid() && right.Valid()
      modifies this, left, right
      ensures Valid() && Remaining() == old(Rest())
    {
      ghost var rest := Rest();
      current := None;
      while l.Some?
        invariant left.Valid() && right.Valid() && current.None?
        invariant Rest() == rest
        decreases |left.xs| - left.it, if l.Some? then 1 else 0
      {
        ghost var lefts := Equijoin(keyLeft, keyRight, left.Remaining(), right.xs);
        InnerLoop();
        if current.Some? {
          assert [current.value] + (Matches(keyLeft, keyRight, l.value, right.Remaining()) + lefts) == rest;
          return;
        }
        right.Reset();
        l := left.Next();
      }
    }

    /** The inner loop: stops on a match, or when the right child is exhausted. */
    method InnerLoop()
      requires right.Valid() && l.Some? && current.None?
      modifies this`current, right
      ensures right.Valid()
      ensures Matches(keyLeft, keyRight, l.value, old(right.Remaining())) ==
                if current.None? then []
                else [current.value] + Matches(keyLeft, keyRight, l.value, right.Remaining())
    {
      ghost var matches := Matches(keyLeft, keyRight, l.value, right.Remaining());
      var r := right.Next();
      while r.Some?
        invariant right.Valid() && current.None?
        invariant matches == if r.None? then []
                             else Matches(keyLeft, keyRight, l.value, [r.value] + right.Remaining())
        decreases |right.xs| - right.it, if r.Some? then 1 else 0
      {
        assert ([r.value] + right.Remaining())[1..] == right.Remaining();
        if keyLeft(l.value) == keyRight(r.value) {
          current := Some((l.value, r.value));
          return;
        }
        r := right.Next();
      }
    }
  }

  class Cross<L, R> {
    const left: Iterator<L>
    const right: Iterator<R>
    var l: Option<L>
    var current: Option<(L, R)>

    ghost predicate Valid()
      reads this, left, right
    {
      left as object != right as object && left.Valid() && right.Valid() && (current.None? ==> l.None?)
    }

    ghost function Rest(): seq<(L, R)>
      requires left.Valid() && right.Valid()
      reads this, left, right
    {
      if l.None? then []
      else PairsWith(l.value, right.Remaining()) + Product(left.Remaining(), right.xs)
    }

    ghost function Remaining(): seq<(L, R)>
      requires Valid()
      reads this, left, right
    {
      (if current.Some? then [current.value] else []) + Rest()
    }

    ghost function Full(): seq<(L, R)> {
      Product(left.xs, right.xs)
    }

    constructor (left: Iterator<L>, right: Iterator<R>)
      requires left as object != right as object
      modifies left, right
      ensures Valid() && Remaining() == Full()
      ensures this.left == left && this.right == right
    {
      this.left, this.right := left, right;
      l, current := None, None;
      new;
      Reset();
    }

    method Reset()
      requires left as object != right as object
      modifies this, left, right
      ensures Valid() && Remaining() == Full()
    {
      left.Reset();
      right.Reset();
      l := left.Next();
      RunToYield();
    }

    method Next() returns (o: Option<(L, R)>)
      requires Valid()
      modifies this, left, right
      ensures Valid()
      ensures old(Remaining()) == [] ==> o == None && Remaining() == []
      ensures old(Remaining()) != [] ==> o == Some(old(Remaining())[0]) && Remaining() == old(Remaining())[1..]
    {
      if current.Some? {
        o := current;
        RunToYield();
      } else {
        o := None;
      }
    }

    method RunToYield()
      requires left as object != right as object && left.Valid() && right.Valid()
      modifies this, left, right
      ensures Valid() && Remaining() == old(Rest())
    {
      ghost var rest := Rest();
      current := None;
      while l.Some?
        invariant left.Valid() && right.Valid() && current.None?
        invariant Rest() == rest
        decreases |left.xs| - left.it, if l.Some? then 1 else 0
      {
        ghost var lefts := Product(left.Remaining(), right.xs);
        ghost var rights := right.Remaining();
        var r := right.Next();
        if r.Some? {
          current := Some((l.value, r.value));
          FirstPair(l.value, rights, lefts);
          return;
        }
        right.Reset();
        l := left.Next();
      }
    }
  }

  lemma FirstPair<L, R>(l: L, rights: seq<R>, lefts: seq<(L, R)>)
    requires rights != []
    ensures PairsWith(l, rights) + lefts == [(l, rights[0])] + (PairsWith(l, rights[1..]) + lefts)
  {
  }

  class Filter<L, R> {
    const child: Cross<L, R>
    const filter: ((L, R)) -> bool

    ghost predicate Valid()
      reads child, child.left, child.right
    {
      child.Valid()
    }

    ghost function Remaining(): seq<(L, R)>
      requires Valid()
      reads child, child.left, child.right
    {
      Select(filter, child.Remaining())
    }

    ghost function Full(): seq<(L, R)> {
      Select(filter, child.Full())
    }

    constructor (child: Cross<L, R>, filter: ((L, R)) -> bool)
      ensures this.child == child && this.filter == filter
    {
      this.child, this.filter := child, filter;
    }

    method Next() returns (x: Option<(L, R)>)
      requires Valid()
      modifies child, child.left, child.right
      ensures Valid()
      ensures old(Remaining()) == [] ==> x == None && Remaining() == []
      ensures old(Remaining()) != [] ==> x == Some(old(Remaining())[0]) && Remaining() == old(Remaining())[1..]
    {
      ghost var remaining := Remaining();
      x := child.Next();
      while x.Some?
        invariant Valid()
        invariant remaining == Select(filter, (if x.Some? then [x.value] else []) + child.Remaining())
        invariant x.None? ==> child.Remaining() == []
        decreases |child.Remaining()|, if x.Some? then 1 else 0
      {
        assert ([x.value] + child.Remaining())[1..] == child.Remaining();
        if filter(x.value) {
          return;
        }
        x := child.Next();
      }
    }

    method Reset()
      requires child.left as object != child.right as object
      modifies child, child.left, child.right
      ensures Valid() && Remaining() == Full()
    {
      child.Reset();
    }
  }

  method CallEquijoin<K, L, R>(join: NaiveEquijoin<K, L, R>, calls: seq<Call>, i: nat, ghost pos: nat)
    returns (seen: seq<Option<(L, R)>>, ghost pos': nat)
    requires i < |calls| && join.Valid() && pos <= |join.Full()| && join.Remaining() == join.Full()[pos..]
    modifies join, join.left, join.right
    ensures join.Valid() && pos' <= |join.Full()| && join.Remaining() == join.Full()[pos'..]
    ensures Observed(join.Full(), pos, calls[i..]) == seen + Observed(join.Full(), pos', calls[i + 1..])
  {
    ghost var full := join.Full();
    ObservedStep(full, pos, calls, i);
    match calls[i] {
      case CallReset =>
        join.Reset();
        seen, pos' := [], 0;
      case CallNext =>
        var o := join.Next();
        seen, pos' := [o], if full[pos..] == [] then pos else pos + 1;
    }
  }

  /** What any client of the operator sees, whatever calls it makes. */
  method ObserveEquijoin<K, L, R>(join: NaiveEquijoin<K, L, R>, calls: seq<Call>) returns (seen: seq<Option<(L, R)>>)
    requires join.Valid() && join.Remaining() == join.Full()
    modifies join, join.left, join.right
    ensures seen == Observed(join.Full(), 0, calls)
  {
    seen := [];
    ghost var full := join.Full();
    ghost var pos: nat := 0;
    for i := 0 to |calls|
      invariant join.Valid() && pos <= |full| && join.Remaining() == full[pos..]
      invariant Observed(full, 0, calls) == seen + Observed(full, pos, calls[i..])
    {
      var more;
      more, pos := CallEquijoin(join, calls, i, pos);
      seen := seen + more;
    }
  }

  method CallFilter<L, R>(filter: Filter<L, R>, calls: seq<Call>, i: nat, ghost pos: nat)
    returns (seen: seq<Option<(L, R)>>, ghost pos': nat)
    requires i < |calls| && filter.Valid() && pos <= |filter.Full()| && filter.Remaining() == filter.Full()[pos..]
    modifies filter.child, filter.child.left, filter.child.right
    ensures filter.Valid() && pos' <= |filter.Full()| && filter.Remaining() == filter.Full()[pos'..]
    ensures Observed(filter.Full(), pos, calls[i..]) == seen + Observed(filter.Full(), pos', calls[i + 1..])
  {
    ghost var full := filter.Full();
    ObservedStep(full, pos, calls, i);
    match calls[i] {
      case CallReset =>
        filter.Reset();
        seen, pos' := [], 0;
      case CallNext =>
        var o := filter.Next();
        seen, pos' := [o], if full[pos..] == [] then pos else pos + 1;
    }
  }

  /** What any client of the operator sees, whatever calls it makes. */
  method ObserveFilter<L, R>(filter: Filter<L, R>, calls: seq<Call>) returns (seen: seq<Option<(L, R)>>)
    requires filter.Valid() && filter.Remaining() == filter.Full()
    modifies filter.child, filter.child.left, filter.child.right
    ensures seen == Observed(filter.Full(), 0, calls)
  {
    seen := [];
    ghost var full := filter.Full();
    ghost var pos: nat := 0;
    for i := 0 to |calls|
      invariant filter.Valid() && pos <= |full| && filter.Remaining() == full[pos..]
      invariant Observed(full, 0, calls) == seen + Observed(full, pos, calls[i..])
    {
      var more;
      more, pos := CallFilter(filter, calls, i, pos);
      seen := seen + more;
    }
  }

  /** The nested-loop equijoin and the filtered product of the same inputs cannot be told
      apart by any sequence of `next` and `reset`. The inputs' starting positions do not
      matter, since both constructors reset their children. */
  method EquijoinLikeFilteredProduct<K(==), L, R>(
      left1: Iterator<L>, right1: Iterator<R>, left2: Iterator<L>, right2: Iterator<R>,
      keyLeft: L -> K, keyRight: R -> K, calls: seq<Call>)
    returns (seen1: seq<Option<(L, R)>>, seen2: seq<Option<(L, R)>>)
    requires left1 as object != right1 as object && left2 as object != right2 as object
    requires {left1 as object, right1 as object} !! {left2 as object, right2 as object}
    requires left1.xs == left2.xs && right1.xs == right2.xs
    modifies left1, right1, left2, right2
    ensures seen1 == seen2 == Observed(Equijoin(keyLeft, keyRight, left1.xs, right1.xs), 0, calls)
  {
    var join := new NaiveEquijoin(left1, right1, keyLeft, keyRight);
    var cross := new Cross(left2, right2);
    var filter := new Filter(cross, EqualKeys(keyLeft, keyRight));
    EquijoinIsSelection(keyLeft, keyRight, left1.xs, right1.xs);
    seen1 := ObserveEquijoin(join, calls);
    seen2 := ObserveFilter(filter, calls);
  }
}
