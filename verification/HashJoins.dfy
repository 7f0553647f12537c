/** The symmetric hash joins of src/pushpull/join.h. Both keep, per key, the values seen so
    far on each side; the push form emits matches at once, the pull form buffers them. The
    source's right-hand map and lambda are declared with the left type; here they have the
    right one. */
module HashJoins {
  import opened Maps
  import opened Options
  import opened Pullers
  import opened Relations

  // -------------------------------------------------------- the per-key tables

  function KeyedBy<K(==), T>(key: T -> K, k: K, xs: seq<T>): seq<T> {
    if xs == [] then []
    else KeyedBy(key, k, xs[..|xs| - 1]) + (if key(xs[|xs| - 1]) == k then [xs[|xs| - 1]] else [])
  }

  /** The table lists, under each key, the values with that key in order of arrival. */
  ghost predicate Indexes<K(!new), T>(table: map<K, seq<T>>, key: T -> K, xs: seq<T>) {
    forall k :: Lookup(table, k, []) == KeyedBy(key, k, xs)
  }

  lemma IndexesInsert<K(!new), T>(table: map<K, seq<T>>, key: T -> K, xs: seq<T>, x: T)
    requires Indexes(table, key, xs)
    ensures Indexes(table[key(x) := Lookup(table, key(x), []) + [x]], key, xs + [x])
  {
    var table' := table[key(x) := Lookup(table, key(x), []) + [x]];
    assert (xs + [x])[..|xs|] == xs;
    forall k ensures Lookup(table', k, []) == KeyedBy(key, k, xs + [x]) {
      assert Lookup(table, k, []) == KeyedBy(key, k, xs);
    }
  }

  lemma IndexesTouch<K(!new), T>(table: map<K, seq<T>>, key: T -> K, xs: seq<T>, k: K)
    requires Indexes(table, key, xs)
    ensures Indexes(table[k := Lookup(table, k, [])], key, xs)
  {
    forall q ensures Lookup(table[k := Lookup(table, k, [])], q, []) == KeyedBy(key, q, xs) {
      assert Lookup(table, q, []) == KeyedBy(key, q, xs);
    }
  }

  function WithLeft<L, R>(l: L, rs: seq<R>): seq<(L, R)> {
    seq(|rs|, i requires 0 <= i < |rs| => (l, rs[i]))
  }

  function WithRight<L, R>(ls: seq<L>, r: R): seq<(L, R)> {
    seq(|ls|, i requires 0 <= i < |ls| => (ls[i], r))
  }

  // ------------------------------------------- one more input extends the equijoin

  lemma {:induction false} MatchesConcat<K, L, R>(keyLeft: L -> K, keyRight: R -> K, l: L, rs: seq<R>, r: R)
    ensures Matches(keyLeft, keyRight, l, rs + [r]) ==
              Matches(keyLeft, keyRight, l, rs) + (if keyLeft(l) == keyRight(r) then [(l, r)] else [])
  {
    if rs == [] {
      assert rs + [r] == [r] && [r][1..] == [];
    } else {
      MatchesConcat(keyLeft, keyRight, l, rs[1..], r);
      assert (rs + [r])[1..] == rs[1..] + [r];
    }
  }

  lemma {:induction false} MatchesAreKeyed<K, L, R>(keyLeft: L -> K, keyRight: R -> K, l: L, rs: seq<R>)
    ensures Matches(keyLeft, keyRight, l, rs) == WithLeft(l, KeyedBy(keyRight, keyLeft(l), rs))
  {
    if rs != [] {
      var n := |rs| - 1;
      assert rs == rs[..n] + [rs[n]];
      MatchesAreKeyed(keyLeft, keyRight, l, rs[..n]);
      MatchesConcat(keyLeft, keyRight, l, rs[..n], rs[n]);
    }
  }

  lemma Regroup<T>(a: seq<T>, b: seq<T>, c: seq<T>)
    ensures a + (b + c) == (a + b) + c
  {
  }

  /** A new left value adds, at the end, its matches with the right values so far. */
  lemma {:induction false} EquijoinMoreLeft<K, L, R>(keyLeft: L -> K, keyRight: R -> K, ls: seq<L>, rs: seq<R>, l: L)
    ensures Equijoin(keyLeft, keyRight, ls + [l], rs) ==
              Equijoin(keyLeft, keyRight, ls, rs) + WithLeft(l, KeyedBy(keyRight, keyLeft(l), rs))
  {
    if ls == [] {
      assert ls + [l] == [l] && [l][1..] == [];
      MatchesAreKeyed(keyLeft, keyRight, l, rs);
      assert Matches(keyLeft, keyRight, l, rs) + [] == Matches(keyLeft, keyRight, l, rs);
    } else {
      EquijoinMoreLeft(keyLeft, keyRight, ls[1..], rs, l);
      assert (ls + [l])[1..] == ls[1..] + [l];
      Regroup(Matches(keyLeft, keyRight, ls[0], rs), Equijoin(keyLeft, keyRight, ls[1..], rs),
              WithLeft(l, KeyedBy(keyRight, keyLeft(l), rs)));
    }
  }

  lemma KeyedByAppend<K, T>(key: T -> K, k: K, xs: seq<T>, x: T)
    ensures KeyedBy(key, k, xs + [x]) == KeyedBy(key, k, xs) + (if key(x) == k then [x] else [])
  {
    assert (xs + [x])[..|xs|] == xs;
  }

  lemma WithRightAppend<L, R>(ls: seq<L>, more: seq<L>, r: R)
    ensures WithRight(ls + more, r) == WithRight(ls, r) + WithRight(more, r)
  {
  }

  lemma OnePair<L, R>(l: L, r: R, matches: bool)
    ensures WithLeft(l, if matches then [r] else []) == WithRight(if matches then [l] else [], r)
  {
  }

  lemma MatchesMoreRight<K, L, R>(keyLeft: L -> K, keyRight: R -> K, l: L, rs: seq<R>, r: R)
    ensures WithLeft(l, KeyedBy(keyRight, keyLeft(l), rs + [r])) ==
              WithLeft(l, KeyedBy(keyRight, keyLeft(l), rs))
              + WithRight(if keyLeft(l) == keyRight(r) then [l] else [], r)
  {
    var matches := keyLeft(l) == keyRight(r);
    KeyedByAppend(keyRight, keyLeft(l), rs, r);
    WithLeftAppend(l, KeyedBy(keyRight, keyLeft(l), rs), if matches then [r] else []);
    OnePair(l, r, matches);
  }

  lemma WithLeftAppend<L, R>(l: L, rs: seq<R>, more: seq<R>)
    ensures WithLeft(l, rs + more) == WithLeft(l, rs) + WithLeft(l, more)
  {
  }

  lemma Rearrange<T>(e: seq<T>, e': seq<T>, a: seq<T>, b: seq<T>, c: seq<T>)
    requires multiset(e') == multiset(e) + multiset(a)
    ensures multiset(e' + (b + c)) == multiset(e + b) + multiset(a + c)
  {
    assert multiset(e' + (b + c)) == multiset(e') + (multiset(b) + multiset(c));
    assert multiset(e + b) == multiset(e) + multiset(b);
    assert multiset(a + c) == multiset(a) + multiset(c);
  }

  /** A new right value adds, somewhere, its matches with the left values so far. */
  lemma {:induction false} EquijoinMoreRight<K, L, R>(keyLeft: L -> K, keyRight: R -> K, ls: seq<L>, rs: seq<R>, r: R)
    ensures multiset(Equijoin(keyLeft, keyRight, ls, rs + [r])) ==
              multiset(Equijoin(keyLeft, keyRight, ls, rs))
              + multiset(WithRight(KeyedBy(keyLeft, keyRight(r), ls), r))
  {
    if ls != [] {
      var rest, l := ls[..|ls| - 1], ls[|ls| - 1];
      assert ls == rest + [l];
      var one := if keyLeft(l) == keyRight(r) then [l] else [];
      EquijoinMoreRight(keyLeft, keyRight, rest, rs, r);
      EquijoinMoreLeft(keyLeft, keyRight, rest, rs, l);
      EquijoinMoreLeft(keyLeft, keyRight, rest, rs + [r], l);
      MatchesMoreRight(keyLeft, keyRight, l, rs, r);
      KeyedByAppend(keyLeft, keyRight(r), rest, l);
      WithRightAppend(KeyedBy(keyLeft, keyRight(r), rest), one, r);
      Rearrange(Equijoin(keyLeft, keyRight, rest, rs), Equijoin(keyLeft, keyRight, rest, rs + [r]),
                WithRight(KeyedBy(keyLeft, keyRight(r), rest), r),
                WithLeft(l, KeyedBy(keyRight, keyLeft(l), rs)), WithRight(one, r));
    }
  }

  // ------------------------------------------------------------ the join's state

  /** The tables index the inputs so far, and `out` holds their equijoin. */
  ghost predicate Joined<K(!new), L, R>(
      keyLeft: L -> K, keyRight: R -> K, leftMap: map<K, seq<L>>, rightMap: map<K, seq<R>>,
      out: multiset<(L, R)>, lefts: seq<L>, rights: seq<R>)
  {
    && Indexes(leftMap, keyLeft, lefts)
    && Indexes(rightMap, keyRight, rights)
    && out == multiset(Equijoin(keyLeft, keyRight, lefts, rights))
  }

  lemma JoinedMoreLeft<K(!new), L, R>(
      keyLeft: L -> K, keyRight: R -> K, leftMap: map<K, seq<L>>, rightMap: map<K, seq<R>>,
      out: multiset<(L, R)>, lefts: seq<L>, rights: seq<R>, left: L)
    requires Joined(keyLeft, keyRight, leftMap, rightMap, out, lefts, rights)
    ensures var k := keyLeft(left); var matches := Lookup(rightMap, k, []);
            && matches == KeyedBy(keyRight, k, rights)
            && Joined(keyLeft, keyRight, leftMap[k := Lookup(leftMap, k, []) + [left]], rightMap[k := matches],
                      out + multiset(WithLeft(left, matches)), lefts + [left], rights)
  {
    var k := keyLeft(left);
    IndexesInsert(leftMap, keyLeft, lefts, left);
    IndexesTouch(rightMap, keyRight, rights, k);
    assert Lookup(rightMap, k, []) == KeyedBy(keyRight, k, rights);
    EquijoinMoreLeft(keyLeft, keyRight, lefts, rights, left);
  }

  lemma JoinedMoreRight<K(!new), L, R>(
      keyLeft: L -> K, keyRight: R -> K, leftMap: map<K, seq<L>>, rightMap: map<K, seq<R>>,
      out: multiset<(L, R)>, lefts: seq<L>, rights: seq<R>, right: R)
    requires Joined(keyLeft, keyRight, leftMap, rightMap, out, lefts, rights)
    ensures var k := keyRight(right); var matches := Lookup(leftMap, k, []);
            && matches == KeyedBy(keyLeft, k, lefts)
            && Joined(keyLeft, keyRight, leftMap[k := matches], rightMap[k := Lookup(rightMap, k, []) + [right]],
                      out + multiset(WithRight(matches, right)), lefts, rights + [right])
  {
    var k := keyRight(right);
    IndexesInsert(rightMap, keyRight, rights, right);
    IndexesTouch(leftMap, keyLeft, lefts, k);
    assert Lookup(leftMap, k, []) == KeyedBy(keyLeft, k, lefts);
    EquijoinMoreRight(keyLeft, keyRight, lefts, rights, right);
  }

  // -------------------------------------------------------------- the push join

  datatype Input<L, R> = FromLeft(left: L) | FromRight(right: R)

  function Lefts<L, R>(inputs: seq<Input<L, R>>): seq<L> {
    if inputs == [] then []
    else
      var x := inputs[|inputs| - 1];
      Lefts(inputs[..|inputs| - 1]) + (if x.FromLeft? then [x.left] else [])
  }

  function Rights<L, R>(inputs: seq<Input<L, R>>): seq<R> {
    if inputs == [] then []
    else
      var x := inputs[|inputs| - 1];
      Rights(inputs[..|inputs| - 1]) + (if x.FromRight? then [x.right] else [])
  }

  lemma PushedLeft<K(!new), L, R>(
      keyLeft: L -> K, keyRight: R -> K, leftMap: map<K, seq<L>>, rightMap: map<K, seq<R>>,
      emitted: seq<(L, R)>, lefts: seq<L>, rights: seq<R>, left: L, key: K, matches: seq<R>)
    requires Joined(keyLeft, keyRight, leftMap, rightMap, multiset(emitted), lefts, rights)
    requires key == keyLeft(left) && matches == Lookup(rightMap, key, [])
    ensures matches == KeyedBy(keyRight, key, rights)
    ensures Joined(keyLeft, keyRight, leftMap[key := Lookup(leftMap, key, []) + [left]], rightMap[key := matches],
                   multiset(emitted + WithLeft(left, matches)), lefts + [left], rights)
  {
    JoinedMoreLeft(keyLeft, keyRight, leftMap, rightMap, multiset(emitted), lefts, rights, left);
    assert multiset(emitted + WithLeft(left, matches)) == multiset(emitted) + multiset(WithLeft(left, matches));
  }

  lemma PushedRight<K(!new), L, R>(
      keyLeft: L -> K, keyRight: R -> K, leftMap: map<K, seq<L>>, rightMap: map<K, seq<R>>,
      emitted: seq<(L, R)>, lefts: seq<L>, rights: seq<R>, right: R, key: K, matches: seq<L>)
    requires Joined(keyLeft, keyRight, leftMap, rightMap, multiset(emitted), lefts, rights)
    requires key == keyRight(right) && matches == Lookup(leftMap, key, [])
    ensures matches == KeyedBy(keyLeft, key, lefts)
    ensures Joined(keyLeft, keyRight, leftMap[key := matches], rightMap[key := Lookup(rightMap, key, []) + [right]],
                   multiset(emitted + WithRight(matches, right)), lefts, rights + [right])
  {
    JoinedMoreRight(keyLeft, keyRight, leftMap, rightMap, multiset(emitted), lefts, rights, right);
    assert multiset(emitted + WithRight(matches, right)) == multiset(emitted) + multiset(WithRight(matches, right));
  }

  class PushJoin<K(==, !new), L, R> {
    const keyLeft: L -> K
    const keyRight: R -> K
    var leftMap: map<K, seq<L>>
    var rightMap: map<K, seq<R>>
    /** What has been pushed downstream. */
    var emitted: seq<(L, R)>
    ghost var lefts: seq<L>
    ghost var rights: seq<R>

    /** The emitted pairs are the equijoin of the inputs so far, each pair as often. */
    ghost predicate Valid()
      reads this
    {
      Joined(keyLeft, keyRight, leftMap, rightMap, multiset(emitted), lefts, rights)
    }

    constructor (keyLeft: L -> K, keyRight: R -> K)
      ensures Valid() && lefts == [] && rights == [] && emitted == []
      ensures this.keyLeft == keyLeft && this.keyRight == keyRight
    {
      this.keyLeft, this.keyRight := keyLeft, keyRight;
      leftMap, rightMap, emitted := map[], map[], [];
      lefts, rights := [], [];
    }

    method PushLeft(left: L)
      requires Valid()
      modifies this
      ensures Valid()
      ensures lefts == old(lefts) + [left] && rights == old(rights)
      ensures emitted == old(emitted) + WithLeft(left, KeyedBy(keyRight, keyLeft(left), rights))
    {
      var key := keyLeft(left);
      PushedLeft(keyLeft, keyRight, leftMap, rightMap, emitted, lefts, rights, left, key, Lookup(rightMap, key, []));
      leftMap := leftMap[key := Lookup(leftMap, key, []) + [left]];
      rightMap := rightMap[key := Lookup(rightMap, key, [])];
      lefts := lefts + [left];
      EmitWithLeft(left, rightMap[key]);
    }

    method EmitWithLeft(left: L, matches: seq<R>)
      modifies this`emitted
      ensures emitted == old(emitted) + WithLeft(left, matches)
    {
      for i := 0 to |matches|
        invariant emitted == old(emitted) + WithLeft(left, matches[..i])
      {
        emitted := emitted + [(left, matches[i])];
      }
      assert matches[..|matches|] == matches;
    }

    method PushRight(right: R)
      requires Valid()
      modifies this
      ensures Valid()
      ensures rights == old(rights) + [right] && lefts == old(lefts)
      ensures emitted == old(emitted) + WithRight(KeyedBy(keyLeft, keyRight(right), lefts), right)
    {
      var key := keyRight(right);
      PushedRight(keyLeft, keyRight, leftMap, rightMap, emitted, lefts, rights, right, key, Lookup(leftMap, key, []));
      rightMap := rightMap[key := Lookup(rightMap, key, []) + [right]];
      leftMap := leftMap[key := Lookup(leftMap, key, [])];
      rights := rights + [right];
      EmitWithRight(leftMap[key], right);
    }

    method EmitWithRight(matches: seq<L>, right: R)
      modifies this`emitted
      ensures emitted == old(emitted) + WithRight(matches, right)
    {
      for i := 0 to |matches|
        invariant emitted == old(emitted) + WithRight(matches[..i], right)
      {
        emitted := emitted + [(matches[i], right)];
      }
      assert matches[..|matches|] == matches;
    }
  }

  lemma SidesStep<L, R>(inputs: seq<Input<L, R>>, i: nat)
    requires i < |inputs|
    ensures Lefts(inputs[..i + 1]) ==
              if inputs[i].FromLeft? then Lefts(inputs[..i]) + [inputs[i].left] else Lefts(inputs[..i])
    ensures Rights(inputs[..i + 1]) ==
              if inputs[i].FromRight? then Rights(inputs[..i]) + [inputs[i].right] else Rights(inputs[..i])
  {
    assert inputs[..i + 1][..i] == inputs[..i];
  }

  method PushOne<K(==, !new), L, R>(join: PushJoin<K, L, R>, inputs: seq<Input<L, R>>, i: nat)
    requires i < |inputs|
    requires join.Valid() && join.lefts == Lefts(inputs[..i]) && join.rights == Rights(inputs[..i])
    modifies join
    ensures join.Valid() && join.lefts == Lefts(inputs[..i + 1]) && join.rights == Rights(inputs[..i + 1])
  {
    SidesStep(inputs, i);
    match inputs[i] {
      case FromLeft(l) => join.PushLeft(l);
      case FromRight(r) => join.PushRight(r);
    }
  }

  /** After any interleaving of pushes, the emitted pairs are those of the nested-loop join
      of the left inputs and the right inputs, each exactly as often. */
  method HashJoinRefinesNestedLoops<K(==, !new), L, R>(
      keyLeft: L -> K, keyRight: R -> K, inputs: seq<Input<L, R>>) returns (emitted: seq<(L, R)>)
    ensures multiset(emitted) == multiset(Equijoin(keyLeft, keyRight, Lefts(inputs), Rights(inputs)))
  {
    var join := new PushJoin(keyLeft, keyRight);
    for i := 0 to |inputs|
      invariant fresh(join) && join.Valid()
      invariant join.lefts == Lefts(inputs[..i]) && join.rights == Rights(inputs[..i])
    {
      PushOne(join, inputs, i);
    }
    assert inputs[..|inputs|] == inputs;
    emitted := join.emitted;
  }

  // -------------------------------------------------------------- the pull join

  class PullJoin<K(==, !new), L, R> {
    const left: Upstream<L>
    const right: Upstream<R>
    const keyLeft: L -> K
    const keyRight: R -> K
    var pullLeft: bool
    var leftMap: map<K, seq<L>>
    var rightMap: map<K, seq<R>>
    var buf: seq<(L, R)>
    ghost var emitted: seq<(L, R)>

    /** Emitted and buffered pairs together are the equijoin of what was consumed, and the
        two sides are consumed in turn. */
    ghost predicate Valid()
      reads this, left, right
    {
      && left as object != right as object
      && Joined(keyLeft, keyRight, leftMap, rightMap, multiset(emitted) + multiset(buf),
                left.Consumed(), right.Consumed())
      && |left.Consumed()| == |right.Consumed()| + (if pullLeft then 0 else 1)
    }

    constructor (left: Upstream<L>, right: Upstream<R>, keyLeft: L -> K, keyRight: R -> K)
      requires left as object != right as object && left.pulls == 0 && right.pulls == 0
      ensures Valid() && emitted == [] && buf == []
      ensures this.left == left && this.right == right
      ensures this.keyLeft == keyLeft && this.keyRight == keyRight
    {
      this.left, this.right, this.keyLeft, this.keyRight := left, right, keyLeft, keyRight;
      pullLeft, leftMap, rightMap, buf, emitted := true, map[], map[], [], [];
    }

    /** The matches of a left value with the right values consumed so far, in their order. */
    ghost function LeftMatches(l: L): seq<(L, R)>
      reads right
    {
      WithLeft(l, KeyedBy(keyRight, keyLeft(l), right.Consumed()))
    }

    ghost function RightMatches(r: R): seq<(L, R)>
      reads left
    {
      WithRight(KeyedBy(keyLeft, keyRight(r), left.Consumed()), r)
    }

    /** A pull emits one pair or nothing. It asks an upstream only when the buffer is empty,
        that is, when every match among the values consumed has been emitted, and then it does
        ask the one whose turn it is, which keeps its turn if it has nothing; and it emits
        nothing only if the buffer is then empty again. The matches of the value it gets are
        buffered in order and emitted from the back. */
    method Pull() returns (o: Option<(L, R)>)
      requires Valid()
      modifies this, left, right
      ensures Valid()
      ensures emitted == old(emitted) + (if o.Some? then [o.value] else [])
      ensures o.None? ==> buf == []
      ensures old(buf) != [] ==> o.Some? && left.pulls == old(left.pulls) && right.pulls == old(right.pulls)
                                 && pullLeft == old(pullLeft) && buf + [o.value] == old(buf)
      ensures !old(pullLeft) ==> left.pulls == old(left.pulls)
      ensures old(pullLeft) ==> right.pulls == old(right.pulls)
      ensures old(buf) == [] && old(pullLeft) ==>
                left.pulls == old(left.pulls) + 1 && pullLeft == left.answer(old(left.pulls)).None?
      ensures old(buf) == [] && !old(pullLeft) ==>
                right.pulls == old(right.pulls) + 1 && pullLeft == right.answer(old(right.pulls)).Some?
      ensures old(buf) == [] && old(pullLeft) ==>
                buf + (if o.Some? then [o.value] else [])
                == match left.answer(old(left.pulls)) case Some(l) => LeftMatches(l) case None => []
      ensures old(buf) == [] && !old(pullLeft) ==>
                buf + (if o.Some? then [o.value] else [])
                == match right.answer(old(right.pulls)) case Some(r) => RightMatches(r) case None => []
    {
      if |buf| > 0 {
        o := PopBack();
        return;
      }
      var progressed;
      if pullLeft {
        progressed := ConsumeLeft();
      } else {
        progressed := ConsumeRight();
      }
      if !progressed {
        return None;
      }
      if |buf| > 0 {
        o := PopBack();
      } else {
        o := None;
      }
    }

    method PopBack() returns (o: Option<(L, R)>)
      requires Valid() && buf != []
      modifies this`buf, this`emitted
      ensures Valid() && o.Some? && buf + [o.value] == old(buf) && emitted == old(emitted) + [o.value]
    {
      o := Some(buf[|buf| - 1]);
      assert buf == buf[..|buf| - 1] + [o.value];
      buf := buf[..|buf| - 1];
      emitted := emitted + [o.value];
    }

    method ConsumeLeft() returns (progressed: bool)
      requires Valid() && buf == [] && pullLeft
      modifies this`leftMap, this`rightMap, this`buf, this`pullLeft, left
      ensures Valid() && pullLeft == !progressed && (!progressed ==> buf == [])
      ensures left.pulls == old(left.pulls) + 1 && progressed == left.answer(old(left.pulls)).Some?
      ensures progressed ==> buf == LeftMatches(left.answer(old(left.pulls)).value)
    {
      ghost var ls, rs := left.Consumed(), right.Consumed();
      var leftVal := left.Pull();
      if leftVal.None? {
        return false;
      }
      AddLeft(leftVal.value, ls, rs);
      pullLeft := !pullLeft;
      progressed := true;
    }

    method AddLeft(leftVal: L, ghost ls: seq<L>, ghost rs: seq<R>)
      requires buf == [] && Joined(keyLeft, keyRight, leftMap, rightMap, multiset(emitted) + multiset(buf), ls, rs)
      modifies this`leftMap, this`rightMap, this`buf
      ensures Joined(keyLeft, keyRight, leftMap, rightMap, multiset(emitted) + multiset(buf), ls + [leftVal], rs)
      ensures buf == WithLeft(leftVal, KeyedBy(keyRight, keyLeft(leftVal), rs))
    {
      var key := keyLeft(leftVal);
      JoinedMoreLeft(keyLeft, keyRight, leftMap, rightMap, multiset(emitted) + multiset(buf), ls, rs, leftVal);
      leftMap := leftMap[key := Lookup(leftMap, key, []) + [leftVal]];
      rightMap := rightMap[key := Lookup(rightMap, key, [])];
      BufferWithLeft(leftVal, rightMap[key]);
    }

    method BufferWithLeft(left: L, matches: seq<R>)
      requires buf == []
      modifies this`buf
      ensures buf == WithLeft(left, matches)
    {
      for i := 0 to |matches|
        invariant buf == WithLeft(left, matches[..i])
      {
        buf := buf + [(left, matches[i])];
      }
      assert matches[..|matches|] == matches;
    }

    method ConsumeRight() returns (progressed: bool)
      requires Valid() && buf == [] && !pullLeft
      modifies this`leftMap, this`rightMap, this`buf, this`pullLeft, right
      ensures Valid() && pullLeft == progressed && (!progressed ==> buf == [])
      ensures right.pulls == old(right.pulls) + 1 && progressed == right.answer(old(right.pulls)).Some?
      ensures progressed ==> buf == RightMatches(right.answer(old(right.pulls)).value)
    {
      ghost var ls, rs := left.Consumed(), right.Consumed();
      var rightVal := right.Pull();
      if rightVal.None? {
        return false;
      }
      AddRight(rightVal.value, ls, rs);
      pullLeft := !pullLeft;
      progressed := true;
    }

    method AddRight(rightVal: R, ghost ls: seq<L>, ghost rs: seq<R>)
      requires buf == [] && Joined(keyLeft, keyRight, leftMap, rightMap, multiset(emitted) + multiset(buf), ls, rs)
      modifies this`leftMap, this`rightMap, this`buf
      ensures Joined(keyLeft, keyRight, leftMap, rightMap, multiset(emitted) + multiset(buf), ls, rs + [rightVal])
      ensures buf == WithRight(KeyedBy(keyLeft, keyRight(rightVal), ls), rightVal)
    {
      var key := keyRight(rightVal);
      JoinedMoreRight(keyLeft, keyRight, leftMap, rightMap, multiset(emitted) + multiset(buf), ls, rs, rightVal);
      rightMap := rightMap[key := Lookup(rightMap, key, []) + [rightVal]];
      leftMap := leftMap[key := Lookup(leftMap, key, [])];
      BufferWithRight(leftMap[key], rightVal);
    }

    method BufferWithRight(matches: seq<L>, right: R)
      requires buf == []
      modifies this`buf
      ensures buf == WithRight(matches, right)
    {
      for i := 0 to |matches|
        invariant buf == WithRight(matches[..i], right)
      {
        buf := buf + [(matches[i], right)];
      }
      assert matches[..|matches|] == matches;
    }
  }

  // -------------------------------------------------- what repeated pulls deliver

  lemma WithNothing<L, R>(l: L, rs: seq<R>)
    ensures multiset(WithLeft(l, rs)) == multiset{} <==> rs == []
  {
    if rs != [] { assert WithLeft(l, rs)[0] in multiset(WithLeft(l, rs)); }
  }

  lemma NothingWith<L, R>(ls: seq<L>, r: R)
    ensures multiset(WithRight(ls, r)) == multiset{} <==> ls == []
  {
    if ls != [] { assert WithRight(ls, r)[0] in multiset(WithRight(ls, r)); }
  }

  lemma {:induction false} KeyedByNone<K, T>(key: T -> K, k: K, xs: seq<T>)
    ensures KeyedBy(key, k, xs) == [] <==> forall i :: 0 <= i < |xs| ==> key(xs[i]) != k
  {
    if xs != [] { KeyedByNone(key, k, xs[..|xs| - 1]); }
  }

  /** No left value from position a on has the key of any of the right values. */
  ghost predicate NoMatchLeft<K, L, R>(keyLeft: L -> K, keyRight: R -> K, ls: seq<L>, rs: seq<R>, a: nat) {
    forall i, j :: a <= i < |ls| && 0 <= j < |rs| ==> keyLeft(ls[i]) != keyRight(rs[j])
  }

  ghost predicate NoMatchRight<K, L, R>(keyLeft: L -> K, keyRight: R -> K, ls: seq<L>, rs: seq<R>, b: nat) {
    forall i, j :: 0 <= i < |ls| && b <= j < |rs| ==> keyLeft(ls[i]) != keyRight(rs[j])
  }

  lemma LeftAdds<K, L, R>(keyLeft: L -> K, keyRight: R -> K, ls: seq<L>, rs: seq<R>, a: nat)
    returns (more: multiset<(L, R)>)
    requires a < |ls|
    ensures multiset(Equijoin(keyLeft, keyRight, ls[..a + 1], rs))
         == multiset(Equijoin(keyLeft, keyRight, ls[..a], rs)) + more
    ensures more == multiset{} <==> forall j :: 0 <= j < |rs| ==> keyRight(rs[j]) != keyLeft(ls[a])
  {
    assert ls[..a + 1] == ls[..a] + [ls[a]];
    var keyed := KeyedBy(keyRight, keyLeft(ls[a]), rs);
    EquijoinMoreLeft(keyLeft, keyRight, ls[..a], rs, ls[a]);
    WithNothing(ls[a], keyed);
    KeyedByNone(keyRight, keyLeft(ls[a]), rs);
    more := multiset(WithLeft(ls[a], keyed));
  }

  lemma RightAdds<K, L, R>(keyLeft: L -> K, keyRight: R -> K, ls: seq<L>, rs: seq<R>, b: nat)
    returns (more: multiset<(L, R)>)
    requires b < |rs|
    ensures multiset(Equijoin(keyLeft, keyRight, ls, rs[..b + 1]))
         == multiset(Equijoin(keyLeft, keyRight, ls, rs[..b])) + more
    ensures more == multiset{} <==> forall i :: 0 <= i < |ls| ==> keyLeft(ls[i]) != keyRight(rs[b])
  {
    assert rs[..b + 1] == rs[..b] + [rs[b]];
    var keyed := KeyedBy(keyLeft, keyRight(rs[b]), ls);
    EquijoinMoreRight(keyLeft, keyRight, ls, rs[..b], rs[b]);
    NothingWith(keyed, rs[b]);
    KeyedByNone(keyLeft, keyRight(rs[b]), ls);
    more := multiset(WithRight(keyed, rs[b]));
  }

  lemma EmptySum<T>(a: multiset<T>, b: multiset<T>)
    ensures a + b == multiset{} <==> a == multiset{} && b == multiset{}
  {
    if a != multiset{} {
      var x :| x in a;
      assert x in a + b;
    }
    if b != multiset{} {
      var x :| x in b;
      assert x in a + b;
    }
  }

  lemma AddUp<T>(all: multiset<T>, next: multiset<T>, base: multiset<T>, more: multiset<T>, after: multiset<T>)
    requires all == next + after && next == base + more
    ensures all == base + (more + after)
    ensures more + after == multiset{} <==> more == multiset{} && after == multiset{}
  {
    EmptySum(more, after);
  }

  lemma NoMatchLeftStep<K, L, R>(keyLeft: L -> K, keyRight: R -> K, ls: seq<L>, rs: seq<R>, a: nat)
    requires a < |ls|
    ensures NoMatchLeft(keyLeft, keyRight, ls, rs, a) <==>
              NoMatchLeft(keyLeft, keyRight, ls, rs, a + 1)
              && forall j :: 0 <= j < |rs| ==> keyRight(rs[j]) != keyLeft(ls[a])
  {
  }

  lemma NoMatchRightStep<K, L, R>(keyLeft: L -> K, keyRight: R -> K, ls: seq<L>, rs: seq<R>, b: nat)
    requires b < |rs|
    ensures NoMatchRight(keyLeft, keyRight, ls, rs, b) <==>
              NoMatchRight(keyLeft, keyRight, ls, rs, b + 1)
              && forall i :: 0 <= i < |ls| ==> keyLeft(ls[i]) != keyRight(rs[b])
  {
  }

  /** What the left values from position a on add to the join. */
  lemma {:induction false} RestLeft<K, L, R>(keyLeft: L -> K, keyRight: R -> K, ls: seq<L>, rs: seq<R>, a: nat)
    returns (rest: multiset<(L, R)>)
    requires a <= |ls|
    ensures multiset(Equijoin(keyLeft, keyRight, ls, rs)) == multiset(Equijoin(keyLeft, keyRight, ls[..a], rs)) + rest
    ensures rest == multiset{} <==> NoMatchLeft(keyLeft, keyRight, ls, rs, a)
    decreases |ls| - a
  {
    if a == |ls| {
      assert ls[..a] == ls;
      rest := multiset{};
    } else {
      var after := RestLeft(keyLeft, keyRight, ls, rs, a + 1);
      var more := LeftAdds(keyLeft, keyRight, ls, rs, a);
      AddUp(multiset(Equijoin(keyLeft, keyRight, ls, rs)), multiset(Equijoin(keyLeft, keyRight, ls[..a + 1], rs)),
            multiset(Equijoin(keyLeft, keyRight, ls[..a], rs)), more, after);
      NoMatchLeftStep(keyLeft, keyRight, ls, rs, a);
      rest := more + after;
    }
  }

  lemma {:induction false} RestRight<K, L, R>(keyLeft: L -> K, keyRight: R -> K, ls: seq<L>, rs: seq<R>, b: nat)
    returns (rest: multiset<(L, R)>)
    requires b <= |rs|
    ensures multiset(Equijoin(keyLeft, keyRight, ls, rs)) == multiset(Equijoin(keyLeft, keyRight, ls, rs[..b])) + rest
    ensures rest == multiset{} <==> NoMatchRight(keyLeft, keyRight, ls, rs, b)
    decreases |rs| - b
  {
    if b == |rs| {
      assert rs[..b] == rs;
      rest := multiset{};
    } else {
      var after := RestRight(keyLeft, keyRight, ls, rs, b + 1);
      var more := RightAdds(keyLeft, keyRight, ls, rs, b);
      AddUp(multiset(Equijoin(keyLeft, keyRight, ls, rs)), multiset(Equijoin(keyLeft, keyRight, ls, rs[..b + 1])),
            multiset(Equijoin(keyLeft, keyRight, ls, rs[..b])), more, after);
      NoMatchRightStep(keyLeft, keyRight, ls, rs, b);
      rest := more + after;
    }
  }

  /** What a join of prefixes lacks, and exactly when it lacks nothing: if no left-out value
      has a match. */
  lemma PrefixJoin<K, L, R>(keyLeft: L -> K, keyRight: R -> K, ls: seq<L>, rs: seq<R>, a: nat, b: nat)
    returns (rest: multiset<(L, R)>)
    requires a <= |ls| && b <= |rs|
    ensures multiset(Equijoin(keyLeft, keyRight, ls, rs))
         == multiset(Equijoin(keyLeft, keyRight, ls[..a], rs[..b])) + rest
    ensures rest == multiset{} <==>
              NoMatchLeft(keyLeft, keyRight, ls, rs, a) && NoMatchRight(keyLeft, keyRight, ls, rs, b)
  {
    var r1 := RestLeft(keyLeft, keyRight, ls, rs, a);
    var r2 := RestRight(keyLeft, keyRight, ls[..a], rs, b);
    rest := r1 + r2;
    assert rest == multiset{} <==> r1 == multiset{} && r2 == multiset{} by {
      EmptySum(r1, r2);
    }
    SplitMatches(keyLeft, keyRight, ls, rs, a, b);
  }

  lemma SplitMatches<K, L, R>(keyLeft: L -> K, keyRight: R -> K, ls: seq<L>, rs: seq<R>, a: nat, b: nat)
    requires a <= |ls|
    ensures NoMatchLeft(keyLeft, keyRight, ls, rs, a) ==>
              (NoMatchRight(keyLeft, keyRight, ls[..a], rs, b) <==> NoMatchRight(keyLeft, keyRight, ls, rs, b))
  {
  }

  /** How many values of each side the alternation consumes of p left and q right ones: the
      side whose turn it is when it has ended keeps the turn, so the other is not asked again. */
  function LeftShare(p: nat, q: nat): nat {
    if p <= q + 1 then p else q + 1
  }

  function RightShare(p: nat, q: nat): nat {
    if p <= q then p else q
  }

  ghost predicate EndsAt<T>(answer: nat -> Option<T>, n: nat) {
    forall k: nat :: k >= n ==> answer(k).None?
  }

  lemma {:induction false} ValuesPrefix<T>(answer: nat -> Option<T>, m: nat, n: nat)
    requires m <= n
    ensures |Values(answer, m)| <= |Values(answer, n)| && Values(answer, m) == Values(answer, n)[..|Values(answer, m)|]
    decreases n
  {
    if m < n { ValuesPrefix(answer, m, n - 1); }
  }

  lemma {:induction false} ValuesEnd<T>(answer: nat -> Option<T>, n: nat, m: nat)
    requires EndsAt(answer, n) && n <= m
    ensures Values(answer, m) == Values(answer, n)
  {
    if m > n { ValuesEnd(answer, n, m - 1); }
  }

  /** At any count of pulls, what has been handed out is a prefix of all there is. */
  lemma ConsumedPrefix<T>(answer: nat -> Option<T>, n: nat, m: nat)
    requires EndsAt(answer, n)
    ensures var all, some := Values(answer, n), Values(answer, m);
            |some| <= |all| && some == all[..|some|] && (m >= n ==> some == all)
  {
    if m <= n {
      ValuesPrefix(answer, m, n);
    } else {
      ValuesEnd(answer, n, m);
    }
  }

  /** Where a join stands after n pulls on upstreams that end. */
  ghost predicate Draining<K(!new), L, R>(join: PullJoin<K, L, R>, nl: nat, nr: nat, n: nat)
    reads join, join.left, join.right
  {
    && join.Valid()
    && join.left.pulls + join.right.pulls + |join.emitted| >= n
    && (join.left.pulls > nl ==> join.pullLeft && join.buf == [])
    && (join.right.pulls > nr ==> !join.pullLeft && join.buf == [])
  }

  method PullOnce<K(==, !new), L, R>(join: PullJoin<K, L, R>, nl: nat, nr: nat, ghost n: nat)
    returns (o: Option<(L, R)>)
    requires EndsAt(join.left.answer, nl) && EndsAt(join.right.answer, nr)
    requires Draining(join, nl, nr, n)
    modifies join, join.left, join.right
    ensures Draining(join, nl, nr, n + 1)
    ensures join.emitted == if o.Some? then old(join.emitted) + [o.value] else old(join.emitted)
  {
    ghost var l, r := join.left.pulls, join.right.pulls;
    o := join.Pull();
    assert join.left.pulls > l ==> (l >= nl ==> join.pullLeft);
    assert join.right.pulls > r ==> (r >= nr ==> !join.pullLeft);
  }

  lemma SizeOfSum<T>(a: seq<T>, b: seq<T>, c: seq<T>, rest: multiset<T>)
    requires multiset(c) == multiset(a) + multiset(b) + rest
    ensures |a| + |b| <= |c|
  {
    assert |multiset(a)| == |a| && |multiset(b)| == |b| && |multiset(c)| == |c|;
  }

  lemma EmittedBounded<K(!new), L, R>(join: PullJoin<K, L, R>, nl: nat, nr: nat)
    requires EndsAt(join.left.answer, nl) && EndsAt(join.right.answer, nr) && join.Valid()
    ensures var ls, rs := Values(join.left.answer, nl), Values(join.right.answer, nr);
            |join.emitted| + |join.buf| <= |Equijoin(join.keyLeft, join.keyRight, ls, rs)|
  {
    var ls, rs := Values(join.left.answer, nl), Values(join.right.answer, nr);
    ConsumedPrefix(join.left.answer, nl, join.left.pulls);
    ConsumedPrefix(join.right.answer, nr, join.right.pulls);
    var rest := PrefixJoin(join.keyLeft, join.keyRight, ls, rs, |join.left.Consumed()|, |join.right.Consumed()|);
    SizeOfSum(join.emitted, join.buf, Equijoin(join.keyLeft, join.keyRight, ls, rs), rest);
  }

  /** After enough pulls the join is dry: each side has consumed its share and everything is
      out of the buffer. */
  lemma Drained<K(!new), L, R>(join: PullJoin<K, L, R>, nl: nat, nr: nat, n: nat)
    requires EndsAt(join.left.answer, nl) && EndsAt(join.right.answer, nr) && Draining(join, nl, nr, n)
    requires var ls, rs := Values(join.left.answer, nl), Values(join.right.answer, nr);
             n >= nl + nr + |Equijoin(join.keyLeft, join.keyRight, ls, rs)|
    ensures var ls, rs := Values(join.left.answer, nl), Values(join.right.answer, nr);
            && join.buf == []
            && join.left.Consumed() == ls[..LeftShare(|ls|, |rs|)]
            && join.right.Consumed() == rs[..RightShare(|ls|, |rs|)]
  {
    EmittedBounded(join, nl, nr);
    ConsumedPrefix(join.left.answer, nl, join.left.pulls);
    ConsumedPrefix(join.right.answer, nr, join.right.pulls);
  }

  /** No left-out value has a match: then, and only then, nothing is starved. */
  ghost predicate NothingStarved<K, L, R>(keyLeft: L -> K, keyRight: R -> K, ls: seq<L>, rs: seq<R>) {
    && NoMatchLeft(keyLeft, keyRight, ls, rs, LeftShare(|ls|, |rs|))
    && NoMatchRight(keyLeft, keyRight, ls, rs, RightShare(|ls|, |rs|))
  }

  /** Pulls on upstreams that answer the values ls and rs, with nothings in between as they
      like, and nothing after `nl` and `nr` pulls. However many pulls, nothing is emitted that
      is not in the join; enough pulls emit exactly the join of the first |rs| + 1 left values
      with the first |ls| right ones; and that is the whole join if and only if no other
      value has a match. */
  method PullManyTimes<K(==, !new), L, R>(
      answerLeft: nat -> Option<L>, answerRight: nat -> Option<R>, keyLeft: L -> K, keyRight: R -> K,
      nl: nat, nr: nat, n: nat) returns (emitted: seq<(L, R)>)
    requires EndsAt(answerLeft, nl) && EndsAt(answerRight, nr)
    ensures var ls, rs := Values(answerLeft, nl), Values(answerRight, nr);
            var whole := Equijoin(keyLeft, keyRight, ls, rs);
            && multiset(emitted) <= multiset(whole)
            && (n >= nl + nr + |whole| ==>
                  && multiset(emitted) == multiset(Equijoin(keyLeft, keyRight, ls[..LeftShare(|ls|, |rs|)],
                                                            rs[..RightShare(|ls|, |rs|)]))
                  && (multiset(emitted) == multiset(whole) <==> NothingStarved(keyLeft, keyRight, ls, rs)))
  {
    var left := new Upstream(answerLeft);
    var right := new Upstream(answerRight);
    var join := new PullJoin(left, right, keyLeft, keyRight);
    emitted := [];
    for i := 0 to n
      invariant fresh(join) && fresh(left) && fresh(right)
      invariant join.left == left && join.right == right && left.answer == answerLeft && right.answer == answerRight
      invariant join.keyLeft == keyLeft && join.keyRight == keyRight
      invariant Draining(join, nl, nr, i) && emitted == join.emitted
    {
      var o := PullOnce(join, nl, nr, i);
      if o.Some? {
        emitted := emitted + [o.value];
      }
    }
    EmittedInJoin(join, nl, nr);
    if n >= nl + nr + |Equijoin(keyLeft, keyRight, Values(answerLeft, nl), Values(answerRight, nr))| {
      Drained(join, nl, nr, n);
      WholeIff(keyLeft, keyRight, Values(answerLeft, nl), Values(answerRight, nr));
    }
  }

  lemma EmittedInJoin<K(!new), L, R>(join: PullJoin<K, L, R>, nl: nat, nr: nat)
    requires EndsAt(join.left.answer, nl) && EndsAt(join.right.answer, nr) && join.Valid()
    ensures var ls, rs := Values(join.left.answer, nl), Values(join.right.answer, nr);
            multiset(join.emitted) <= multiset(Equijoin(join.keyLeft, join.keyRight, ls, rs))
  {
    ConsumedPrefix(join.left.answer, nl, join.left.pulls);
    ConsumedPrefix(join.right.answer, nr, join.right.pulls);
    var rest := PrefixJoin(join.keyLeft, join.keyRight, Values(join.left.answer, nl), Values(join.right.answer, nr),
                           |join.left.Consumed()|, |join.right.Consumed()|);
  }

  /** The shares make up the whole join if and only if no starved value has a match. */
  lemma WholeIff<K, L, R>(keyLeft: L -> K, keyRight: R -> K, ls: seq<L>, rs: seq<R>)
    ensures multiset(Equijoin(keyLeft, keyRight, ls[..LeftShare(|ls|, |rs|)], rs[..RightShare(|ls|, |rs|)]))
              == multiset(Equijoin(keyLeft, keyRight, ls, rs))
            <==> NothingStarved(keyLeft, keyRight, ls, rs)
  {
    var rest := PrefixJoin(keyLeft, keyRight, ls, rs, LeftShare(|ls|, |rs|), RightShare(|ls|, |rs|));
    NoRest(multiset(Equijoin(keyLeft, keyRight, ls[..LeftShare(|ls|, |rs|)], rs[..RightShare(|ls|, |rs|)])), rest);
  }

  lemma NoRest<T>(a: multiset<T>, rest: multiset<T>)
    ensures a == a + rest <==> rest == multiset{}
  {
    assert |a + rest| == |a| + |rest|;
  }
}
