/** Join semilattices and the order they induce (src/lattices/lattice.h), and the
    theorems that build larger semilattices from smaller ones. A lattice's in-place
    `join` is represented here by the binary function it computes; the classes that
    update themselves in place are in Lattices.dfy. */
module Semilattices {

  ghost predicate Associative<T(!new)>(join: (T, T) -> T) {
    forall x, y, z :: join(x, join(y, z)) == join(join(x, y), z)
  }

  ghost predicate Commutative<T(!new)>(join: (T, T) -> T) {
    forall x, y :: join(x, y) == join(y, x)
  }

  ghost predicate Idempotent<T(!new)>(join: (T, T) -> T) {
    forall x :: join(x, x) == x
  }

  ghost predicate IsSemilattice<T(!new)>(join: (T, T) -> T) {
    Associative(join) && Commutative(join) && Idempotent(join)
  }

  /** `operator<=`: join `r` into a copy of `l` and compare. */
  predicate Leq<T(==)>(join: (T, T) -> T, l: T, r: T) {
    join(l, r) == r
  }

  /** The strict order: what `<` has to mean for a timestamp. */
  predicate Less<T(==)>(join: (T, T) -> T, l: T, r: T) {
    l != r && Leq(join, l, r)
  }

  ghost predicate IsTotal<T(!new)>(join: (T, T) -> T) {
    forall x, y :: Leq(join, x, y) || Leq(join, y, x)
  }

  ghost predicate IsPartialOrder<T(!new)>(le: (T, T) -> bool) {
    && (forall x :: le(x, x))
    && (forall x, y :: le(x, y) && le(y, x) ==> x == y)
    && (forall x, y, z :: le(x, y) && le(y, z) ==> le(x, z))
  }

  ghost predicate IsLub<T(!new)>(le: (T, T) -> bool, z: T, x: T, y: T) {
    && le(x, z) && le(y, z)
    && (forall u :: le(x, u) && le(y, u) ==> le(z, u))
  }

  ghost function Order<T(!new)>(join: (T, T) -> T): (T, T) -> bool {
    (l, r) => Leq(join, l, r)
  }

  /** A structure (S, join) induces a partial order in which join is the least upper bound. */
  lemma JoinGivesOrder<T(!new)>(join: (T, T) -> T)
    requires IsSemilattice(join)
    ensures IsPartialOrder(Order(join))
    ensures forall x, y :: IsLub(Order(join), join(x, y), x, y)
  {
    var le := Order(join);
    forall x, y, z | le(x, y) && le(y, z) ensures le(x, z) {
      assert join(x, join(y, z)) == join(join(x, y), z);
    }
    forall x, y ensures IsLub(le, join(x, y), x, y) {
      assert join(x, join(x, y)) == join(join(x, x), y);
      assert join(y, join(y, x)) == join(join(y, y), x);
      forall u | le(x, u) && le(y, u) ensures le(join(x, y), u) {
        assert join(x, join(y, u)) == join(join(x, y), u);
      }
    }
  }

  /** Dually, an order with a least upper bound for every pair makes the bound a semilattice
      join, and the order that join induces is the one it came from. */
  lemma OrderGivesJoin<T(!new)>(le: (T, T) -> bool, join: (T, T) -> T)
    requires IsPartialOrder(le)
    requires forall x, y :: IsLub(le, join(x, y), x, y)
    ensures IsSemilattice(join)
    ensures forall x, y :: Leq(join, x, y) <==> le(x, y)
  {
    forall x, y ensures join(x, y) == join(y, x) {
      assert IsLub(le, join(x, y), x, y) && IsLub(le, join(y, x), y, x);
    }
    forall x ensures join(x, x) == x {
      assert IsLub(le, join(x, x), x, x);
    }
    forall x, y ensures Leq(join, x, y) <==> le(x, y) {
      assert IsLub(le, join(x, y), x, y);
    }
    forall x, y, z ensures join(x, join(y, z)) == join(join(x, y), z) {
      LubAssociative(le, join, x, y, z);
    }
  }

  lemma LubAssociative<T(!new)>(le: (T, T) -> bool, join: (T, T) -> T, x: T, y: T, z: T)
    requires IsPartialOrder(le)
    requires forall x, y :: IsLub(le, join(x, y), x, y)
    ensures join(x, join(y, z)) == join(join(x, y), z)
  {
    var a, b := join(x, join(y, z)), join(join(x, y), z);
    assert IsLub(le, join(y, z), y, z) && IsLub(le, join(x, y), x, y);
    assert IsLub(le, a, x, join(y, z)) && IsLub(le, b, join(x, y), z);
    assert le(x, a) && le(y, a) && le(z, a) && le(x, b) && le(y, b) && le(z, b);
    assert le(a, b) && le(b, a);
  }

  // ---------------------------------------------------------------- MaxLattice

  ghost predicate IsStrictTotalOrder<T(!new)>(lt: (T, T) -> bool) {
    && (forall x :: !lt(x, x))
    && (forall x, y, z :: lt(x, y) && lt(y, z) ==> lt(x, z))
    && (forall x, y :: x == y || lt(x, y) || lt(y, x))
  }

  /** `std::max`: the first argument unless it is the smaller one. */
  function Max<T>(lt: (T, T) -> bool, x: T, y: T): T {
    if lt(x, y) then y else x
  }

  function MaxOf<T>(lt: (T, T) -> bool): (T, T) -> T {
    (x, y) => Max(lt, x, y)
  }

  /** Max is a semilattice join; its induced order is the order it was given, and so total. */
  lemma MaxIsSemilattice<T(!new)>(lt: (T, T) -> bool)
    requires IsStrictTotalOrder(lt)
    ensures IsSemilattice(MaxOf(lt)) && IsTotal(MaxOf(lt))
    ensures forall x, y :: Less(MaxOf(lt), x, y) <==> lt(x, y)
  {
    var join := MaxOf(lt);
    forall x, y ensures join(x, y) == join(y, x) {
      assert lt(x, y) && lt(y, x) ==> lt(x, x);
    }
    forall x, y ensures Less(join, x, y) <==> lt(x, y) {
      assert lt(x, x) == false;
    }
    forall x, y, z ensures join(x, join(y, z)) == join(join(x, y), z) {
      assert x == y || lt(x, y) || lt(y, x);
      assert y == z || lt(y, z) || lt(z, y);
      assert x == z || lt(x, z) || lt(z, x);
    }
  }

  // --------------------------------------------------------------- PairLattice

  function PairJoin<L, R>(jl: (L, L) -> L, jr: (R, R) -> R, a: (L, R), b: (L, R)): (L, R) {
    (jl(a.0, b.0), jr(a.1, b.1))
  }

  function PairOf<L, R>(jl: (L, L) -> L, jr: (R, R) -> R): ((L, R), (L, R)) -> (L, R) {
    (a, b) => PairJoin(jl, jr, a, b)
  }

  /** A pair of semilattices is a semilattice, ordered component by component. */
  lemma PairIsSemilattice<L(!new), R(!new)>(jl: (L, L) -> L, jr: (R, R) -> R)
    requires IsSemilattice(jl) && IsSemilattice(jr)
    ensures IsSemilattice(PairOf(jl, jr))
    ensures forall a, b :: Leq(PairOf(jl, jr), a, b) <==> Leq(jl, a.0, b.0) && Leq(jr, a.1, b.1)
  {
    var join := PairOf(jl, jr);
    forall x, y, z ensures join(x, join(y, z)) == join(join(x, y), z) {
      assert jl(x.0, jl(y.0, z.0)) == jl(jl(x.0, y.0), z.0);
      assert jr(x.1, jr(y.1, z.1)) == jr(jr(x.1, y.1), z.1);
    }
  }

  // --------------------------------------------- VectorLattice and ArrayLattice

  /** Joined element by element; what the longer vector has beyond the shorter is kept. */
  function VectorJoin<T>(join: (T, T) -> T, a: seq<T>, b: seq<T>): (c: seq<T>)
    ensures |c| == if |a| < |b| then |b| else |a|
    ensures forall i :: 0 <= i < |c| ==>
              c[i] == if i >= |a| then b[i] else if i >= |b| then a[i] else join(a[i], b[i])
  {
    seq(if |a| < |b| then |b| else |a|,
        i requires 0 <= i < |a| || 0 <= i < |b| =>
          if i >= |a| then b[i] else if i >= |b| then a[i] else join(a[i], b[i]))
  }

  function VectorOf<T>(join: (T, T) -> T): (seq<T>, seq<T>) -> seq<T> {
    (a, b) => VectorJoin(join, a, b)
  }

  lemma VectorJoinAssociative<T(!new)>(join: (T, T) -> T, x: seq<T>, y: seq<T>, z: seq<T>)
    requires Associative(join)
    ensures VectorJoin(join, x, VectorJoin(join, y, z)) == VectorJoin(join, VectorJoin(join, x, y), z)
  {
    var a := VectorJoin(join, x, VectorJoin(join, y, z));
    var b := VectorJoin(join, VectorJoin(join, x, y), z);
    forall i | 0 <= i < |a| ensures a[i] == b[i] {
      if i < |x| && i < |y| && i < |z| {
        assert join(x[i], join(y[i], z[i])) == join(join(x[i], y[i]), z[i]);
      }
    }
  }

  /** Vectors over a semilattice form a semilattice: a <= b when a is no longer than b and
      each of its elements is below the one of b at the same index. */
  lemma VectorIsSemilattice<T(!new)>(join: (T, T) -> T)
    requires IsSemilattice(join)
    ensures IsSemilattice(VectorOf(join))
    ensures forall a, b :: Leq(VectorOf(join), a, b) <==>
              |a| <= |b| && forall i :: 0 <= i < |a| ==> Leq(join, a[i], b[i])
  {
    var vj := VectorOf(join);
    forall x, y, z ensures vj(x, vj(y, z)) == vj(vj(x, y), z) {
      VectorJoinAssociative(join, x, y, z);
    }
    forall x, y ensures vj(x, y) == vj(y, x) {}
    forall x ensures vj(x, x) == x {}
    forall a, b ensures vj(a, b) == b <==>
                  |a| <= |b| && forall i :: 0 <= i < |a| ==> Leq(join, a[i], b[i]) {
      VectorLeq(join, a, b);
    }
  }

  lemma VectorLeq<T>(join: (T, T) -> T, a: seq<T>, b: seq<T>)
    ensures VectorJoin(join, a, b) == b <==>
              |a| <= |b| && forall i :: 0 <= i < |a| ==> join(a[i], b[i]) == b[i]
  {
    var c := VectorJoin(join, a, b);
    if |a| <= |b| && forall i :: 0 <= i < |a| ==> join(a[i], b[i]) == b[i] {
      assert c == b;
    }
    if c == b {
      forall i | 0 <= i < |a| ensures join(a[i], b[i]) == b[i] { assert c[i] == b[i]; }
    }
  }

  /** Arrays of one fixed length: closed under the join, and a semilattice among themselves,
      ordered element by element. */
  lemma ArrayIsSemilattice<T(!new)>(join: (T, T) -> T, a: seq<T>, b: seq<T>, c: seq<T>)
    requires IsSemilattice(join)
    requires |a| == |b| == |c|
    ensures |VectorJoin(join, a, b)| == |a|
    ensures VectorJoin(join, a, VectorJoin(join, b, c)) == VectorJoin(join, VectorJoin(join, a, b), c)
    ensures VectorJoin(join, a, b) == VectorJoin(join, b, a)
    ensures VectorJoin(join, a, a) == a
    ensures VectorJoin(join, a, b) == b <==> forall i :: 0 <= i < |a| ==> Leq(join, a[i], b[i])
  {
    VectorJoinAssociative(join, a, b, c);
    assert VectorJoin(join, a, b) == VectorJoin(join, b, a);
    VectorLeq(join, a, b);
  }

  // ---------------------------------------------------------------- MapLattice

  function MapJoin<K, V>(join: (V, V) -> V, m: map<K, V>, n: map<K, V>): map<K, V> {
    map k | k in m.Keys + n.Keys ::
      if k !in m then n[k] else if k !in n then m[k] else join(m[k], n[k])
  }

  function MapOf<K, V>(join: (V, V) -> V): (map<K, V>, map<K, V>) -> map<K, V> {
    (m, n) => MapJoin(join, m, n)
  }

  /** Maps into a semilattice form a semilattice: m <= n when n binds every key of m to
      something at least as large. */
  lemma MapIsSemilattice<K(!new), V(!new)>(join: (V, V) -> V)
    requires IsSemilattice(join)
    ensures IsSemilattice(MapOf<K, V>(join))
    ensures forall m: map<K, V>, n :: Leq(MapOf(join), m, n) <==>
              forall k :: k in m ==> k in n && Leq(join, m[k], n[k])
  {
    var mj := MapOf<K, V>(join);
    forall x, y, z ensures mj(x, mj(y, z)) == mj(mj(x, y), z) {
      MapJoinAssociative(join, x, y, z);
    }
    forall x, y ensures mj(x, y) == mj(y, x) {}
    forall x ensures mj(x, x) == x {}
    forall m: map<K, V>, n ensures mj(m, n) == n <==> forall k :: k in m ==> k in n && Leq(join, m[k], n[k]) {
      MapLeq(join, m, n);
    }
  }

  lemma MapJoinAssociative<K, V(!new)>(join: (V, V) -> V, x: map<K, V>, y: map<K, V>, z: map<K, V>)
    requires Associative(join)
    ensures MapJoin(join, x, MapJoin(join, y, z)) == MapJoin(join, MapJoin(join, x, y), z)
  {
    var a := MapJoin(join, x, MapJoin(join, y, z));
    var b := MapJoin(join, MapJoin(join, x, y), z);
    assert a.Keys == b.Keys;
    forall k | k in a ensures a[k] == b[k] {
      if k in x && k in y && k in z {
        assert join(x[k], join(y[k], z[k])) == join(join(x[k], y[k]), z[k]);
      }
    }
  }

  lemma MapLeq<K, V>(join: (V, V) -> V, m: map<K, V>, n: map<K, V>)
    ensures MapJoin(join, m, n) == n <==> forall k :: k in m ==> k in n && join(m[k], n[k]) == n[k]
  {
    var c := MapJoin(join, m, n);
    if c == n {
      forall k | k in m ensures k in n && join(m[k], n[k]) == n[k] { assert k in c; }
    }
    if forall k :: k in m ==> k in n && join(m[k], n[k]) == n[k] {
      assert c.Keys == n.Keys;
      assert c == n;
    }
  }

  // ---------------------------------------------------------- TimestampLattice

  /** The three-way branch: the larger timestamp wins outright; equal or unrelated
      timestamps merge both halves. */
  function TimestampJoin<T(==), V>(tj: (T, T) -> T, vj: (V, V) -> V, a: (T, V), b: (T, V)): (T, V) {
    if Less(tj, a.0, b.0) then b
    else if Less(tj, b.0, a.0) then a
    else (tj(a.0, b.0), vj(a.1, b.1))
  }

  function TimestampOf<T(==), V>(tj: (T, T) -> T, vj: (V, V) -> V): ((T, V), (T, V)) -> (T, V) {
    (a, b) => TimestampJoin(tj, vj, a, b)
  }

  /** Commutative and idempotent whatever the timestamps. */
  lemma TimestampCommutesAndIdempotent<T(!new), V(!new)>(tj: (T, T) -> T, vj: (V, V) -> V)
    requires IsSemilattice(tj) && IsSemilattice(vj)
    ensures Commutative(TimestampOf(tj, vj)) && Idempotent(TimestampOf(tj, vj))
  {
    var join := TimestampOf(tj, vj);
    forall a, b ensures join(a, b) == join(b, a) {
      assert tj(a.0, b.0) == tj(b.0, a.0) && vj(a.1, b.1) == vj(b.1, a.1);
    }
  }

  lemma Absorb<T(!new)>(join: (T, T) -> T, x: T, y: T)
    requires IsSemilattice(join)
    ensures join(x, join(x, y)) == join(x, y) && join(y, join(x, y)) == join(x, y)
    ensures join(join(x, y), x) == join(x, y) && join(join(x, y), y) == join(x, y)
    ensures join(join(x, y), join(x, y)) == join(x, y)
  {
    assert join(x, join(x, y)) == join(join(x, x), y);
    assert join(y, join(y, x)) == join(join(y, y), x);
  }

  /** The arithmetic of the counterexample, from the few facts about joins that it uses. */
  lemma UnrelatedTimestampsCompute<T, V>(tj: (T, T) -> T, vj: (V, V) -> V, t1: T, t2: T, t: T, x: V, z: V)
    requires t == tj(t1, t2) && tj(t1, t) == t && tj(t2, t) == t && tj(t, t) == t
    requires tj(t, t1) == t && tj(t, t2) == t && t != t1 && t != t2
    requires tj(t1, t2) != t2 && tj(t2, t1) != t1
    requires vj(vj(x, z), z) == vj(x, z)
    ensures TimestampJoin(tj, vj, TimestampJoin(tj, vj, (t1, x), (t2, z)), (t, z)) == (t, vj(x, z))
    ensures TimestampJoin(tj, vj, (t1, x), TimestampJoin(tj, vj, (t2, z), (t, z))) == (t, z)
  {
  }

  /** Three elements on which the join is not associative, for any two unrelated timestamps
      and any two values of which the first is not below the second. */
  lemma UnrelatedTimestampsBreakAssociativity<T(!new), V(!new)>(
      tj: (T, T) -> T, vj: (V, V) -> V, t1: T, t2: T, x: V, z: V)
    requires IsSemilattice(tj) && IsSemilattice(vj)
    requires !Leq(tj, t1, t2) && !Leq(tj, t2, t1) && !Leq(vj, x, z)
    ensures var a, b, c := (t1, x), (t2, z), (tj(t1, t2), z);
            && TimestampJoin(tj, vj, TimestampJoin(tj, vj, a, b), c) == (tj(t1, t2), vj(x, z))
            && TimestampJoin(tj, vj, a, TimestampJoin(tj, vj, b, c)) == (tj(t1, t2), z)
            && vj(x, z) != z
  {
    Absorb(tj, t1, t2);
    Absorb(vj, x, z);
    assert tj(t1, t2) == tj(t2, t1);
    UnrelatedTimestampsCompute(tj, vj, t1, t2, tj(t1, t2), x, z);
  }

  lemma UnrelatedTimestampsNotAssociative<T(!new), V(!new)>(
      tj: (T, T) -> T, vj: (V, V) -> V, t1: T, t2: T, x: V, z: V)
    requires IsSemilattice(tj) && IsSemilattice(vj)
    requires !Leq(tj, t1, t2) && !Leq(tj, t2, t1) && !Leq(vj, x, z)
    ensures !Associative(TimestampOf(tj, vj))
  {
    UnrelatedTimestampsBreakAssociativity(tj, vj, t1, t2, x, z);
    NotAssociative(TimestampOf(tj, vj), (t1, x), (t2, z), (tj(t1, t2), z));
  }

  lemma NotAssociative<T(!new)>(join: (T, T) -> T, a: T, b: T, c: T)
    requires join(a, join(b, c)) != join(join(a, b), c)
    ensures !Associative(join)
  {
  }

  lemma TotalTimestampsAssociate<T(!new), V(!new)>(
      tj: (T, T) -> T, vj: (V, V) -> V, a: (T, V), b: (T, V), c: (T, V))
    requires IsSemilattice(tj) && IsSemilattice(vj) && IsTotal(tj)
    ensures TimestampJoin(tj, vj, a, TimestampJoin(tj, vj, b, c))
         == TimestampJoin(tj, vj, TimestampJoin(tj, vj, a, b), c)
  {
    assert tj(a.0, tj(b.0, c.0)) == tj(tj(a.0, b.0), c.0);
    assert vj(a.1, vj(b.1, c.1)) == vj(vj(a.1, b.1), c.1);
    assert Leq(tj, a.0, b.0) || Leq(tj, b.0, a.0);
    assert Leq(tj, b.0, c.0) || Leq(tj, c.0, b.0);
    assert Leq(tj, a.0, c.0) || Leq(tj, c.0, a.0);
  }

  /** The join is associative, so a semilattice, exactly when timestamps are totally ordered.
      The header's remark that vector clocks may be used therefore does not hold. */
  lemma TimestampIsSemilatticeIffTotal<T(!new), V(!new)>(tj: (T, T) -> T, vj: (V, V) -> V, v: V, w: V)
    requires IsSemilattice(tj) && IsSemilattice(vj)
    requires v != w
    ensures Associative(TimestampOf(tj, vj)) <==> IsTotal(tj)
    ensures IsSemilattice(TimestampOf(tj, vj)) <==> IsTotal(tj)
  {
    TimestampCommutesAndIdempotent(tj, vj);
    var join := TimestampOf(tj, vj);
    if IsTotal(tj) {
      forall a, b, c ensures join(a, join(b, c)) == join(join(a, b), c) {
        TotalTimestampsAssociate(tj, vj, a, b, c);
      }
    } else {
      var t1, t2 :| !Leq(tj, t1, t2) && !Leq(tj, t2, t1);
      assert vj(v, w) == vj(w, v);
      if !Leq(vj, v, w) {
        UnrelatedTimestampsNotAssociative(tj, vj, t1, t2, v, w);
      } else {
        UnrelatedTimestampsNotAssociative(tj, vj, t1, t2, w, v);
      }
    }
  }

  /** Over total timestamps the order is lexicographic. */
  lemma TimestampOrderIsLexicographic<T(!new), V(!new)>(
      tj: (T, T) -> T, vj: (V, V) -> V, a: (T, V), b: (T, V))
    requires IsSemilattice(tj) && IsSemilattice(vj) && IsTotal(tj)
    ensures Leq(TimestampOf(tj, vj), a, b) <==> Less(tj, a.0, b.0) || (a.0 == b.0 && Leq(vj, a.1, b.1))
  {
    assert tj(a.0, b.0) == tj(b.0, a.0);
    assert Leq(tj, a.0, b.0) || Leq(tj, b.0, a.0);
  }
}
