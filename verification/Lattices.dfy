/** The lattice classes of src/lattices, which join another instance into themselves in
    place. Each `Join` is proved equal to the join function of module Semilattices on the
    values the two objects held before the call, also when an object is joined into itself.
    A component's own join, a template parameter in the source, is the field `join`. */
module Lattices {
  import opened Options
  import opened Semilattices

  class MaxLattice<T> {
    var x: T
    const lt: (T, T) -> bool

    constructor (lt: (T, T) -> bool, x: T)
      ensures this.x == x && this.lt == lt
    {
      this.lt, this.x := lt, x;
    }

    method Join(l: MaxLattice<T>)
      modifies this`x
      ensures x == MaxOf(lt)(old(x), old(l.x))
    {
      if lt(x, l.x) {
        x := l.x;
      }
    }
  }

  class PairLattice<L, R> {
    var p: (L, R)
    const joinLeft: (L, L) -> L
    const joinRight: (R, R) -> R

    constructor (joinLeft: (L, L) -> L, joinRight: (R, R) -> R, p: (L, R))
      ensures this.p == p && this.joinLeft == joinLeft && this.joinRight == joinRight
    {
      this.joinLeft, this.joinRight, this.p := joinLeft, joinRight, p;
    }

    method Join(l: PairLattice<L, R>)
      modifies this`p
      ensures p == PairOf(joinLeft, joinRight)(old(p), old(l.p))
    {
      p := (joinLeft(p.0, l.p.0), p.1);
      p := (p.0, joinRight(p.1, l.p.1));
    }
  }

  class TimestampLattice<T(==), V> {
    var p: (T, V)
    const joinTimestamp: (T, T) -> T
    const joinValue: (V, V) -> V

    constructor (joinTimestamp: (T, T) -> T, joinValue: (V, V) -> V, p: (T, V))
      ensures this.p == p && this.joinTimestamp == joinTimestamp && this.joinValue == joinValue
    {
      this.joinTimestamp, this.joinValue, this.p := joinTimestamp, joinValue, p;
    }

    method Join(l: TimestampLattice<T, V>)
      modifies this`p
      ensures p == TimestampOf(joinTimestamp, joinValue)(old(p), old(l.p))
    {
      if Less(joinTimestamp, p.0, l.p.0) {
        p := l.p;
      } else if Less(joinTimestamp, l.p.0, p.0) {
      } else {
        p := (joinTimestamp(p.0, l.p.0), p.1);
        p := (p.0, joinValue(p.1, l.p.1));
      }
    }
  }

  class VectorLattice<T> {
    var xs: seq<T>
    const join: (T, T) -> T

    constructor (join: (T, T) -> T, xs: seq<T>)
      ensures this.xs == xs && this.join == join
    {
      this.join, this.xs := join, xs;
    }

    method Join(l: VectorLattice<T>)
      modifies this`xs
      ensures xs == VectorOf(join)(old(xs), old(l.xs))
    {
      ghost var a, b := xs, l.xs;
      var i := 0;
      while i < |xs| && i < |l.xs|
        invariant 0 <= i && (i <= |a| && i <= |b|)
        invariant |xs| == |a| && |l.xs| == |b|
        invariant forall k :: 0 <= k < i ==> xs[k] == join(a[k], b[k])
        invariant forall k :: i <= k < |a| ==> xs[k] == a[k]
        invariant forall k :: i <= k < |b| ==> l.xs[k] == b[k]
      {
        xs := xs[i := join(xs[i], l.xs[i])];
        i := i + 1;
      }
      if |xs| < |l.xs| {
        xs := xs + l.xs[|xs|..];
      }
      assert xs == VectorJoin(join, a, b);
    }
  }

  class ArrayLattice<T> {
    const xs: array<T>
    const join: (T, T) -> T

    constructor (join: (T, T) -> T, xs: array<T>)
      ensures this.xs == xs && this.join == join
    {
      this.join, this.xs := join, xs;
    }

    method Join(l: ArrayLattice<T>)
      requires l.xs.Length == xs.Length
      modifies xs
      ensures xs[..] == VectorOf(join)(old(xs[..]), old(l.xs[..]))
    {
      ghost var a, b := xs[..], l.xs[..];
      for i := 0 to xs.Length
        invariant forall k :: 0 <= k < i ==> xs[k] == join(a[k], b[k])
        invariant forall k :: i <= k < xs.Length ==> xs[k] == a[k] && l.xs[k] == b[k]
      {
        xs[i] := join(xs[i], l.xs[i]);
      }
      assert xs[..] == VectorJoin(join, a, b);
    }
  }

  /** One turn of the map join: `key` leaves the keys still to be visited. */
  lemma MapJoinStep<K, V>(join: (V, V) -> V, m: map<K, V>, n: map<K, V>, todo: set<K>, key: K)
    requires key in todo && todo <= n.Keys
    ensures var c := MapJoin(join, m, n - todo);
            MapJoin(join, m, n - (todo - {key})) ==
              c[key := if key in c then join(c[key], n[key]) else n[key]]
  {
  }

  class MapLattice<K(==), V> {
    var kvs: map<K, V>
    const join: (V, V) -> V

    constructor (join: (V, V) -> V)
      ensures kvs == map[] && this.join == join
    {
      this.join, kvs := join, map[];
    }

    /** The keys of `l` come in whatever order its hash table yields them. */
    method Join(l: MapLattice<K, V>)
      modifies this`kvs
      ensures kvs == MapOf(join)(old(kvs), old(l.kvs))
    {
      ghost var m, n := kvs, l.kvs;
      var todo := l.kvs.Keys;
      assert kvs == MapJoin(join, m, n - todo);
      while todo != {}
        invariant todo <= n.Keys && todo <= l.kvs.Keys
        invariant forall k :: k in todo ==> l.kvs[k] == n[k]
        invariant kvs == MapJoin(join, m, n - todo)
        decreases |todo|
      {
        var key :| key in todo;
        var value := l.kvs[key];
        MapJoinStep(join, m, n, todo, key);
        if key !in kvs {
          kvs := kvs[key := value];
        } else {
          kvs := kvs[key := join(kvs[key], value)];
        }
        todo := todo - {key};
      }
      assert n - todo == n;
    }

    /** `unordered_map::at`, which throws when the key is not bound. */
    method Get(key: K) returns (r: Option<V>)
      ensures r == if key in kvs then Some(kvs[key]) else None
    {
      if key in kvs {
        r := Some(kvs[key]);
      } else {
        r := None;
      }
    }

    method Put(key: K, val: V)
      modifies this`kvs
      ensures kvs == MapOf(join)(old(kvs), map[key := val])
    {
      ghost var m := kvs;
      if key !in kvs {
        kvs := kvs[key := val];
      } else {
        kvs := kvs[key := join(kvs[key], val)];
      }
      assert kvs == MapJoin(join, m, map[key := val]);
    }
  }
}
