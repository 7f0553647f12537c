/** `std::to_string` and `std::stoi` on the strings a server builds for a begin timestamp,
    and what that construction guarantees about the numbers it hands out. */
module Decimals {
  import opened Options

  const INT_MAX := 0x7fff_ffff

  function Digit(d: nat): char
    requires d < 10
  {
    '0' + d as char
  }

  /** `std::to_string` of a non-negative number. */
  function ToString(n: nat): string {
    if n < 10 then [Digit(n)] else ToString(n / 10) + [Digit(n % 10)]
  }

  ghost predicate AllDigits(s: string) {
    forall i :: 0 <= i < |s| ==> '0' <= s[i] <= '9'
  }

  function ParseDigits(s: string): nat
    requires AllDigits(s)
  {
    if s == [] then 0
    else ParseDigits(s[..|s| - 1]) * 10 + (s[|s| - 1] as int - '0' as int)
  }

  /** `std::stoi` on digits: throws `out_of_range` when the number does not fit an int. */
  function Stoi(s: string): Option<int>
    requires AllDigits(s) && s != []
  {
    var n := ParseDigits(s);
    if n <= INT_MAX then Some(n) else None
  }

  lemma {:induction false} ToStringParses(n: nat)
    ensures AllDigits(ToString(n)) && ToString(n) != []
    ensures ParseDigits(ToString(n)) == n
  {
    if n >= 10 {
      ToStringParses(n / 10);
      var s := ToString(n);
      assert s[..|s| - 1] == ToString(n / 10);
    } else {
      assert ToString(n)[..0] == [];
    }
  }

  function Pow10(e: nat): nat {
    if e == 0 then 1 else 10 * Pow10(e - 1)
  }

  lemma TimesTen(x: nat, p: nat, y: nat)
    ensures (x * p + y) * 10 == x * (10 * p) + y * 10
  {
  }

  lemma {:induction false} ParseConcat(a: string, b: string)
    requires AllDigits(a) && AllDigits(b)
    ensures AllDigits(a + b)
    ensures ParseDigits(a + b) == ParseDigits(a) * Pow10(|b|) + ParseDigits(b)
  {
    if b == [] {
      assert a + b == a;
    } else {
      var b' := b[..|b| - 1];
      ParseConcat(a, b');
      assert (a + b)[..|a + b| - 1] == a + b';
      TimesTen(ParseDigits(a), Pow10(|b'|), ParseDigits(b'));
    }
  }

  /** The text handed to `stoi`: the two decimals side by side. */
  function StampText(local: nat, thread: nat): (s: string)
    ensures AllDigits(s) && s != []
  {
    ToStringParses(local);
    ToStringParses(thread);
    ToString(local) + ToString(thread)
  }

  /** The number a begin request is answered with, when it fits an int. */
  function BeginTimestamp(local: nat, thread: nat): Option<int> {
    Stoi(StampText(local, thread))
  }

  lemma StampValue(local: nat, thread: nat)
    ensures ParseDigits(StampText(local, thread)) == local * Pow10(|ToString(thread)|) + thread
  {
    ToStringParses(local);
    ToStringParses(thread);
    ParseConcat(ToString(local), ToString(thread));
  }

  /** With one-digit thread ids the answer is 10 * local + thread, or an exception if that
      exceeds an int. */
  lemma BeginTimestampSmallIds(local: nat, thread: nat)
    requires thread < 10
    ensures BeginTimestamp(local, thread) ==
              if 10 * local + thread <= INT_MAX then Some(10 * local + thread) else None
  {
    StampValue(local, thread);
    assert |ToString(thread)| == 1;
    assert Pow10(1) == 10;
  }

  /** With the four threads of the source, exactly the local timestamps up to 214748364 can
      be answered. */
  lemma FourThreadsLimit(local: nat, thread: nat)
    requires thread < 4
    ensures BeginTimestamp(local, thread).Some? <==> local <= 214748364
  {
    BeginTimestampSmallIds(local, thread);
  }

  /** Timestamps of one thread increase with its local counter. */
  lemma BeginTimestampsIncrease(l1: nat, l2: nat, thread: nat)
    requires l1 < l2
    requires BeginTimestamp(l1, thread).Some? && BeginTimestamp(l2, thread).Some?
    ensures BeginTimestamp(l1, thread).value < BeginTimestamp(l2, thread).value
  {
    StampValue(l1, thread);
    StampValue(l2, thread);
    var p := Pow10(|ToString(thread)|);
    Pow10Positive(|ToString(thread)|);
    assert l1 * p < l2 * p by { MulStrictlyMonotone(l1, l2, p); }
  }

  lemma Pow10Positive(e: nat)
    ensures Pow10(e) >= 1
  {
  }

  lemma MulStrictlyMonotone(a: nat, b: nat, c: nat)
    requires a < b && c >= 1
    ensures a * c < b * c
  {
    if c > 1 {
      MulStrictlyMonotone(a, b, c - 1);
      assert a * c == a * (c - 1) + a && b * c == b * (c - 1) + b;
    }
  }

  ghost predicate TimestampsUnique(numThreads: nat) {
    forall l1: nat, t1: nat, l2: nat, t2: nat ::
      t1 < numThreads && t2 < numThreads &&
      BeginTimestamp(l1, t1).Some? && BeginTimestamp(l1, t1) == BeginTimestamp(l2, t2)
      ==> l1 == l2 && t1 == t2
  }

  /** Distinct begin requests get distinct timestamps exactly when there are at most ten
      threads; with eleven, thread 10 at 1 and thread 0 at 11 are both answered 110. */
  lemma TimestampsUniqueIff(numThreads: nat)
    ensures TimestampsUnique(numThreads) <==> numThreads <= 10
  {
    if numThreads <= 10 {
      forall l1: nat, t1: nat, l2: nat, t2: nat |
        t1 < numThreads && t2 < numThreads &&
        BeginTimestamp(l1, t1).Some? && BeginTimestamp(l1, t1) == BeginTimestamp(l2, t2)
        ensures l1 == l2 && t1 == t2
      {
        BeginTimestampSmallIds(l1, t1);
        BeginTimestampSmallIds(l2, t2);
      }
    } else {
      StampValue(1, 10);
      StampValue(11, 0);
      assert ToString(10) == [Digit(1)] + [Digit(0)] && ToString(0) == [Digit(0)];
      assert Pow10(1) == 10 && Pow10(2) == 100;
      assert BeginTimestamp(1, 10) == Some(110) && BeginTimestamp(11, 0) == Some(110);
      assert !TimestampsUnique(numThreads);
    }
  }
}
