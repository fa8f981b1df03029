/** Jump consistent hashing of trace keys onto shards, `consistent_hash.cpp`. */
module JumpHash {

  const TWO_31: int := 0x8000_0000
  const TWO_33: int := 0x2_0000_0000
  const TWO_53: int := 0x20_0000_0000_0000
  const TWO_62: int := 0x4000_0000_0000_0000
  const TWO_64: int := 0x1_0000_0000_0000_0000

  /** Integers up to 2^53 and their multiples by 2^31; all of them are doubles. */
  ghost predicate IsDouble(x: real) {
    || (x == x.Floor as real && 0 <= x.Floor <= TWO_53)
    || (exists n: int :: 0 <= n <= TWO_53 && x == Scaled(n))
  }

  function Scaled(n: int): real {
    (n * TWO_31) as real
  }

  /** What is used of rounding to double precision, in any rounding mode: it is monotone and it
      leaves doubles alone. */
  ghost predicate DoubleRounding(rnd: real -> real) {
    && (forall x, y :: x <= y ==> rnd(x) <= rnd(y))
    && (forall x :: IsDouble(x) ==> rnd(x) == x)
  }

  /** Computing without rounding is one admissible case. */
  lemma ExactArithmetic()
    ensures DoubleRounding(x => x)
  {}

  /** One step of the 64-bit linear congruential generator. */
  function NextKey(key: nat): (k: nat)
    ensures k < TWO_64
  {
    (key * 2862933555777941757 + 1) % TWO_64
  }

  /** Multiplication and division of doubles: the exact result, rounded. */
  function MulDouble(rnd: real -> real, x: real, y: real): real {
    rnd(x * y)
  }

  function DivDouble(rnd: real -> real, x: real, y: real): real
    requires y != 0.0
  {
    rnd(x / y)
  }

  /** The next candidate bucket after b, truncated to an integer. */
  function Jump(rnd: real -> real, b: nat, key: nat): int {
    MulDouble(rnd, (b + 1) as real, DivDouble(rnd, TWO_31 as real, (key / TWO_33 + 1) as real)).Floor
  }

  lemma RoundedBetween(rnd: real -> real, lo: real, x: real, hi: real)
    requires DoubleRounding(rnd) && IsDouble(lo) && IsDouble(hi) && lo <= x <= hi
    ensures lo <= rnd(x) <= hi
  {
    assert rnd(lo) <= rnd(x) <= rnd(hi);
  }

  lemma SmallDoubles(n: int)
    requires 0 <= n <= TWO_53
    ensures IsDouble(n as real) && IsDouble(Scaled(n))
  {}

  lemma ProductMonotone(x: real, f: real, g: real)
    requires 0.0 <= x && f <= g
    ensures x * f <= x * g
  {}

  lemma Shrinks(q: real, d: real)
    requires 0.0 < d
    ensures q < 1.0 ==> q * d < d
  {
    if q < 1.0 { assert (1.0 - q) * d > 0.0; }
  }

  lemma QuotientBounds(t: real, d: real)
    requires 1.0 <= d <= t
    ensures 1.0 <= t / d <= t
  {
    var q := t / d;
    assert q * d == t;
    Shrinks(q, d);
    assert q >= 1.0;
    ProductMonotone(q, 1.0, d);
  }

  lemma FactorBounds(rnd: real -> real, d: real)
    requires DoubleRounding(rnd) && 1.0 <= d <= TWO_31 as real
    ensures 1.0 <= DivDouble(rnd, TWO_31 as real, d) <= TWO_31 as real
  {
    QuotientBounds(TWO_31 as real, d);
    SmallDoubles(1);
    RoundedBetween(rnd, 1.0, TWO_31 as real / d, Scaled(1));
  }

  lemma ProductBetween(x: real, f: real, t: real)
    requires 0.0 <= x && 1.0 <= f <= t
    ensures x <= x * f <= x * t
  {
    ProductMonotone(x, 1.0, f);
    ProductMonotone(x, f, t);
    assert x * 1.0 == x;
  }

  lemma ProductBounds(rnd: real -> real, x: real, f: real, t: real, top: real)
    requires DoubleRounding(rnd) && 0.0 <= x && 1.0 <= f <= t
    requires top == x * t && IsDouble(x) && IsDouble(top)
    ensures x <= MulDouble(rnd, x, f) <= top
  {
    hide DoubleRounding, IsDouble;
    ProductBetween(x, f, t);
    RoundedBetween(rnd, x, x * f, top);
  }

  lemma FloorBetween(lo: int, x: real, hi: int)
    requires lo as real <= x <= hi as real
    ensures lo <= x.Floor <= hi
  {}

  lemma ScaledAsReal(n: int)
    ensures n as real * TWO_31 as real == Scaled(n) == (n * TWO_31) as real
  {}

  lemma DivisorBounds(key: nat)
    requires key < TWO_64
    ensures 1.0 <= (key / TWO_33 + 1) as real <= TWO_31 as real
  {
    assert 0 <= key / TWO_33 < TWO_31;
  }

  /** The scaled product, truncated. */
  lemma TruncatedBounds(rnd: real -> real, n: nat, f: real)
    requires DoubleRounding(rnd) && n <= TWO_31 && 1.0 <= f <= TWO_31 as real
    ensures n <= MulDouble(rnd, n as real, f).Floor <= n * TWO_31
  {
    hide DoubleRounding, IsDouble, MulDouble, Scaled;
    SmallDoubles(n);
    ScaledAsReal(n);
    var hi := n * TWO_31;
    ProductBounds(rnd, n as real, f, TWO_31 as real, Scaled(n));
    FloorBetween(n, MulDouble(rnd, n as real, f), hi);
  }

  /** Every jump goes strictly upwards and stays within 2^62, so the 64-bit j cannot overflow. */
  lemma JumpBounds(rnd: real -> real, b: nat, key: nat)
    requires DoubleRounding(rnd) && b < TWO_31 && key < TWO_64
    ensures b + 1 <= Jump(rnd, b, key) <= (b + 1) * TWO_31 <= TWO_62
  {
    hide DoubleRounding, MulDouble, DivDouble;
    DivisorBounds(key);
    FactorBounds(rnd, (key / TWO_33 + 1) as real);
    TruncatedBounds(rnd, b + 1, DivDouble(rnd, TWO_31 as real, (key / TWO_33 + 1) as real));
  }

  /** The candidate buckets below `limit`, starting from candidate j. */
  ghost function Candidates(rnd: real -> real, j: nat, key: nat, limit: int): (c: seq<nat>)
    requires DoubleRounding(rnd) && limit <= TWO_31
    ensures c == [] <==> limit <= j
    decreases limit - j
  {
    if j >= limit then []
    else
      JumpBounds(rnd, j, NextKey(key));
      [j] + Candidates(rnd, Jump(rnd, j, NextKey(key)), NextKey(key), limit)
  }

  lemma CandidatesNext(rnd: real -> real, j: nat, key: nat, limit: int)
    requires DoubleRounding(rnd) && j < limit <= TWO_31
    ensures j < Jump(rnd, j, NextKey(key)) <= TWO_62
    ensures Candidates(rnd, j, key, limit) ==
            [j] + Candidates(rnd, Jump(rnd, j, NextKey(key)), NextKey(key), limit)
  {
    JumpBounds(rnd, j, NextKey(key));
  }

  /** The shard of a key among `n` buckets: its last candidate below n. */
  ghost function Shard(rnd: real -> real, key: nat, n: int): nat
    requires DoubleRounding(rnd) && 1 <= n <= TWO_31
  {
    var c := Candidates(rnd, 0, key, n);
    c[|c| - 1]
  }

  lemma {:induction false} CandidatesIncrease(rnd: real -> real, j: nat, key: nat, limit: int)
    requires DoubleRounding(rnd) && limit <= TWO_31
    ensures forall i :: 0 <= i < |Candidates(rnd, j, key, limit)| ==> j <= Candidates(rnd, j, key, limit)[i] < limit
    ensures forall i, k :: 0 <= i < k < |Candidates(rnd, j, key, limit)| ==>
              Candidates(rnd, j, key, limit)[i] < Candidates(rnd, j, key, limit)[k]
    decreases limit - j
  {
    if j < limit {
      hide Jump, NextKey, DoubleRounding;
      JumpBounds(rnd, j, NextKey(key));
      var next := Candidates(rnd, Jump(rnd, j, NextKey(key)), NextKey(key), limit);
      CandidatesIncrease(rnd, Jump(rnd, j, NextKey(key)), NextKey(key), limit);
      assert Candidates(rnd, j, key, limit) == [j] + next;
    }
  }

  /** The candidate sequence does not depend on the number of buckets: fewer buckets cut it short. */
  lemma {:induction false} CandidatesPrefix(rnd: real -> real, j: nat, key: nat, n: int, m: int)
    requires DoubleRounding(rnd) && n <= m <= TWO_31
    ensures var c, d := Candidates(rnd, j, key, n), Candidates(rnd, j, key, m);
            c <= d && forall i :: |c| <= i < |d| ==> n <= d[i]
    decreases m - j
  {
    if j < n {
      JumpBounds(rnd, j, NextKey(key));
      CandidatesPrefix(rnd, Jump(rnd, j, NextKey(key)), NextKey(key), n, m);
    } else {
      CandidatesIncrease(rnd, j, key, m);
    }
  }

  /** Minimal movement: with more buckets a key keeps its shard or moves to a new bucket, and it moves
      exactly when one of its candidates is a new bucket. */
  lemma MinimalMovement(rnd: real -> real, key: nat, n: int, m: int)
    requires DoubleRounding(rnd) && 1 <= n <= m <= TWO_31
    ensures Shard(rnd, key, m) == Shard(rnd, key, n) || n <= Shard(rnd, key, m) < m
    ensures Shard(rnd, key, m) != Shard(rnd, key, n) <==> exists c :: c in Candidates(rnd, 0, key, m) && n <= c
  {
    var c, d := Candidates(rnd, 0, key, n), Candidates(rnd, 0, key, m);
    CandidatesPrefix(rnd, 0, key, n, m);
    CandidatesIncrease(rnd, 0, key, n);
    CandidatesIncrease(rnd, 0, key, m);
    if |c| < |d| {
      assert d[|d| - 1] in d && n <= d[|d| - 1];
    } else {
      assert c == d;
    }
  }

  /** Adding one bucket: a key either stays or goes to exactly the new bucket. */
  lemma OneMoreBucket(rnd: real -> real, key: nat, n: int)
    requires DoubleRounding(rnd) && 1 <= n < TWO_31
    ensures Shard(rnd, key, n + 1) == if n in Candidates(rnd, 0, key, n + 1) then n else Shard(rnd, key, n)
  {
    MinimalMovement(rnd, key, n, n + 1);
    CandidatesIncrease(rnd, 0, key, n + 1);
  }

  // ---------------------------------------------------------------------------
  // Candidates in closed form
  // ---------------------------------------------------------------------------

  /** The i-th power of the multiplier. */
  function Power(i: nat): nat {
    if i == 0 then 1 else Power(i - 1) * 2862933555777941757
  }

  /** The sum of the first i powers. */
  function PowerSum(i: nat): nat {
    if i == 0 then 0 else PowerSum(i - 1) + Power(i - 1)
  }

  /** The key after i steps of the generator. */
  function KeyAfter(key: nat, i: nat): nat {
    (Power(i) * key + PowerSum(i)) % 18446744073709551616
  }

  lemma {:induction false} PowerSumNext(i: nat)
    ensures PowerSum(i + 1) == PowerSum(i) * 2862933555777941757 + 1
  {
    if i > 0 { PowerSumNext(i - 1); }
  }

  /** Quotient and remainder are unique. */
  lemma Remainder(x: nat, q: nat, r: nat, m: nat)
    requires x == q * m + r && r < m
    ensures x % m == r
  {
    SameQuotient(x / m, x % m, q, r, m);
  }

  lemma SameQuotient(p: int, s: int, q: int, r: int, m: int)
    requires p * m + s == q * m + r && 0 <= s < m && 0 <= r < m
    ensures p == q && s == r
  {
    assert (p - q) * m == r - s by { assert (p - q) * m == p * m - q * m; }
    AtLeastOnce(p - q, m);
    AtLeastOnce(q - p, m);
    assert (q - p) * m == s - r by { assert (q - p) * m == q * m - p * m; }
  }

  lemma AtLeastOnce(a: int, m: int)
    requires m > 0
    ensures a >= 1 ==> a * m >= m
  {}

  lemma SignOfProduct(a: real, d: real)
    requires d > 0.0
    ensures a < 0.0 ==> a * d < 0.0
    ensures a >= 1.0 ==> a * d >= d
  {
    if a >= 1.0 { assert (a - 1.0) * d >= 0.0; }
  }

  lemma ModuloStep(x: nat, a: nat, m: nat)
    requires m > 0
    ensures ((x % m) * a + 1) % m == (x * a + 1) % m
  {
    var r := x % m;
    var y := r * a + 1;
    Divide(x, m);
    Divide(y, m);
    Regroup(x, x / m, r, y, y / m, y % m, a, m);
    Remainder(x * a + 1, x / m * a + y / m, y % m, m);
  }

  lemma Divide(x: nat, m: nat)
    requires m > 0
    ensures x == x / m * m + x % m && x % m < m
  {}

  lemma Regroup(x: nat, q: nat, r: nat, y: nat, p: nat, s: nat, a: nat, m: nat)
    requires x == q * m + r && y == r * a + 1 && y == p * m + s
    ensures x * a + 1 == (q * a + p) * m + s
  {
    Multiply(q, m, r, a);
    Multiply(q, a, p, m);
  }

  lemma Multiply(q: nat, m: nat, r: nat, a: nat)
    ensures (q * m + r) * a == q * m * a + r * a
    ensures q * m * a == q * a * m
  {}

  lemma Distribute(p: nat, key: nat, s: nat, a: nat)
    ensures (p * key + s) * a + 1 == (p * a) * key + (s * a + 1)
  {}

  lemma KeyAfterNext(key: nat, i: nat)
    ensures NextKey(KeyAfter(key, i)) == KeyAfter(key, i + 1)
  {
    var a, m, x := 2862933555777941757, 18446744073709551616, Power(i) * key + PowerSum(i);
    PowerSumNext(i);
    Distribute(Power(i), key, PowerSum(i), a);
    hide Power, PowerSum;
    ModuloStep(x, a, m);
    PowerNext(i);
  }

  lemma PowerNext(i: nat)
    ensures Power(i + 1) == Power(i) * 2862933555777941757
  {}

  /** The candidate after bucket b for a key of the generator: the rounded product of b + 1 with the rounded
      quotient of 2^31 by one more than the top 31 bits of the key. */
  ghost function After(rnd: real -> real, b: nat, key: nat): int {
    rnd((b + 1) as real * rnd(2147483648.0 / (key / 8589934592 + 1) as real)).Floor
  }

  /** `c` starts with j; each later element is the candidate after the one before, on the next key; and the
      candidate after the last is out of range. */
  ghost predicate Chained(rnd: real -> real, c: seq<nat>, j: nat, key: nat, i: nat, limit: int) {
    && c != [] && c[0] == j
    && (forall t :: 0 < t < |c| ==> c[t] == After(rnd, c[t - 1], KeyAfter(key, i + t)))
    && After(rnd, c[|c| - 1], KeyAfter(key, i + |c|)) >= limit
  }

  lemma JumpIsAfter(rnd: real -> real, b: nat, key: nat)
    ensures Jump(rnd, b, key) == After(rnd, b, key)
  {
    assert TWO_31 as real == 2147483648.0;
    assert DivDouble(rnd, TWO_31 as real, (key / TWO_33 + 1) as real) ==
           rnd(2147483648.0 / (key / 8589934592 + 1) as real);
  }

  lemma {:induction false} CandidatesChained(rnd: real -> real, j: nat, key: nat, i: nat, limit: int)
    requires DoubleRounding(rnd) && j < limit <= TWO_31
    ensures Chained(rnd, Candidates(rnd, j, KeyAfter(key, i), limit), j, key, i, limit)
    decreases limit - j
  {
    hide DoubleRounding, NextKey, Jump, KeyAfter, After, Candidates;
    var k := KeyAfter(key, i);
    CandidatesNext(rnd, j, k, limit);
    KeyAfterNext(key, i);
    JumpIsAfter(rnd, j, NextKey(k));
    var next := Jump(rnd, j, NextKey(k));
    var rest := Candidates(rnd, next, NextKey(k), limit);
    if next < limit {
      CandidatesChained(rnd, next, key, i + 1, limit);
      var c := [j] + rest;
      forall t | 0 < t < |c|
        ensures c[t] == After(rnd, c[t - 1], KeyAfter(key, i + t))
      {
        if t > 1 { assert rest[t - 1] == After(rnd, rest[t - 2], KeyAfter(key, (i + 1) + (t - 1))); }
      }
    } else {
      assert rest == [] && [j] + rest == [j];
    }
  }

  /** The candidates of a key: bucket 0, then one jump after the other, each with the next key of the
      generator, to the last that is a bucket. */
  lemma CandidatesOfKey(rnd: real -> real, key: nat, limit: int)
    requires DoubleRounding(rnd) && key < 18446744073709551616 && 1 <= limit <= 2147483648
    ensures Chained(rnd, Candidates(rnd, 0, key, limit), 0, key, 0, limit)
  {
    hide Candidates, DoubleRounding, Chained, KeyAfter;
    KeyAfterNone(key);
    CandidatesChained(rnd, 0, key, 0, limit);
  }

  lemma KeyAfterNone(key: nat)
    requires key < 18446744073709551616
    ensures KeyAfter(key, 0) == key
  {
    assert Power(0) * key + PowerSum(0) == key;
  }

  /** Without rounding a jump is an integer quotient. */
  lemma ExactAfter(b: nat, key: nat)
    ensures After(x => x, b, key) == (b + 1) * 2147483648 / (key / 8589934592 + 1)
  {
    FloorOfQuotient(b + 1, 2147483648, key / 8589934592 + 1);
  }

  lemma FloorOfQuotient(x: nat, t: nat, d: nat)
    requires d > 0
    ensures (x as real * (t as real / d as real)).Floor == x * t / d
  {
    var q, r := x * t / d, x * t % d;
    assert x * t == q * d + r;
    assert x as real * t as real == q as real * d as real + r as real;
    RealQuotient(x as real, t as real, q as real, r as real, d as real);
  }

  lemma RealQuotient(x: real, t: real, q: real, r: real, d: real)
    requires x * t == q * d + r && 0.0 <= r < d
    ensures x * (t / d) == q + r / d && 0.0 <= r / d < 1.0
  {
    var u, v := t / d, r / d;
    assert u * d == t && v * d == r;
    assert (x * u) * d == x * t;
    assert (q + v) * d == q * d + r;
    SameFactor(x * u, q + v, d);
    SignOfProduct(v, d);
  }

  lemma SameFactor(a: real, b: real, d: real)
    requires d > 0.0 && a * d == b * d
    ensures a == b
  {}

  /** Key 1 among 7 buckets, without rounding: candidates 0 and 6. */
  lemma ShardOfOne()
    ensures DoubleRounding(x => x) && Candidates(x => x, 0, 1, 7) == [0, 6] && Shard(x => x, 1, 7) == 6
  {
    CandidatesOfOne();
    hide Candidates, DoubleRounding;
  }

  lemma JumpsOfOne()
    ensures After(x => x, 0, KeyAfter(1, 1)) == 6 && After(x => x, 6, KeyAfter(1, 2)) == 17
  {
    KeysOfOne();
    ExactAfter(0, KeyAfter(1, 1));
    ExactAfter(6, KeyAfter(1, 2));
    hide KeyAfter, After;
  }

  lemma CandidatesOfOne()
    ensures DoubleRounding(x => x) && Candidates(x => x, 0, 1, 7) == [0, 6]
  {
    ExactArithmetic();
    JumpsOfOne();
    var exact := (x: real) => x;
    hide DoubleRounding, KeyAfter, After, Candidates;
    CandidatesOfKey(exact, 1, 7);
    CandidatesIncrease(exact, 0, 1, 7);
    TwoElements(Candidates(exact, 0, 1, 7), (b: nat, t: nat) => After(exact, b, KeyAfter(1, 0 + t)), 7);
  }

  lemma TwoElements(c: seq<nat>, next: (nat, nat) -> int, limit: int)
    requires c != [] && c[0] == 0 && forall t :: 0 < t < |c| ==> c[t] == next(c[t - 1], t)
    requires next(c[|c| - 1], |c|) >= limit && forall i :: 0 <= i < |c| ==> c[i] < limit
    requires 0 <= next(0, 1) < limit <= next(next(0, 1), 2)
    ensures c == [0, next(0, 1)]
  {
    if |c| >= 3 {
      Element(c, next, 2);
      assert false;
    }
  }

  lemma Element(c: seq<nat>, next: (nat, nat) -> int, t: nat)
    requires 0 < t < |c| && forall t :: 0 < t < |c| ==> c[t] == next(c[t - 1], t)
    ensures c[t] == next(c[t - 1], t)
  {}

  lemma KeysOfOne()
    ensures KeyAfter(1, 1) == 2862933555777941758 && KeyAfter(1, 2) == 7520437575244155655
  {
    assert Power(1) == 2862933555777941757 && PowerSum(1) == 1;
    assert Power(2) == 2862933555777941757 * 2862933555777941757 && PowerSum(2) == 2862933555777941758;
  }

  /** The loop of the source. A non-positive number of buckets gives -1. */
  method JumpConsistentHash(rnd: real -> real, key0: nat, buckets: int) returns (shard: int)
    requires DoubleRounding(rnd) && key0 < TWO_64 && -TWO_31 <= buckets < TWO_31
    ensures buckets <= 0 ==> shard == -1
    ensures 0 < buckets ==> 0 <= shard < buckets && shard == Shard(rnd, key0, buckets)
  {
    hide Jump, NextKey, DoubleRounding, Candidates;
    var b, j := -1, 0;
    var key := key0;
    ghost var passed: seq<nat> := [];
    while j < buckets
      invariant 0 <= j <= TWO_62 && 0 <= key < TWO_64
      invariant j == 0 ==> passed == [] && b == -1
      invariant j > 0 ==> passed != [] && b == passed[|passed| - 1] && 0 <= b < buckets
      invariant Candidates(rnd, 0, key0, buckets) == passed + Candidates(rnd, j, key, buckets)
      decreases buckets - j
    {
      CandidatesNext(rnd, j, key, buckets);
      b := j;
      key := NextKey(key);
      j := Jump(rnd, b, key);
      passed := passed + [b];
    }
    shard := b;
  }

  datatype Result = Ok(shard: int) | ValueError

  /** The Python entry point rejects non-positive bucket counts. */
  method GetShard(rnd: real -> real, key: nat, buckets: int) returns (r: Result)
    requires DoubleRounding(rnd) && key < TWO_64 && -TWO_31 <= buckets < TWO_31
    ensures r == if buckets <= 0 then ValueError else Ok(Shard(rnd, key, buckets))
  {
    if buckets <= 0 {
      return ValueError;
    }
    var shard := JumpConsistentHash(rnd, key, buckets);
    r := Ok(shard);
  }
}
