/** The HyperLogLog sketch against the exact set of keys added, and its estimator over
    the reals. The hash is any function to 64-bit words; the logarithm is any monotone
    function between `1 - 1/x` and `x - 1`. */
module HyperLogLog {
  import opened Words

  type Word = w: nat | w < WORD

  // ---- Bucket and rank of a hash ----

  /** `h >> (64 - bits)`. */
  function Bucket(h: Word, bits: nat): (i: nat)
    requires 1 <= bits <= 63
    ensures i < Pow2(bits)
  {
    BucketInRange(h, bits);
    h / Pow2(64 - bits)
  }

  lemma BucketInRange(h: Word, bits: nat)
    requires 1 <= bits <= 63
    ensures h / Pow2(64 - bits) < Pow2(bits)
  {
    Pow2Of64();
    Pow2Sum(bits, 64 - bits);
    QuotientBound(h, Pow2(bits), Pow2(64 - bits));
  }

  /** `h << bits | 1 << (bits - 1)`, the bit that keeps the word from being zero. */
  function Rest(h: Word, bits: nat): nat
    requires 1 <= bits <= 63
  {
    BitOr(h * Pow2(bits) % WORD, Pow2(bits - 1))
  }

  /** Leading zeros of `x` seen as a word of `width` bits. */
  function LeadingZeros(x: nat, width: nat): (z: nat)
    ensures z <= width
  {
    if width == 0 || x >= Pow2(width - 1) then 0 else 1 + LeadingZeros(x, width - 1)
  }

  function Rank(h: Word, bits: nat): (r: nat)
    requires 1 <= bits <= 63
    ensures 1 <= r <= 65
  {
    LeadingZeros(Rest(h, bits), 64) + 1
  }

  lemma MulMonotone(a: nat, b: nat, c: nat)
    requires a <= b
    ensures a * c <= b * c
  {
  }

  lemma MulSum(a: nat, b: nat, c: nat)
    ensures (a + b) * c == a * c + b * c
  {
  }

  lemma QuotientBound(x: nat, m: nat, n: nat)
    requires n > 0 && x < m * n
    ensures x / n < m
  {
    var k := x / n;
    assert x == n * k + x % n;
    assert k >= m ==> n * k >= n * m;
  }

  /** The bits of the hash below the bucket number. */
  function LowBits(h: Word, bits: nat): (low: nat)
    requires 1 <= bits <= 63
    ensures low < Pow2(64 - bits)
  {
    h % Pow2(64 - bits)
  }

  lemma OrWithEven(x: nat, y: nat)
    requires x > 0 && y > 0
    ensures BitOr(2 * x, y) == y % 2 + 2 * BitOr(x, y / 2)
  {
    assert (2 * x) / 2 == x && (2 * x) % 2 == 0;
  }

  /** `or` with bits below the shifted ones is addition. */
  lemma {:induction false} OrBelowShift(x: nat, bits: nat, y: nat)
    requires y < Pow2(bits)
    ensures BitOr(x * Pow2(bits), y) == x * Pow2(bits) + y
  {
    var p := Pow2(bits);
    if bits > 0 && x > 0 && y > 0 {
      var h := x * Pow2(bits - 1);
      assert x * p == 2 * h;
      MulMonotone(1, Pow2(bits - 1), x);
      OrBelowShift(x, bits - 1, y / 2);
      OrWithEven(h, y);
    }
  }

  /** A product of a quotient-and-remainder split, cut at the word. */
  lemma CutProduct(q: nat, low: nat, n: nat, m: nat)
    requires low < n && n * m == WORD
    ensures (n * q + low) * m % WORD == low * m
  {
    MulSum(n * q, low, m);
    assert n * q * m == (n * m) * q;
    MulMonotone(low + 1, n, m);
    MulSum(low, 1, m);
    ModuloUnique((n * q + low) * m, WORD, q, low * m);
  }

  lemma CutWord(h: nat, n: nat, m: nat)
    requires n > 0 && n * m == WORD
    ensures h * m % WORD == h % n * m
  {
    var q, low := h / n, h % n;
    assert h == n * q + low;
    CutProduct(q, low, n, m);
  }

  /** Shifting left drops the bucket bits. */
  lemma ShiftDropsBucket(h: Word, bits: nat)
    requires 1 <= bits <= 63
    ensures h * Pow2(bits) % WORD == LowBits(h, bits) * Pow2(bits)
  {
    Pow2Of64();
    Pow2Sum(64 - bits, bits);
    CutWord(h, Pow2(64 - bits), Pow2(bits));
  }

  /** Appending bits below a word whose highest bit is one adds no leading zeros. */
  lemma {:induction false} LeadingZerosOfShift(low: nat, width: nat, bits: nat, tail: nat)
    requires low < Pow2(width) && bits >= 1 && Pow2(bits - 1) <= tail < Pow2(bits)
    ensures LeadingZeros(low * Pow2(bits) + tail, width + bits) == LeadingZeros(low, width)
  {
    var p := Pow2(bits);
    if width > 0 {
      var top := Pow2(width - 1);
      Pow2Sum(width - 1, bits);
      assert width + bits - 1 == (width - 1) + bits;
      if low >= top {
        MulMonotone(top, low, p);
      } else {
        MulMonotone(low + 1, top, p);
        MulSum(low, 1, p);
        LeadingZerosOfShift(low, width - 1, bits, tail);
      }
    }
  }

  lemma {:induction false} LeadingZerosMeans(x: nat, width: nat)
    requires x < Pow2(width)
    ensures var z := LeadingZeros(x, width);
            x < Pow2(width - z) && (z < width ==> x >= Pow2(width - z - 1)) && (z == width <==> x == 0)
  {
    if width > 0 && x < Pow2(width - 1) { LeadingZerosMeans(x, width - 1); }
  }

  /** The sentinel bit below shifted bits adds no leading zeros to theirs. */
  lemma SentinelAddsNoZeros(low: nat, bits: nat)
    requires 1 <= bits <= 63 && low < Pow2(64 - bits)
    ensures LeadingZeros(BitOr(low * Pow2(bits), Pow2(bits - 1)), 64) == LeadingZeros(low, 64 - bits)
  {
    Pow2Monotone(bits - 1, bits);
    OrBelowShift(low, bits, Pow2(bits - 1));
    LeadingZerosOfShift(low, 64 - bits, bits, Pow2(bits - 1));
    assert (64 - bits) + bits == 64;
  }

  lemma RankOfLowBits(h: Word, bits: nat)
    requires 1 <= bits <= 63
    ensures Rank(h, bits) == LeadingZeros(LowBits(h, bits), 64 - bits) + 1
  {
    ShiftDropsBucket(h, bits);
    SentinelAddsNoZeros(LowBits(h, bits), bits);
  }

  /** The rank is the position, from the top, of the first one among the bits below the
      bucket number; if they are all zero it is one past their end. */
  lemma RankIsFirstOne(h: Word, bits: nat)
    requires 1 <= bits <= 63
    ensures var low, r := LowBits(h, bits), Rank(h, bits);
            && 1 <= r <= 65 - bits && (r == 65 - bits <==> low == 0)
            && (r < 65 - bits ==> Pow2(64 - bits - r) <= low < Pow2(65 - bits - r))
  {
    RankOfLowBits(h, bits);
    LeadingZerosMeans(LowBits(h, bits), 64 - bits);
  }

  lemma QuotientAndRemainder(h: nat, n: nat)
    requires n > 0
    ensures h / n * n + h % n == h
  {
  }

  /** The bucket number and the bits below it are the whole hash. */
  lemma HashInTwoParts(h: Word, bits: nat)
    requires 1 <= bits <= 63
    ensures Bucket(h, bits) * Pow2(64 - bits) + LowBits(h, bits) == h
  {
    QuotientAndRemainder(h, Pow2(64 - bits));
  }

  /** So they tell any two hashes apart, and hashes are in one bucket exactly if they lie in
      one of the intervals of 2^(64 - bits) words. */
  lemma BucketIsInterval(h: Word, bits: nat, k: nat)
    requires 1 <= bits <= 63
    ensures Bucket(h, bits) == k <==> k * Pow2(64 - bits) <= h < (k + 1) * Pow2(64 - bits)
  {
    var n, b := Pow2(64 - bits), Bucket(h, bits);
    HashInTwoParts(h, bits);
    MulSum(b, 1, n);
    MulSum(k, 1, n);
    if b < k { MulMonotone(b + 1, k, n); }
    if k < b { MulMonotone(k + 1, b, n); }
  }

  lemma PartsTellHashes(h: Word, h': Word, bits: nat)
    requires 1 <= bits <= 63
    ensures Bucket(h, bits) == Bucket(h', bits) && LowBits(h, bits) == LowBits(h', bits) <==> h == h'
  {
    HashInTwoParts(h, bits);
    HashInTwoParts(h', bits);
  }

  lemma Pow2Of54()
    ensures Pow2(54) == 0x40_0000_0000_0000 && Pow2(10) == 0x400
  {
    assert Pow2(9) == 0x200;
    Pow2Sum(9, 9);
    assert Pow2(18) == 0x4_0000;
    Pow2Sum(18, 18);
    Pow2Sum(36, 18);
    Pow2Sum(9, 1);
  }

  /** With 1024 buckets: the intervals are of 2^54 words. */
  lemma BucketOfTenBits(h: Word)
    ensures Bucket(h, 10) == h / 0x40_0000_0000_0000
  {
    Pow2Of54();
  }

  // ---- The sketch stands for a set of keys ----

  /** Each bucket holds the greatest rank of the keys that hash to it, or zero. */
  ghost predicate Represents<K>(buckets: seq<nat>, keys: set<K>, hash: K -> Word, bits: nat)
    requires 1 <= bits <= 63
  {
    && |buckets| == Pow2(bits)
    && (forall key {:trigger Covers(buckets, hash(key), bits)} :: key in keys ==> Covers(buckets, hash(key), bits))
    && (forall i {:trigger Earned(buckets, i, keys, hash, bits)} :: 0 <= i < |buckets| ==>
          Earned(buckets, i, keys, hash, bits))
  }

  ghost predicate Covers(buckets: seq<nat>, h: Word, bits: nat)
    requires 1 <= bits <= 63 && |buckets| == Pow2(bits)
  {
    Rank(h, bits) <= buckets[Bucket(h, bits)]
  }

  ghost predicate Earned<K>(buckets: seq<nat>, i: nat, keys: set<K>, hash: K -> Word, bits: nat)
    requires 1 <= bits <= 63 && i < |buckets|
  {
    buckets[i] == 0 || Witnessed(buckets[i], i, keys, hash, bits)
  }

  ghost predicate Witnessed<K>(rank: nat, i: nat, keys: set<K>, hash: K -> Word, bits: nat)
    requires 1 <= bits <= 63
  {
    exists key :: key in keys && Bucket(hash(key), bits) == i && Rank(hash(key), bits) == rank
  }

  /** The state depends only on the set of keys: order and repeats do not matter. */
  lemma StateIsFunctionOfSet<K>(b: seq<nat>, b': seq<nat>, keys: set<K>, hash: K -> Word, bits: nat)
    requires 1 <= bits <= 63 && Represents(b, keys, hash, bits) && Represents(b', keys, hash, bits)
    ensures b == b'
  {
    BucketsGrowWithKeys(b, b', keys, keys, hash, bits);
    BucketsGrowWithKeys(b', b, keys, keys, hash, bits);
  }

  /** More keys never lower a bucket. */
  lemma BucketsGrowWithKeys<K>(b: seq<nat>, b': seq<nat>, keys: set<K>, keys': set<K>, hash: K -> Word, bits: nat)
    requires 1 <= bits <= 63 && Represents(b, keys, hash, bits) && Represents(b', keys', hash, bits) && keys <= keys'
    ensures |b| == |b'| && forall i :: 0 <= i < |b| ==> b[i] <= b'[i]
  {
    forall i | 0 <= i < |b| ensures b[i] <= b'[i] {
      assert Earned(b, i, keys, hash, bits);
      if b[i] != 0 {
        var key :| key in keys && Bucket(hash(key), bits) == i && Rank(hash(key), bits) == b[i];
        assert key in keys' && Covers(b', hash(key), bits);
      }
    }
  }

  /** The greatest rank up to `limit` among the keys of a bucket, or zero. */
  ghost function GreatestRank<K>(keys: set<K>, hash: K -> Word, bits: nat, i: nat, limit: nat): (r: nat)
    requires 1 <= bits <= 63
    ensures r <= limit && (r != 0 ==> Witnessed(r, i, keys, hash, bits))
    ensures forall key :: key in keys && Bucket(hash(key), bits) == i && Rank(hash(key), bits) <= limit ==>
              Rank(hash(key), bits) <= r
  {
    if limit == 0 then 0
    else if Witnessed(limit, i, keys, hash, bits) then limit
    else GreatestRank(keys, hash, bits, i, limit - 1)
  }

  /** The state of the sketch, as a function of the set of keys. */
  ghost function BucketsOf<K>(keys: set<K>, hash: K -> Word, bits: nat): (buckets: seq<nat>)
    requires 1 <= bits <= 63
    ensures Represents(buckets, keys, hash, bits)
  {
    seq(Pow2(bits), (i: nat) => GreatestRank(keys, hash, bits, i, 65))
  }

  /** Raising one key's bucket to its rank, if that is greater, adds the key. */
  lemma KeyAdded<K>(was: seq<nat>, now: seq<nat>, keys: set<K>, key: K, hash: K -> Word, bits: nat)
    requires 1 <= bits <= 63 && Represents(was, keys, hash, bits)
    requires var i, rank := Bucket(hash(key), bits), Rank(hash(key), bits);
             now == if rank > was[i] then was[i := rank] else was
    ensures Represents(now, keys + {key}, hash, bits)
  {
    forall i | 0 <= i < |now| ensures Earned(now, i, keys + {key}, hash, bits) {
      assert Earned(was, i, keys, hash, bits);
    }
    forall k | k in keys + {key} ensures Covers(now, hash(k), bits) {
      assert k == key || Covers(was, hash(k), bits);
    }
  }

  class HyperLogLog<K> {
    const bucketBits: nat
    const hash: K -> Word
    const buckets: array<nat>
    ghost var keys: set<K>  // the keys added since the last clear

    ghost predicate Valid()
      reads this, buckets
    {
      1 <= bucketBits <= 63 && Represents(buckets[..], keys, hash, bucketBits)
    }

    constructor (bucketBits: nat, hash: K -> Word)
      requires 1 <= bucketBits <= 63
      ensures Valid() && keys == {} && fresh(buckets)
      ensures this.bucketBits == bucketBits && this.hash == hash
    {
      this.bucketBits, this.hash := bucketBits, hash;
      buckets := new nat[Pow2(bucketBits)](i => 0);
      keys := {};
    }

    method Add(key: K)
      requires Valid()
      modifies this, buckets
      ensures Valid() && keys == old(keys) + {key}
    {
      var h := hash(key);
      var bucket, rank := Bucket(h, bucketBits), Rank(h, bucketBits);
      ghost var was := buckets[..];
      KeyAdded(was, if rank > was[bucket] then was[bucket := rank] else was, keys, key, hash, bucketBits);
      if rank > buckets[bucket] {
        buckets[bucket] := rank;
      }
      keys := keys + {key};
    }

    method Clear()
      requires Valid()
      modifies this, buckets
      ensures Valid() && keys == {}
    {
      for i := 0 to buckets.Length
        invariant forall j :: 0 <= j < i ==> buckets[j] == 0
      {
        buckets[i] := 0;
      }
      keys := {};
    }

    function Estimate(ln: real -> real): real
      requires Valid()
      reads this, buckets
    {
      CardinalityOf(buckets[..], ln)
    }
  }

  // ---- The estimator ----

  function EmptyBuckets(buckets: seq<nat>): (z: nat)
    ensures z <= |buckets|
  {
    if buckets == [] then 0
    else EmptyBuckets(buckets[..|buckets| - 1]) + if buckets[|buckets| - 1] == 0 then 1 else 0
  }

  /** `2.powi(-r)`. */
  function NegPow2(r: nat): (x: real)
    ensures 0.0 < x <= 1.0 && (r == 0 <==> x == 1.0) && (r > 0 ==> x <= 0.5)
  {
    if r == 0 then 1.0 else NegPow2(r - 1) / 2.0
  }

  function HarmonicSum(buckets: seq<nat>): (s: real)
    ensures 0.0 <= s <= |buckets| as real && (buckets != [] ==> s > 0.0)
  {
    if buckets == [] then 0.0
    else HarmonicSum(buckets[..|buckets| - 1]) + NegPow2(buckets[|buckets| - 1])
  }

  function Alpha(m: real): real
    requires m >= 1.0
  {
    0.7213 / (1.0 + 1.079 / m)
  }

  function LinearCount(m: real, zeros: real, ln: real -> real): real
    requires zeros > 0.0
  {
    m * ln(m / zeros)
  }

  function RawEstimate(m: real, sum: real): real
    requires m >= 1.0 && sum > 0.0
  {
    Alpha(m) * m * m / sum
  }

  /** Linear counting while more than nine buckets in ten are empty, else the raw
      estimator. */
  function CardinalityOf(buckets: seq<nat>, ln: real -> real): real
    requires buckets != []
  {
    var m, zeros := |buckets| as real, EmptyBuckets(buckets) as real;
    if zeros / m > 0.9 then LinearCount(m, zeros, ln) else RawEstimate(m, HarmonicSum(buckets))
  }

  /** All that is asked of the logarithm. */
  ghost predicate LikeLn(ln: real -> real) {
    && (forall x: real :: x >= 1.0 ==> 1.0 - 1.0 / x <= ln(x) <= x - 1.0)
    && (forall x: real, y: real :: 1.0 <= x <= y ==> ln(x) <= ln(y))
  }

  // ---- The scan decision is exact in buckets ----

  lemma DivideMonotone(a: real, b: real, c: real)
    requires c > 0.0 && a <= b
    ensures a / c <= b / c
  {
  }

  lemma DivideAntitone(a: real, b: real, c: real)
    requires 0.0 <= a && 0.0 < b <= c
    ensures a / c <= a / b
  {
    assert (a / b) * c >= (a / b) * b;
    assert (a / b) * b == a && (a / c) * c == a;
  }

  /** With few buckets touched: 1024 * ln(1024 / zeros) reaches 25 exactly from the
      25th bucket on. */
  lemma LinearDecision(zeros: real, ln: real -> real)
    requires LikeLn(ln) && 922.0 <= zeros <= 1024.0
    ensures zeros <= 999.0 ==> LinearCount(1024.0, zeros, ln) >= 25.0
    ensures zeros >= 1000.0 ==> LinearCount(1024.0, zeros, ln) < 25.0
  {
    var x := 1024.0 / zeros;
    DivideAntitone(1024.0, zeros, 1024.0);
    if zeros <= 999.0 {
      var y := 1024.0 / 999.0;
      DivideAntitone(1024.0, zeros, 999.0);
      assert 1.0 <= y <= x && 1.0 - 1.0 / y <= ln(y) <= ln(x);
      assert 1.0 / y == 999.0 / 1024.0;
    }
    if zeros >= 1000.0 {
      var y := 1024.0 / 1000.0;
      DivideAntitone(1024.0, 1000.0, zeros);
      assert 1.0 <= x <= y && ln(x) <= ln(y) <= y - 1.0;
    }
  }

  lemma RawIsLarge(sum: real)
    requires 0.0 < sum <= 1024.0
    ensures RawEstimate(1024.0, sum) >= 25.0
  {
    assert Alpha(1024.0) >= 0.7;
    var product := Alpha(1024.0) * 1024.0 * 1024.0;
    assert product >= 0.7 * 1024.0 * 1024.0;
    DivideAntitone(product, sum, 1024.0);
    DivideMonotone(0.7 * 1024.0 * 1024.0, product, 1024.0);
  }

  /** With 1024 buckets and the threshold 25, in both regimes of the estimator, a scan is
      reported exactly if 25 buckets or more are touched. */
  lemma ScanDecisionIsExact(buckets: seq<nat>, ln: real -> real)
    requires |buckets| == 1024 && LikeLn(ln)
    ensures CardinalityOf(buckets, ln) >= 25.0 <==> |buckets| - EmptyBuckets(buckets) >= 25
  {
    var z := EmptyBuckets(buckets);
    var zeros := z as real;
    assert zeros / 1024.0 > 0.9 <==> z >= 922;
    if z >= 922 { LinearDecision(zeros, ln); } else { RawIsLarge(HarmonicSum(buckets)); }
  }

  function Touched(buckets: seq<nat>): set<nat> {
    set i | 0 <= i < |buckets| && buckets[i] != 0
  }

  lemma {:induction false} TouchedCount(buckets: seq<nat>)
    ensures |Touched(buckets)| == |buckets| - EmptyBuckets(buckets)
  {
    if buckets != [] {
      var k := |buckets| - 1;
      var shorter := buckets[..k];
      TouchedCount(shorter);
      assert Touched(buckets) == if buckets[k] != 0 then Touched(shorter) + {k} else Touched(shorter);
    }
  }

  /** There are at most as many touched buckets as keys. */
  lemma {:induction false} SetImageNotLarger<K>(touched: set<nat>, keys: set<K>, hash: K -> Word, bits: nat)
    requires 1 <= bits <= 63
    requires forall i :: i in touched ==> exists key :: key in keys && Bucket(hash(key), bits) == i
    ensures |touched| <= |keys|
    decreases touched
  {
    if touched != {} {
      var i :| i in touched;
      var key :| key in keys && Bucket(hash(key), bits) == i;
      forall j | j in touched - {i} ensures exists key' :: key' in keys - {key} && Bucket(hash(key'), bits) == j {
        var key' :| key' in keys && Bucket(hash(key'), bits) == j;
        assert key' in keys - {key};
      }
      SetImageNotLarger(touched - {i}, keys - {key}, hash, bits);
    }
  }

  lemma TouchedAtMostKeys<K>(buckets: seq<nat>, keys: set<K>, hash: K -> Word, bits: nat)
    requires 1 <= bits <= 63 && Represents(buckets, keys, hash, bits)
    ensures |buckets| - EmptyBuckets(buckets) <= |keys|
  {
    TouchedCount(buckets);
    forall i | i in Touched(buckets) ensures exists key :: key in keys && Bucket(hash(key), bits) == i {
      assert Earned(buckets, i, keys, hash, bits);
    }
    SetImageNotLarger(Touched(buckets), keys, hash, bits);
  }

  /** A reported scan touched at least 25 distinct keys. */
  lemma ScanMeansManyKeys<K>(buckets: seq<nat>, keys: set<K>, hash: K -> Word, ln: real -> real)
    requires Represents(buckets, keys, hash, 10) && LikeLn(ln) && |buckets| == 1024
    requires CardinalityOf(buckets, ln) >= 25.0
    ensures |keys| >= 25
  {
    ScanDecisionIsExact(buckets, ln);
    TouchedAtMostKeys(buckets, keys, hash, 10);
  }

  // ---- The estimate never decreases ----

  lemma {:induction false} PointwiseMore(b: seq<nat>, b': seq<nat>)
    requires |b| == |b'| && forall i :: 0 <= i < |b| ==> b[i] <= b'[i]
    ensures EmptyBuckets(b') <= EmptyBuckets(b) && HarmonicSum(b') <= HarmonicSum(b)
  {
    if b != [] {
      var k := |b| - 1;
      PointwiseMore(b[..k], b'[..k]);
      NegPow2Antitone(b[k], b'[k]);
    }
  }

  lemma {:induction false} NegPow2Antitone(r: nat, r': nat)
    requires r <= r'
    ensures NegPow2(r') <= NegPow2(r)
  {
    if r < r' { NegPow2Antitone(r, r' - 1); }
  }

  lemma RatiosGrow(m: real, z: real, z': real)
    requires 0.0 < z' <= z <= m
    ensures 1.0 <= m / z <= m / z'
  {
    SelfRatio(m);
    DivideAntitone(m, z', z);
    DivideAntitone(m, z, m);
  }

  lemma LinearMonotone(m: real, z: real, z': real, ln: real -> real)
    requires LikeLn(ln) && 0.0 < z' <= z <= m
    ensures LinearCount(m, z, ln) <= LinearCount(m, z', ln)
  {
    RatiosGrow(m, z, z');
    var a, b := ln(m / z), ln(m / z');
    assert a <= b;
    TimesMonotone(m, a, b);
  }

  lemma TimesMonotone(c: real, a: real, b: real)
    requires c >= 0.0 && a <= b
    ensures c * a <= c * b
  {
  }

  lemma RatioAbove(a: real, m: real, r: real)
    requires m > 0.0 && a / m > r
    ensures a > r * m
  {
    var x := a / m;
    assert x * m == a;
    assert (x - r) * m > 0.0;
    assert (x - r) * m == x * m - r * m;
  }

  lemma SelfRatio(m: real)
    requires m > 0.0
    ensures m / m == 1.0
  {
    var x := m / m;
    assert x * m == m;
    assert (x - 1.0) * m == x * m - m;
  }

  lemma AlphaRange(m: real)
    requires m >= 1.0
    ensures 0.3 <= Alpha(m) <= 0.7213
  {
    DivideAntitone(1.079, 1.0, m);
    var d := 1.0 + 1.079 / m;
    assert 1.0 <= d <= 2.079;
    DivideAntitone(0.7213, d, 2.079);
    DivideAntitone(0.7213, 1.0, d);
  }

  lemma RawAntitone(m: real, sum: real, sum': real)
    requires m >= 1.0 && 0.0 < sum' <= sum
    ensures RawEstimate(m, sum) <= RawEstimate(m, sum')
  {
    AlphaRange(m);
    var product := Alpha(m) * m * m;
    assert product >= 0.0;
    DivideAntitone(product, sum', sum);
  }

  /** Across the regime switch: a sparse table's linear count is below every raw estimate. */
  lemma LinearBelowRaw(m: real, zeros: real, sum: real, ln: real -> real)
    requires LikeLn(ln) && m >= 1.0 && 0.9 * m < zeros <= m && 0.0 < sum <= m
    ensures LinearCount(m, zeros, ln) <= RawEstimate(m, sum)
  {
    var x := m / zeros;
    DivideAntitone(m, zeros, m);
    DivideAntitone(m, 0.9 * m, zeros);
    assert m / (0.9 * m) == 1.0 / 0.9;
    assert 1.0 <= x <= 1.0 / 0.9;
    assert ln(x) <= x - 1.0 <= 0.12;
    assert m * ln(x) <= m * 0.12;
    AlphaRange(m);
    var product := Alpha(m) * m * m;
    assert Alpha(m) * m >= 0.3 * m;
    assert product >= 0.3 * m * m;
    DivideAntitone(product, sum, m);
    assert product / m == Alpha(m) * m;
  }

  lemma EstimateMonotone(b: seq<nat>, b': seq<nat>, ln: real -> real)
    requires LikeLn(ln) && b != [] && |b| == |b'| && forall i :: 0 <= i < |b| ==> b[i] <= b'[i]
    ensures CardinalityOf(b, ln) <= CardinalityOf(b', ln)
  {
    PointwiseMore(b, b');
    var m := |b| as real;
    var z, z' := EmptyBuckets(b) as real, EmptyBuckets(b') as real;
    DivideMonotone(z', z, m);
    if z / m > 0.9 {
      RatioAbove(z, m, 0.9);
      if z' / m > 0.9 { LinearMonotone(m, z, z', ln); } else { LinearBelowRaw(m, z, HarmonicSum(b'), ln); }
    } else {
      RawAntitone(m, HarmonicSum(b), HarmonicSum(b'));
    }
  }

  /** As keys are added the estimate never decreases, the switch between its regimes
      included. */
  lemma EstimateGrowsWithKeys<K>(b: seq<nat>, b': seq<nat>, keys: set<K>, keys': set<K>, hash: K -> Word, bits: nat,
                                 ln: real -> real)
    requires 1 <= bits <= 63 && LikeLn(ln)
    requires Represents(b, keys, hash, bits) && Represents(b', keys', hash, bits) && keys <= keys'
    ensures b != [] && b' != [] && CardinalityOf(b, ln) <= CardinalityOf(b', ln)
  {
    BucketsGrowWithKeys(b, b', keys, keys', hash, bits);
    EstimateMonotone(b, b', ln);
  }

  // ---- What the estimate is, in numbers ----

  lemma {:induction false} NegPow2Inverts(r: nat)
    ensures NegPow2(r) * Pow2(r) as real == 1.0
  {
    if r > 0 { NegPow2Inverts(r - 1); }
  }

  /** Every touched bucket's rank lies between `r` and `r'`. */
  ghost predicate RanksBetween(buckets: seq<nat>, r: nat, r': nat) {
    forall i :: 0 <= i < |buckets| && buckets[i] != 0 ==> r <= buckets[i] <= r'
  }

  /** The sum of `z` ones and of `t` numbers from `low` to `high`. */
  ghost predicate SumOf(z: nat, t: nat, low: real, high: real, sum: real) {
    z as real + t as real * low <= sum <= z as real + t as real * high
  }

  lemma OneMoreTouched(z: nat, t: nat, low: real, high: real, sum: real, x: real)
    requires SumOf(z, t, low, high, sum) && low <= x <= high
    ensures SumOf(z, t + 1, low, high, sum + x)
  {
    assert (t + 1) as real * low == t as real * low + low;
    assert (t + 1) as real * high == t as real * high + high;
  }

  lemma OneMoreEmpty(z: nat, t: nat, low: real, high: real, sum: real)
    requires SumOf(z, t, low, high, sum)
    ensures SumOf(z + 1, t, low, high, sum + 1.0)
  {
  }

  /** The sum counts each empty bucket once, and each touched one as its rank says. */
  lemma {:induction false} SumBetween(buckets: seq<nat>, r: nat, r': nat)
    requires RanksBetween(buckets, r, r')
    ensures SumOf(EmptyBuckets(buckets), |buckets| - EmptyBuckets(buckets), NegPow2(r'), NegPow2(r),
                  HarmonicSum(buckets))
  {
    if buckets != [] {
      var k := |buckets| - 1;
      var shorter := buckets[..k];
      var z, low, high, sum := EmptyBuckets(shorter), NegPow2(r'), NegPow2(r), HarmonicSum(shorter);
      SumBetween(shorter, r, r');
      if buckets[k] == 0 {
        OneMoreEmpty(z, k - z, low, high, sum);
      } else {
        NegPow2Antitone(r, buckets[k]);
        NegPow2Antitone(buckets[k], r');
        OneMoreTouched(z, k - z, low, high, sum, NegPow2(buckets[k]));
      }
    }
  }

  /** With 1024 buckets the estimate times the sum is 1024 * 1024 times about 0.72054. */
  ghost predicate TimesSum(c: real, sum: real) {
    c >= 0.0 && 0.7205 * 1024.0 * 1024.0 <= c * sum <= 0.7206 * 1024.0 * 1024.0
  }

  lemma RawTimesSum(sum: real)
    requires sum > 0.0
    ensures TimesSum(RawEstimate(1024.0, sum), sum)
  {
    assert 0.7205 <= Alpha(1024.0) <= 0.7206;
    var product := Alpha(1024.0) * 1024.0 * 1024.0;
    var c := product / sum;
    assert c * sum == product;
  }

  lemma WeightTimes(z: real, t: real, x: real, p: real)
    requires x * p == 1.0
    ensures p * (z + t * x) == z * p + t
  {
    assert t * x * p == t * (x * p);
  }

  lemma Rearranged(c: real, p: real, sum: real)
    ensures c * (p * sum) == p * (c * sum)
  {
  }

  lemma AtMostWeight(c: real, sum: real, z: real, t: real, x: real, p: real)
    requires TimesSum(c, sum) && sum <= z + t * x && x * p == 1.0 && p > 0.0
    ensures DenseAtLeast(c, z, t, p)
  {
    WeightTimes(z, t, x, p);
    TimesMonotone(p, sum, z + t * x);
    TimesMonotone(c, p * sum, z * p + t);
    TimesMonotone(p, 0.7205 * 1024.0 * 1024.0, c * sum);
    Rearranged(c, p, sum);
  }

  lemma AtLeastWeight(c: real, sum: real, z: real, t: real, x: real, p: real)
    requires TimesSum(c, sum) && z + t * x <= sum && x * p == 1.0 && p > 0.0
    ensures DenseAtMost(c, z, t, p)
  {
    WeightTimes(z, t, x, p);
    TimesMonotone(p, z + t * x, sum);
    TimesMonotone(c, z * p + t, p * sum);
    TimesMonotone(p, c * sum, 0.7206 * 1024.0 * 1024.0);
    Rearranged(c, p, sum);
  }

  lemma DenseRegime(buckets: seq<nat>, ln: real -> real)
    requires |buckets| == 1024 && 10 * EmptyBuckets(buckets) <= 9 * 1024
    ensures CardinalityOf(buckets, ln) == RawEstimate(1024.0, HarmonicSum(buckets))
  {
    assert EmptyBuckets(buckets) as real / 1024.0 <= 0.9;
  }

  /** `c` is at least 0.7205 * 1024^2 / (z + t / p). */
  ghost predicate DenseAtLeast(c: real, z: real, t: real, p: real) {
    0.7205 * 1024.0 * 1024.0 * p <= c * (z * p + t)
  }

  /** `c` is at most 0.7206 * 1024^2 / (z + t / p). */
  ghost predicate DenseAtMost(c: real, z: real, t: real, p: real) {
    c * (z * p + t) <= 0.7206 * 1024.0 * 1024.0 * p
  }

  /** An estimate `c` for `z` empty buckets and `t` touched ones, two to whose ranks is from `p`
      to `p'`. */
  ghost predicate DenseBounds(c: real, z: real, t: real, p: real, p': real) {
    DenseAtLeast(c, z, t, p) && DenseAtMost(c, z, t, p')
  }

  lemma RawWithin(buckets: seq<nat>, r: nat, r': nat)
    requires buckets != [] && RanksBetween(buckets, r, r')
    ensures DenseBounds(RawEstimate(1024.0, HarmonicSum(buckets)), EmptyBuckets(buckets) as real,
                        (|buckets| - EmptyBuckets(buckets)) as real, Pow2(r) as real, Pow2(r') as real)
  {
    RawTimesSum(HarmonicSum(buckets));
    SumBetween(buckets, r, r');
    Within(RawEstimate(1024.0, HarmonicSum(buckets)), HarmonicSum(buckets), EmptyBuckets(buckets),
           |buckets| - EmptyBuckets(buckets), r, r');
  }

  /** `x` is one over `p`. */
  ghost predicate Inverse(x: real, p: real) {
    p > 0.0 && x * p == 1.0
  }

  lemma PowersInvert(r: nat)
    ensures Inverse(NegPow2(r), Pow2(r) as real)
  {
    NegPow2Inverts(r);
  }

  lemma WithinInverses(c: real, sum: real, z: nat, t: nat, x: real, p: real, x': real, p': real)
    requires TimesSum(c, sum) && SumOf(z, t, x', x, sum) && Inverse(x, p) && Inverse(x', p')
    ensures DenseBounds(c, z as real, t as real, p, p')
  {
    assert DenseAtLeast(c, z as real, t as real, p) by { AtMostWeight(c, sum, z as real, t as real, x, p); }
    assert DenseAtMost(c, z as real, t as real, p') by { AtLeastWeight(c, sum, z as real, t as real, x', p'); }
  }

  lemma Within(c: real, sum: real, z: nat, t: nat, r: nat, r': nat)
    requires TimesSum(c, sum) && SumOf(z, t, NegPow2(r'), NegPow2(r), sum)
    ensures DenseBounds(c, z as real, t as real, Pow2(r) as real, Pow2(r') as real)
  {
    PowersInvert(r);
    PowersInvert(r');
    WithinInverses(c, sum, z, t, NegPow2(r), Pow2(r) as real, NegPow2(r'), Pow2(r') as real);
  }

  /** The dense regime, with a tenth of the 1024 buckets touched or more. */
  lemma DenseEstimate(buckets: seq<nat>, r: nat, r': nat, ln: real -> real)
    requires |buckets| == 1024 && 10 * EmptyBuckets(buckets) <= 9 * 1024 && RanksBetween(buckets, r, r')
    ensures DenseBounds(CardinalityOf(buckets, ln), EmptyBuckets(buckets) as real,
                        (|buckets| - EmptyBuckets(buckets)) as real, Pow2(r) as real, Pow2(r') as real)
  {
    DenseRegime(buckets, ln);
    RawWithin(buckets, r, r');
  }

  lemma OverTotal(c: real, p: real, p': real)
    requires DenseBounds(c, 0.0, 1024.0, p, p')
    ensures 0.7205 * 1024.0 * p <= c <= 0.7206 * 1024.0 * p'
  {
  }

  /** With no bucket empty: the estimate is about 0.72 times 1024 times two to the rank. */
  lemma FullEstimate(buckets: seq<nat>, r: nat, r': nat, ln: real -> real)
    requires |buckets| == 1024 && EmptyBuckets(buckets) == 0 && RanksBetween(buckets, r, r')
    ensures 0.7205 * 1024.0 * Pow2(r) as real <= CardinalityOf(buckets, ln) <= 0.7206 * 1024.0 * Pow2(r') as real
  {
    DenseEstimate(buckets, r, r', ln);
    OverTotal(CardinalityOf(buckets, ln), Pow2(r) as real, Pow2(r') as real);
  }

  lemma SparseRegime(buckets: seq<nat>, ln: real -> real)
    requires buckets != [] && 10 * EmptyBuckets(buckets) > 9 * |buckets|
    ensures CardinalityOf(buckets, ln) == LinearCount(|buckets| as real, EmptyBuckets(buckets) as real, ln)
  {
    AboveRatio(EmptyBuckets(buckets) as real, |buckets| as real);
  }

  /** An estimate of `m - z` touched buckets of `m`: it is their number or more, and at most
      (m - z) * m / z. */
  ghost predicate SparseBounds(c: real, m: real, z: real) {
    m - z <= c && c * z <= (m - z) * m
  }

  /** The sparse regime, with fewer than a tenth of the buckets touched. */
  lemma SparseEstimate(buckets: seq<nat>, ln: real -> real)
    requires LikeLn(ln) && buckets != [] && 10 * EmptyBuckets(buckets) > 9 * |buckets|
    ensures SparseBounds(CardinalityOf(buckets, ln), |buckets| as real, EmptyBuckets(buckets) as real)
  {
    SparseRegime(buckets, ln);
    LinearBetween(|buckets| as real, EmptyBuckets(buckets) as real, ln);
  }

  lemma AboveRatio(z: real, m: real)
    requires m > 0.0 && 10.0 * z > 9.0 * m
    ensures z / m > 0.9
  {
    var x := z / m;
    assert x * m == z;
    assert (x - 0.9) * m > 0.0;
  }

  lemma LowerProduct(m: real, z: real, x: real)
    requires z > 0.0 && x > 0.0 && x * z == m
    ensures m * (1.0 - 1.0 / x) == m - z
  {
    var y := 1.0 / x;
    assert y * x == 1.0;
    assert y * m == y * (x * z) == (y * x) * z;
  }

  lemma UpperProduct(m: real, z: real, x: real, c: real)
    requires z > 0.0 && x * z == m && c <= m * (x - 1.0)
    ensures c * z <= (m - z) * m
  {
    TimesMonotone(z, c, m * (x - 1.0));
    assert z * (m * (x - 1.0)) == m * (x * z) - m * z;
  }

  lemma LinearBetween(m: real, z: real, ln: real -> real)
    requires LikeLn(ln) && 0.0 < z <= m
    ensures SparseBounds(LinearCount(m, z, ln), m, z)
  {
    RatiosGrow(m, m, z);
    SelfRatio(m);
    LogBetween(m / z, ln);
    Product(m, z);
    ProductBetween(m, z, m / z, ln(m / z));
  }

  lemma Product(m: real, z: real)
    requires z > 0.0
    ensures m / z * z == m
  {
  }

  lemma LogBetween(x: real, ln: real -> real)
    requires LikeLn(ln) && x >= 1.0
    ensures 1.0 - 1.0 / x <= ln(x) <= x - 1.0
  {
  }

  lemma ProductBetween(m: real, z: real, x: real, l: real)
    requires 0.0 < z <= m && x >= 1.0 && x * z == m && 1.0 - 1.0 / x <= l <= x - 1.0
    ensures SparseBounds(m * l, m, z)
  {
    LowerProduct(m, z, x);
    TimesMonotone(m, 1.0 - 1.0 / x, l);
    TimesMonotone(m, l, x - 1.0);
    UpperProduct(m, z, x, m * l);
  }
}
