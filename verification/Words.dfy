/** 64-bit machine words, written out over the integers: wrapping, the two's
    complement reading of a word, and the bitwise operators the engine uses. */
module Words {
  const WORD: nat := 0x1_0000_0000_0000_0000
  const HALF_WORD: nat := 0x8000_0000_0000_0000

  function Pow2(n: nat): (r: nat)
    ensures r >= 1
  {
    if n == 0 then 1 else 2 * Pow2(n - 1)
  }

  /** `usize::is_power_of_two` on a 64-bit target. */
  ghost predicate IsPowerOfTwo(x: nat) {
    exists k: nat :: k < 64 && x == Pow2(k)
  }

  /** A word read as `isize`. */
  function ToSigned(w: nat): int {
    if w < HALF_WORD then w else w - WORD
  }

  function BitAnd(x: nat, y: nat): (r: nat)
    ensures r <= y
  {
    if x == 0 || y == 0 then 0
    else (if x % 2 == 1 && y % 2 == 1 then 1 else 0) + 2 * BitAnd(x / 2, y / 2)
  }

  function BitOr(x: nat, y: nat): nat
    decreases x + y
  {
    if x == 0 then y else if y == 0 then x
    else (if x % 2 == 1 || y % 2 == 1 then 1 else 0) + 2 * BitOr(x / 2, y / 2)
  }

  function BitXor(x: nat, y: nat): nat
    decreases x + y
  {
    if x == 0 then y else if y == 0 then x
    else (if x % 2 != y % 2 then 1 else 0) + 2 * BitXor(x / 2, y / 2)
  }

  lemma {:induction false} Pow2Sum(a: nat, b: nat)
    ensures Pow2(a + b) == Pow2(a) * Pow2(b)
  {
    if a > 0 { Pow2Sum(a - 1, b); }
  }

  lemma {:induction false} Pow2Monotone(a: nat, b: nat)
    requires a < b
    ensures Pow2(a) < Pow2(b)
  {
    if a + 1 < b { Pow2Monotone(a, b - 1); }
  }

  lemma Pow2Of64()
    ensures Pow2(64) == WORD && Pow2(63) == HALF_WORD
  {
    assert Pow2(8) == 0x100;
    Pow2Sum(8, 8);
    assert Pow2(16) == 0x1_0000;
    Pow2Sum(16, 16);
    assert Pow2(32) == 0x1_0000_0000;
    Pow2Sum(32, 32);
    Pow2Sum(1, 63);
  }

  lemma HalveModulo(x: nat, m: nat, n: nat)
    requires m > 0 && n == 2 * m
    ensures x % n == x % 2 + 2 * ((x / 2) % m)
  {
    var h := x / 2;
    var q := h / m;
    assert h == m * q + h % m;
    assert x == 2 * h + x % 2;
    assert n * q == 2 * (m * q);
    ModuloUnique(x, n, q, x % 2 + 2 * (h % m));
  }

  lemma ModuloUnique(x: int, m: int, k: int, r: int)
    requires m > 0 && 0 <= r < m && x == m * k + r
    ensures x % m == r && x / m == k
  {
    var d := x / m - k;
    assert m * d == r - x % m by {
      assert x == m * (x / m) + x % m;
      assert m * d == m * (x / m) - m * k;
    }
    assert d >= 1 ==> m * d >= m;
    assert d <= -1 ==> m * d <= -m;
  }

  lemma AndWithOdd(x: nat, y: nat, z: nat)
    requires x > 0 && z == 2 * y + 1
    ensures BitAnd(x, z) == x % 2 + 2 * BitAnd(x / 2, y)
  {
    assert z / 2 == y && z % 2 == 1;
  }

  lemma MaskStep(x: nat, m: nat, n: nat)
    requires x > 0 && m > 0 && n == 2 * m && BitAnd(x / 2, m - 1) == (x / 2) % m
    ensures BitAnd(x, n - 1) == x % n
  {
    AndWithOdd(x, m - 1, n - 1);
    HalveModulo(x, m, n);
  }

  /** Masking with a power of two less one is the remainder. */
  lemma {:induction false} MaskIsModulo(x: nat, k: nat)
    ensures BitAnd(x, Pow2(k) - 1) == x % Pow2(k)
  {
    if x == 0 {
      ModuloUnique(0, Pow2(k), 0, 0);
    } else if k > 0 {
      MaskIsModulo(x / 2, k - 1);
      MaskStep(x, Pow2(k - 1), Pow2(k));
    }
  }

  lemma ResidueOfResidue(x: nat, m: nat, n: nat)
    requires m > 0 && n > 0 && m * n > 0
    ensures x % (m * n) % m == x % m
  {
    var w := m * n;
    var y := x % w;
    var c := n * (x / w) + y / m;
    assert m * (n * (x / w)) == w * (x / w);
    assert m * c == m * (n * (x / w)) + m * (y / m);
    ModuloUnique(x, m, c, y % m);
  }

  /** Wrapping to 64 bits is invisible to a remainder by a smaller power of two. */
  lemma WrapKeepsResidue(x: nat, k: nat)
    requires k <= 64
    ensures x % WORD % Pow2(k) == x % Pow2(k)
  {
    Pow2Of64();
    Pow2Sum(k, 64 - k);
    ResidueOfResidue(x, Pow2(k), Pow2(64 - k));
  }

  // ---- Exclusive or ----

  lemma XorDigits(a: nat, b: nat, x: nat, y: nat)
    requires a < 2 && b < 2
    ensures BitXor(a + 2 * x, b + 2 * y) == (if a != b then 1 else 0) + 2 * BitXor(x, y)
  {
    assert (a + 2 * x) / 2 == x && (b + 2 * y) / 2 == y;
  }

  /** The same word twice cancels. */
  lemma {:induction false} XorCancels(x: nat, y: nat)
    ensures BitXor(BitXor(x, y), y) == x
    decreases x + y
  {
    if x == 0 && y > 0 {
      XorSelf(y);
    } else if x > 0 && y > 0 {
      var bit := if x % 2 != y % 2 then 1 else 0;
      XorCancels(x / 2, y / 2);
      XorDigits(bit, y % 2, BitXor(x / 2, y / 2), y / 2);
    }
  }

  lemma {:induction false} XorSelf(y: nat)
    ensures BitXor(y, y) == 0
  {
    if y > 0 { XorSelf(y / 2); }
  }

  lemma {:induction false} XorCommutes(x: nat, y: nat)
    ensures BitXor(x, y) == BitXor(y, x)
    decreases x + y
  {
    if x > 0 && y > 0 { XorCommutes(x / 2, y / 2); }
  }

  lemma {:induction false} XorInRange(x: nat, y: nat, k: nat)
    requires x < Pow2(k) && y < Pow2(k)
    ensures BitXor(x, y) < Pow2(k)
  {
    if x > 0 && y > 0 { XorInRange(x / 2, y / 2, k - 1); }
  }

  // ---- Numbering ----

  /** A 64-bit counter after `n` wrapping increments. */
  function IdAfter(first: nat, n: nat): nat {
    if n == 0 then first else (IdAfter(first, n - 1) + 1) % WORD
  }

  lemma WrapAdds(x: nat, d: nat)
    ensures (x % WORD + d) % WORD == (x + d) % WORD
  {
    var k := (x + d) / WORD - x / WORD;
    assert x % WORD + d == WORD * k + (x + d) % WORD;
    ModuloUnique(x % WORD + d, WORD, k, (x + d) % WORD);
  }

  /** It has gone `n` further, modulo 2^64. */
  lemma {:induction false} IdAfterIsSum(first: nat, n: nat)
    requires first < WORD
    ensures IdAfter(first, n) == (first + n) % WORD
  {
    if n > 0 {
      IdAfterIsSum(first, n - 1);
      WrapAdds(first + (n - 1), 1);
    }
  }
}
