/**
 JavaScript's 32-bit integer operators on values that fit: two's complement, bit by bit. Used by
 the limb selection and the byte packing of x25519.js.
 */
module Int32 {

  function Pow2(n: nat): (p: nat)
    ensures p > 0
  {
    if n == 0 then 1 else 2 * Pow2(n - 1)
  }

  const MIN: int := -0x8000_0000
  const LIMIT: int := 0x8000_0000
  const MODULUS: int := 0x1_0000_0000

  predicate Fits(x: int) {
    MIN <= x < LIMIT
  }

  function Unsigned(x: int): nat
    requires Fits(x)
  {
    if x < 0 then x + MODULUS else x
  }

  function Signed(u: nat): (x: int)
    requires u < MODULUS
    ensures Fits(x)
  {
    if u >= LIMIT then u - MODULUS else u
  }

  // ---- bits of naturals ---------------------------------------------------------------------

  function XorBits(n: nat, x: nat, y: nat): (r: nat)
    ensures r < Pow2(n)
  {
    if n == 0 then 0 else (if x % 2 == y % 2 then 0 else 1) + 2 * XorBits(n - 1, x / 2, y / 2)
  }

  function AndBits(n: nat, x: nat, y: nat): (r: nat)
    ensures r < Pow2(n)
  {
    if n == 0 then 0 else (if x % 2 == 1 && y % 2 == 1 then 1 else 0) + 2 * AndBits(n - 1, x / 2, y / 2)
  }

  function OrBits(n: nat, x: nat, y: nat): (r: nat)
    ensures r < Pow2(n)
  {
    if n == 0 then 0 else (if x % 2 == 1 || y % 2 == 1 then 1 else 0) + 2 * OrBits(n - 1, x / 2, y / 2)
  }

  lemma {:induction false} XorCancels(n: nat, x: nat, y: nat)
    requires y < Pow2(n)
    ensures XorBits(n, x, XorBits(n, x, y)) == y
  {
    if n > 0 {
      XorCancels(n - 1, x / 2, y / 2);
      var r := XorBits(n, x, y);
      assert r / 2 == XorBits(n - 1, x / 2, y / 2);
    }
  }

  lemma {:induction false} XorCommutes(n: nat, x: nat, y: nat)
    ensures XorBits(n, x, y) == XorBits(n, y, x)
  {
    if n > 0 { XorCommutes(n - 1, x / 2, y / 2); }
  }

  lemma {:induction false} XorZero(n: nat, x: nat)
    requires x < Pow2(n)
    ensures XorBits(n, x, 0) == x
  {
    if n > 0 { XorZero(n - 1, x / 2); }
  }

  lemma {:induction false} AndOnes(n: nat, x: nat)
    requires x < Pow2(n)
    ensures AndBits(n, Pow2(n) - 1, x) == x
  {
    if n > 0 {
      AndOnes(n - 1, x / 2);
      assert (Pow2(n) - 1) / 2 == Pow2(n - 1) - 1;
    }
  }

  lemma {:induction false} AndZero(n: nat, x: nat)
    ensures AndBits(n, 0, x) == 0
  {
    if n > 0 { AndZero(n - 1, x / 2); }
  }

  /** Masking with k ones is the remainder by 2^k. */
  lemma {:induction false} AndMaskBits(n: nat, k: nat, x: nat)
    requires k <= n
    ensures AndBits(n, x, Pow2(k) - 1) == x % Pow2(k)
  {
    if k == 0 {
      AndNothing(n, x);
    } else {
      AndMaskBits(n - 1, k - 1, x / 2);
      AndMaskStep(n, k, x);
    }
  }

  lemma AndMaskStep(n: nat, k: nat, x: nat)
    requires 0 < k <= n && AndBits(n - 1, x / 2, Pow2(k - 1) - 1) == (x / 2) % Pow2(k - 1)
    ensures AndBits(n, x, Pow2(k) - 1) == x % Pow2(k)
  {
    hide Pow2;
    MaskHalves(k);
    HalfRemainder(x, Pow2(k - 1));
  }

  lemma MaskHalves(k: nat)
    requires k > 0
    ensures Pow2(k) == 2 * Pow2(k - 1) && (Pow2(k) - 1) / 2 == Pow2(k - 1) - 1 && (Pow2(k) - 1) % 2 == 1
  {
  }

  lemma {:induction false} AndNothing(n: nat, x: nat)
    ensures AndBits(n, x, 0) == 0
  {
    if n > 0 { AndNothing(n - 1, x / 2); }
  }

  lemma HalfRemainder(x: nat, m: nat)
    requires m > 0
    ensures x % (2 * m) == x % 2 + 2 * ((x / 2) % m)
  {
    var q, r := (x / 2) / m, (x / 2) % m;
    assert x / 2 == m * q + r;
    assert x == 2 * m * q + (2 * r + x % 2);
    DivRemUnique(x, 2 * m, q, 2 * r + x % 2);
  }

  lemma MulAtLeast(m: int, d: int)
    requires m > 0 && d >= 1
    ensures m * d >= m
  {
    assert m * d == m + m * (d - 1);
  }

  lemma MulOrder(a: int, b: int, m: int)
    requires m > 0
    ensures a >= b <==> a * m >= b * m
  {
    if a >= b {
      assert a * m - b * m == (a - b) * m;
    } else {
      MulAtLeast(m, b - a);
      assert b * m - a * m == m * (b - a);
    }
  }

  lemma DivRemUnique(x: int, m: int, q: int, r: int)
    requires m > 0 && x == m * q + r && 0 <= r < m
    ensures x / m == q && x % m == r
  {
    var q' := x / m;
    assert x == q' * m + x % m;
    assert (q' + 1) * m == q' * m + m && (q + 1) * m == q * m + m;
    MulOrder(q, q' + 1, m);
    MulOrder(q', q + 1, m);
  }

  lemma HalfThenDivide(x: nat, m: nat)
    requires m > 0
    ensures x / (2 * m) == x / 2 / m
  {
    var q, r := x / 2 / m, x / 2 % m;
    assert x / 2 == m * q + r;
    DivRemUnique(x, 2 * m, q, 2 * r + x % 2);
  }

  // ---- the operators ----------------------------------------------------------------------------

  function Not(x: int): int
    requires Fits(x)
  {
    -x - 1
  }

  function Xor(x: int, y: int): (r: int)
    requires Fits(x) && Fits(y)
    ensures Fits(r)
  {
    PowersOfTwo();
    Signed(XorBits(32, Unsigned(x), Unsigned(y)))
  }

  function And(x: int, y: int): (r: int)
    requires Fits(x) && Fits(y)
    ensures Fits(r)
  {
    PowersOfTwo();
    Signed(AndBits(32, Unsigned(x), Unsigned(y)))
  }

  function Or(x: int, y: int): (r: int)
    requires Fits(x) && Fits(y)
    ensures Fits(r)
  {
    PowersOfTwo();
    Signed(OrBits(32, Unsigned(x), Unsigned(y)))
  }

  /** `x >> k`: the sign bit is copied in, so it rounds down. */
  function Shr(x: int, k: nat): int
    requires Fits(x)
  {
    x / Pow2(k)
  }

  lemma PowersOfTwo()
    ensures Pow2(1) == 2 && Pow2(3) == 8 && Pow2(7) == 128 && Pow2(8) == 256
    ensures Pow2(15) == 0x8000 && Pow2(16) == 0x1_0000 && Pow2(32) == MODULUS
  {
    assert Pow2(4) == 16;
    assert Pow2(8) == 16 * Pow2(4);
    assert Pow2(12) == 16 * Pow2(8);
    assert Pow2(16) == 16 * Pow2(12);
    assert Pow2(20) == 16 * Pow2(16);
    assert Pow2(24) == 16 * Pow2(20);
    assert Pow2(28) == 16 * Pow2(24);
    assert Pow2(32) == 16 * Pow2(28);
  }

  lemma UnsignedSigned(u: nat)
    requires u < MODULUS
    ensures Unsigned(Signed(u)) == u
  {
  }

  /** `x ^ (x ^ y)` is `y`: the masked exchange of `sel25519` is exact. */
  lemma XorExchanges(x: int, y: int)
    requires Fits(x) && Fits(y)
    ensures Xor(x, Xor(x, y)) == y && Xor(y, Xor(x, y)) == x
  {
    PowersOfTwo();
    var u, v := Unsigned(x), Unsigned(y);
    UnsignedSigned(XorBits(32, u, v));
    XorCancels(32, u, v);
    XorCommutes(32, u, v);
    XorCancels(32, v, u);
  }

  lemma XorWithZero(x: int)
    requires Fits(x)
    ensures Xor(x, 0) == x
  {
    PowersOfTwo();
    XorZero(32, Unsigned(x));
  }

  lemma AndAllOrNothing(x: int)
    requires Fits(x)
    ensures And(-1, x) == x && And(0, x) == 0
  {
    PowersOfTwo();
    AndOnes(32, Unsigned(x));
    AndZero(32, Unsigned(x));
  }

  lemma AndMask(x: int, k: nat)
    requires Fits(x) && k < 31
    ensures Fits(Pow2(k) - 1)
    ensures And(x, Pow2(k) - 1) == x % Pow2(k)
  {
    PowersOfTwo();
    Pow2Below(k, 30);
    AndMaskBits(32, k, Unsigned(x));
    if x < 0 {
      Pow2Splits(32 - k, k);
      ModShift(x, Pow2(32 - k), Pow2(k));
    }
  }

  lemma ModShift(x: int, q: int, m: int)
    requires m > 0
    ensures (x + q * m) % m == x % m
  {
    DivRemUnique(x + q * m, m, x / m + q, x % m);
  }

  lemma {:induction false} Pow2Below(k: nat, n: nat)
    requires k <= n
    ensures Pow2(k) <= Pow2(n)
    ensures n == 30 ==> Pow2(n) == 0x4000_0000
    decreases n - k
  {
    if k < n { Pow2Below(k + 1, n); }
    PowersOfTwo();
    assert Pow2(32) == 2 * Pow2(31) && Pow2(31) == 2 * Pow2(30);
  }

  lemma {:induction false} Pow2Splits(m: nat, n: nat)
    ensures Pow2(m + n) == Pow2(m) * Pow2(n)
  {
    if m > 0 {
      Pow2Splits(m - 1, n);
      assert Pow2(m + n) == 2 * Pow2(m - 1 + n);
    }
  }
}
