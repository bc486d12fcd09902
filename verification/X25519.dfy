/**
 x25519.js: Curve25519 scalar multiplication on sixteen limbs held in doubles, in place. Every
 double the code forms is passed through `Dbl`, which demands that it is an integer a double
 holds exactly, and every 32-bit operand through `Int32`'s range.
 */
module X25519 {
  import opened Int32
  import opened Field25519

  const EXACT: int := 0x20_0000_0000_0000

  /** The result of a double operation; exact because it is at most 2^53. */
  function Dbl(x: int): int
    requires -EXACT <= x <= EXACT
  {
    x
  }

  // ---- carrying ---------------------------------------------------------------------------

  predicate Bounded(s: seq<int>, k: int) {
    |s| == 16 && forall i | 0 <= i < 16 :: -k <= s[i] <= k
  }

  const CARRY_LIMIT: int := 0x8000_0000_0000  // 2^47

  /**
   The effect of one carry pass: the number's digits modulo 2^256, with what was above (or
   below) them returned to the lowest limb 38-fold, as 2^256 is 38 in the field.
   */
  ghost predicate IsCarried(s: seq<int>, s': seq<int>) {
    |s| == 16 && |s'| == 16
    && var v := Value(s);
       Digits(s'[0 := s'[0] - 38 * (v / TWO256)]) && Value(s'[0 := s'[0] - 38 * (v / TWO256)]) == v % TWO256
  }

  method Carry(o: array<int>)
    requires o.Length == 16 && Bounded(o[..], CARRY_LIMIT)
    modifies o
    ensures IsCarried(old(o[..]), o[..])
  {
    ghost var v := Value(o[..]);
    var i := 0;
    var c := 0;
    while i < 15
      invariant 0 <= i <= 15
      invariant Value(o[..]) == v
      invariant forall j | 0 <= j < i :: Digit(o[j])
      invariant forall j | i < j < 16 :: o[j] == old(o[j])
      invariant old(o[i]) - 0x1_0000_0000 <= o[i] <= old(o[i]) + 0x1_0000_0000
    {
      ghost var before := o[..];
      ghost var x := o[i];
      assert -CARRY_LIMIT <= old(o[..])[i] <= CARRY_LIMIT && -CARRY_LIMIT <= old(o[..])[i + 1] <= CARRY_LIMIT;
      o[i] := Dbl(o[i] + 65536);
      c := Dbl(o[i] / 65536);
      o[i + 1] := Dbl(o[i + 1] + (c - 1));
      o[i] := Dbl(o[i] - Dbl(c * 65536));
      assert o[i] == x + (1 - c) * 65536 && Digit(o[i]);
      CarryOneLimb(before, o[..], i, c - 1);
      i := i + 1;
    }
    ghost var before := o[..];
    assert -CARRY_LIMIT <= old(o[..])[15] <= CARRY_LIMIT;
    o[15] := Dbl(o[15] + 65536);
    c := Dbl(o[15] / 65536);
    o[0] := Dbl(o[0] + Dbl((c - 1) + Dbl(37 * (c - 1))));
    o[15] := Dbl(o[15] - Dbl(c * 65536));
    WrapAround(before, o[..], c - 1, v);
  }

  lemma CarryOneLimb(s: seq<int>, s': seq<int>, i: nat, c: int)
    requires |s| == |s'| == 16 && i < 15
    requires s'[i] == s[i] - 65536 * c && s'[i + 1] == s[i + 1] + c
    requires forall j | 0 <= j < 16 && j != i && j != i + 1 :: s'[j] == s[j]
    ensures Value(s') == Value(s)
  {
    ValueUpdate(s, i, -65536 * c);
    var m := s[i := s[i] + (-65536 * c)];
    ValueUpdate(m, i + 1, c);
    assert s' == m[i + 1 := m[i + 1] + c];
    MovedWeight(W(i), c);
  }

  lemma MovedWeight(w: int, c: int)
    ensures w * (-65536 * c) == -((65536 * w) * c)
  {
  }

  lemma WrapAround(s: seq<int>, s': seq<int>, c: int, v: int)
    requires |s| == |s'| == 16 && Value(s) == v && Digits(s[..15])
    requires s'[0] == s[0] + 38 * c && s'[15] == s[15] - 65536 * c && Digit(s'[15])
    requires forall j | 1 <= j < 15 :: s'[j] == s[j]
    ensures v / TWO256 == c
    ensures Digits(s'[0 := s'[0] - 38 * c]) && Value(s'[0 := s'[0] - 38 * c]) == v % TWO256
  {
    var d := s'[0 := s'[0] - 38 * c];
    assert forall j | 0 <= j < 15 :: s[..15][j] == s[j];
    assert Digits(d);
    ValueUpdate(s, 15, -65536 * c);
    assert d == s[15 := s[15] + (-65536 * c)];
    W16();
    assert W(16) == 65536 * W(15);
    MovedWeight(W(15), c);
    assert Value(d) == v - TWO256 * c;
    DigitsRange(d);
    DivRemUnique(v, TWO256, c, Value(d));
  }

  lemma FoldTop(v: int, m: int, p: int)
    requires p > 0 && m == 2 * p + 38
    ensures v % p == (v % m + 38 * (v / m)) % p
  {
    var q := v / m;
    assert v == m * q + v % m;
    assert m * q == (2 * q) * p + 38 * q;
    ModShift(v % m + 38 * q, 2 * q, p);
  }

  /** A carry keeps the field element: what it moved weighs a multiple of P. */
  lemma CarriedValue(s: seq<int>, s': seq<int>)
    requires IsCarried(s, s')
    ensures Fe(s') == Fe(s)
    ensures Value(s') == Value(s) % TWO256 + 38 * (Value(s) / TWO256)
  {
    LowestRaised(s', 38 * (Value(s) / TWO256));
    FoldTop(Value(s), TWO256, P);
  }

  lemma LowestRaised(s: seq<int>, x: int)
    requires |s| > 0
    ensures Value(s) == Value(s[0 := s[0] - x]) + x
  {
    ValueUpdate(s, 0, -x);
  }

  lemma QuotientRange(v: int, m: int, j: int, k: int)
    requires m > 0 && j * m <= v < k * m
    ensures j <= v / m < k
  {
    var q := v / m;
    assert v == q * m + v % m;
    assert (q + 1) * m == q * m + m;
    MulOrder(q, k, m);
    MulOrder(j, q + 1, m);
  }

  /** Limbs up to k in size stand for numbers up to about k / 65535 times the next weight. */
  lemma {:induction false} ValueRange(s: seq<int>, k: int)
    requires k >= 0 && forall i | 0 <= i < |s| :: -k <= s[i] <= k
    ensures k - k * W(|s|) <= 65535 * Value(s) <= k * W(|s|) - k
  {
    if |s| > 0 {
      ValueRange(s[1..], k);
      var w := W(|s| - 1);
      assert k * (65536 * w) == 65536 * (k * w);
    }
  }

  /** So limbs up to 2^47 leave at most 2^32 above 2^256. */
  lemma CarriedAmount(s: seq<int>)
    requires Bounded(s, CARRY_LIMIT)
    ensures -0x1_0000_0000 <= Value(s) / TWO256 <= 0x1_0000_0000
  {
    ValueRange(s, CARRY_LIMIT);
    W16();
    QuotientRange(Value(s), TWO256, -0x1_0000_0000, 0x1_0000_0000);
  }

  /** The first carry of bounded limbs leaves all but the lowest in range, and that one small. */
  lemma CarriedBounded(s: seq<int>, s1: seq<int>)
    requires IsCarried(s, s1) && Bounded(s, CARRY_LIMIT)
    ensures Bounded(s1, CARRY_LIMIT)
  {
    CarriedAmount(s);
    var d := s1[0 := s1[0] - 38 * (Value(s) / TWO256)];
    assert Digit(d[0]);
    forall i | 1 <= i < 16 ensures Digit(s1[i]) {
      assert Digit(d[i]);
    }
  }

  /** Two carries bring limbs up to 2^47 to reduced limbs of the same field element. */
  lemma TwoCarriesReduce(s: seq<int>, s1: seq<int>, s2: seq<int>)
    requires IsCarried(s, s1) && IsCarried(s1, s2) && Bounded(s, CARRY_LIMIT)
    ensures Reduced(s2) && Fe(s2) == Fe(s)
  {
    CarriedAmount(s);
    CarriedValue(s, s1);
    CarriedValue(s1, s2);
    QuotientRange(Value(s1), TWO256, -1, 2);
    var d := s2[0 := s2[0] - 38 * (Value(s1) / TWO256)];
    assert Digit(d[0]);
    forall i | 1 <= i < 16 ensures Digit(s2[i]) {
      assert Digit(d[i]);
    }
  }

  /** One more carry of reduced limbs leaves digits: limbs all in [0, 65535]. */
  lemma ReducedCarry(s: seq<int>, s1: seq<int>)
    requires IsCarried(s, s1) && Reduced(s)
    ensures Digits(s1) && |s1| == 16 && Fe(s1) == Fe(s)
  {
    ReducedValue(s);
    CarriedValue(s, s1);
    QuotientRange(Value(s), TWO256, -1, 2);
    var q := Value(s) / TWO256;
    var d := s1[0 := s1[0] - 38 * q];
    assert Digit(d[0]);
    forall i | 1 <= i < 16 ensures Digit(s1[i]) {
      assert Digit(d[i]);
    }
    assert d == [d[0]] + d[1..] && Value(d) == d[0] + 65536 * Value(d[1..]);
    LowDigit(Value(s), TWO256, d[0], Value(d[1..]));
  }

  lemma LowDigit(v: int, m: int, x: int, y: int)
    requires m == TWO256 && v % m == x + 65536 * y && 0 <= x < 65536 && -38 <= v < m + 38
    ensures v / m == -1 ==> x >= 65498
    ensures v / m == 1 ==> x < 38
  {
    var r := v % m;
    assert v == m * (v / m) + r;
    assert r % 65536 == x by { DivRemUnique(r, 65536, y, x); }
    assert m == 65536 * (m / 65536);
    if v / m == 1 { 
      assert r < 38;
    } else if v / m == -1 {
      DivRemUnique(r, 65536, m / 65536 - 1, 65536 - (m - r));
    }
  }

  // ---- limb by limb --------------------------------------------------------------------------

  /** `x | 0`: the low 32 bits, signed. */
  function ToInt32(x: int): int {
    Signed(x % MODULUS)
  }

  predicate AllFit(s: seq<int>) {
    forall i | 0 <= i < |s| :: Fits(s[i])
  }

  /** Exchanges the two vectors when b is 1, keeps them when b is 0, by masking. */
  method Select(p: array<int>, q: array<int>, b: int)
    requires p != q && p.Length == q.Length == 16 && AllFit(p[..]) && AllFit(q[..])
    requires b == 0 || b == 1
    modifies p, q
    ensures p[..] == old(if b == 1 then q[..] else p[..])
    ensures q[..] == old(if b == 1 then p[..] else q[..])
  {
    var c := Not(b - 1);
    ghost var p0, q0 := p[..], q[..];
    for i := 0 to 16
      invariant forall j | 0 <= j < i :: p[j] == (if b == 1 then q0[j] else p0[j])
      invariant forall j | 0 <= j < i :: q[j] == (if b == 1 then p0[j] else q0[j])
      invariant forall j | i <= j < 16 :: p[j] == p0[j] && q[j] == q0[j]
    {
      MaskedExchange(p0[i], q0[i], b);
      var t := And(c, Xor(p[i], q[i]));
      p[i] := Xor(p[i], t);
      q[i] := Xor(q[i], t);
    }
  }

  lemma MaskedExchange(x: int, y: int, b: int)
    requires Fits(x) && Fits(y) && (b == 0 || b == 1)
    ensures Fits(Not(b - 1)) && var t := And(Not(b - 1), Xor(x, y));
      Xor(x, t) == (if b == 1 then y else x) && Xor(y, t) == (if b == 1 then x else y)
  {
    AndAllOrNothing(Xor(x, y));
    XorExchanges(x, y);
    XorWithZero(x);
    XorWithZero(y);
  }

  /** Limbs up to 2^18 in size: what one addition or subtraction of reduced limbs leaves. */
  const SMALL: int := 0x4_0000

  method Add(o: array<int>, a: array<int>, b: array<int>)
    requires o.Length == a.Length == b.Length == 16 && Reduced(a[..]) && Reduced(b[..])
    modifies o
    ensures Bounded(o[..], SMALL)
    ensures Fe(o[..]) == old(FAdd(Fe(a[..]), Fe(b[..])))
  {
    ghost var x, y := a[..], b[..];
    for i := 0 to 16
      invariant forall j | 0 <= j < i :: o[j] == x[j] + y[j]
      invariant forall j | i <= j < 16 :: a[j] == x[j] && b[j] == y[j]
    {
      o[i] := ToInt32(Dbl(a[i] + b[i]));
    }
    ValueLinear(x, y, o[..], 1);
    AddOfRemainders(Value(x), Value(y), P);
  }

  method Sub(o: array<int>, a: array<int>, b: array<int>)
    requires o.Length == a.Length == b.Length == 16 && Reduced(a[..]) && Reduced(b[..])
    modifies o
    ensures Bounded(o[..], SMALL)
    ensures Fe(o[..]) == old(FSub(Fe(a[..]), Fe(b[..])))
  {
    ghost var x, y := a[..], b[..];
    for i := 0 to 16
      invariant forall j | 0 <= j < i :: o[j] == x[j] - y[j]
      invariant forall j | i <= j < 16 :: a[j] == x[j] && b[j] == y[j]
    {
      o[i] := ToInt32(Dbl(a[i] - b[i]));
    }
    ValueLinear(x, y, o[..], -1);
    SubOfRemainders(Value(x), Value(y), P);
  }

  lemma ReducedIsSmall(s: seq<int>)
    requires Reduced(s)
    ensures Bounded(s, SMALL) && AllFit(s)
  {
  }

  // ---- multiplication ----------------------------------------------------------------------

  const PRODUCT: int := 0x10_0000_0000  // 2^36, the largest product of two small limbs

  lemma ProductBound(x: int, y: int, k: int)
    requires -k <= x <= k && -k <= y <= k
    ensures -(k * k) <= x * y <= k * k
  {
    assert (k - x) * (k + y) >= 0 && (k + x) * (k - y) >= 0;
    assert (k - x) * (k - y) >= 0 && (k + x) * (k + y) >= 0;
    assert (k - x) * (k + y) + (k + x) * (k - y) == 2 * (k * k) - 2 * (x * y);
    assert (k - x) * (k - y) + (k + x) * (k + y) == 2 * (k * k) + 2 * (x * y);
  }

  /** One product added at its place completes one more limb of the row. */
  lemma ProductStep(t: seq<int>, i: nat, j: nat, x: int, b: seq<int>, base: int)
    requires i + j < |t| && j < |b|
    requires Value(t) == base + W(i) * x * Value(b[..j])
    ensures Value(t[i + j := t[i + j] + x * b[j]]) == base + W(i) * x * Value(b[..j + 1])
  {
    ValueUpdate(t, i + j, x * b[j]);
    ValueTake(b, j);
    WSplits(i, j);
    var wi, wj, v, y := W(i), W(j), Value(b[..j]), b[j];
    assert (wi * wj) * (x * y) == wi * x * (wj * y);
    assert wi * x * (v + wj * y) == wi * x * v + wi * x * (wj * y);
  }

  lemma RowStep(a: seq<int>, i: nat, v: int)
    requires i < |a|
    ensures Value(a[..i + 1]) * v == Value(a[..i]) * v + W(i) * a[i] * v
  {
    ValueTake(a, i);
    var x, y := Value(a[..i]), W(i) * a[i];
    assert (x + y) * v == x * v + y * v;
  }

  /** The double loop of `M`: the 31 limbs of the exact product. */
  method Convolve(a: array<int>, b: array<int>) returns (t: array<int>)
    requires a.Length == b.Length == 16 && Bounded(a[..], SMALL) && Bounded(b[..], SMALL)
    ensures fresh(t) && t.Length == 31
    ensures Value(t[..]) == Value(a[..]) * Value(b[..])
    ensures forall k | 0 <= k < 31 :: -16 * PRODUCT <= t[k] <= 16 * PRODUCT
  {
    ghost var x, y := a[..], b[..];
    t := new int[31](_ => 0);
    ValueZero(t[..]);
    for i := 0 to 16
      invariant Value(t[..]) == Value(x[..i]) * Value(y)
      invariant forall k | 0 <= k < 31 :: -i * PRODUCT <= t[k] <= i * PRODUCT
    {
      ghost var base := Value(t[..]);
      assert W(i) * x[i] * Value(y[..0]) == 0;
      for j := 0 to 16
        invariant Value(t[..]) == base + W(i) * x[i] * Value(y[..j])
        invariant forall k | 0 <= k < i + j :: -(i + 1) * PRODUCT <= t[k] <= (i + 1) * PRODUCT
        invariant forall k | i + j <= k < 31 :: -i * PRODUCT <= t[k] <= i * PRODUCT
      {
        ghost var before := t[..];
        ProductStep(before, i, j, x[i], y, base);
        assert -SMALL <= x[i] <= SMALL && -SMALL <= y[j] <= SMALL;
        ProductBound(x[i], y[j], SMALL);
        t[i + j] := Dbl(t[i + j] + Dbl(a[i] * b[j]));
        assert t[..] == before[i + j := before[i + j] + x[i] * y[j]];
      }
      assert y[..16] == y;
      RowStep(x, i, Value(y));
    }
    assert x[..16] == x;
  }

  /** Limb 16 weighs 2^256, which is 38 in the field. */
  lemma FoldHigh(t: seq<int>, o: seq<int>)
    requires |t| == 31 && |o| == 16 && o[15] == t[15]
    requires forall i | 0 <= i < 15 :: o[i] == t[i] + 38 * t[i + 16]
    ensures Fe(o) == Fe(t)
  {
    var lo, hi := t[..16], t[16..];
    assert t == lo + hi;
    ValueConcat(lo, hi);
    ValueSnoc(hi, 0);
    ValueLinear(lo, hi + [0], o, 38);
    W16();
    var h := Value(hi);
    assert Value(t) == Value(o) + (2 * h) * P;
    MultipleDropped(Value(o), 2 * h, P);
  }

  lemma FoldedSize(t: seq<int>, o: seq<int>)
    requires |t| == 31 && |o| == 16 && o[15] == t[15]
    requires forall i | 0 <= i < 15 :: o[i] == t[i] + 38 * t[i + 16]
    requires forall k | 0 <= k < 31 :: -16 * PRODUCT <= t[k] <= 16 * PRODUCT
    ensures Bounded(o, CARRY_LIMIT)
  {
    forall i | 0 <= i < 15 ensures -CARRY_LIMIT <= o[i] <= CARRY_LIMIT {
      assert -16 * PRODUCT <= t[i + 16] <= 16 * PRODUCT;
    }
  }

  method Mul(o: array<int>, a: array<int>, b: array<int>)
    requires o.Length == a.Length == b.Length == 16 && Bounded(a[..], SMALL) && Bounded(b[..], SMALL)
    modifies o
    ensures Reduced(o[..])
    ensures Fe(o[..]) == old(FMul(Fe(a[..]), Fe(b[..])))
  {
    MulOfRemainders(Value(a[..]), Value(b[..]), P);
    var t := Convolve(a, b);
    ghost var p := t[..];
    for i := 0 to 15
      invariant forall j | 0 <= j < i :: t[j] == p[j] + 38 * p[j + 16]
      invariant forall j | i <= j < 31 :: t[j] == p[j]
    {
      t[i] := Dbl(t[i] + Dbl(38 * t[i + 16]));
    }
    ghost var f := t[..];
    for i := 0 to 16
      invariant t[..] == f && forall j | 0 <= j < i :: o[j] == f[j]
    {
      o[i] := t[i];
    }
    ghost var o0 := o[..];
    FoldHigh(p, o0);
    FoldedSize(p, o0);
    Carry(o);
    ghost var o1 := o[..];
    CarriedBounded(o0, o1);
    Carry(o);
    TwoCarriesReduce(o0, o1, o[..]);
  }

  method Square(o: array<int>, a: array<int>)
    requires o.Length == a.Length == 16 && Bounded(a[..], SMALL)
    modifies o
    ensures Reduced(o[..])
    ensures Fe(o[..]) == old(FMul(Fe(a[..]), Fe(a[..])))
  {
    Mul(o, a, a);
  }
}
