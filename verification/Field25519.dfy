/**
 The prime field of Curve25519 and the scalar multiplication of section 5 of RFC 7748, on plain
 integers; and numbers in base 65536, as x25519.js keeps them in limbs.
 */
module Field25519 {
  import opened Int32

  /** 2^255 - 19. */
  const P: int := 0x7fff_ffff_ffff_ffff_ffff_ffff_ffff_ffff_ffff_ffff_ffff_ffff_ffff_ffff_ffff_ffed

  const TWO255: int := P + 19
  const TWO256: int := 2 * P + 38

  // ---- remainders -------------------------------------------------------------------------

  lemma MultipleDropped(x: int, k: int, m: int)
    requires m > 0
    ensures (x + k * m) % m == x % m
  {
    assert x + k * m == m * (x / m + k) + x % m;
    DivRemUnique(x + k * m, m, x / m + k, x % m);
  }

  lemma AddOfRemainders(x: int, y: int, m: int)
    requires m > 0
    ensures (x % m + y % m) % m == (x + y) % m
  {
    assert x + y == (x % m + y % m) + (x / m + y / m) * m;
    MultipleDropped(x % m + y % m, x / m + y / m, m);
  }

  lemma SubOfRemainders(x: int, y: int, m: int)
    requires m > 0
    ensures (x % m - y % m) % m == (x - y) % m
  {
    assert x - y == (x % m - y % m) + (x / m - y / m) * m;
    MultipleDropped(x % m - y % m, x / m - y / m, m);
  }

  lemma MulOfRemainder(x: int, y: int, m: int)
    requires m > 0
    ensures (x % m) * y % m == x * y % m
  {
    var j, r := x / m, x % m;
    assert x == m * j + r;
    assert (m * j + r) * y == m * (j * y) + r * y;
    var k, t := r * y / m, r * y % m;
    assert r * y == m * k + t;
    assert m * (j * y) + m * k == m * (j * y + k);
    DivRemUnique(x * y, m, j * y + k, t);
  }

  lemma MulOfRemainders(x: int, y: int, m: int)
    requires m > 0
    ensures (x % m) * (y % m) % m == x * y % m
  {
    MulOfRemainder(x, y % m, m);
    MulOfRemainder(y, x, m);
    assert x * (y % m) == (y % m) * x && y * x == x * y;
  }

  lemma MulAssociates(x: int, y: int, z: int, m: int)
    requires m > 0
    ensures (x * y % m) * z % m == x * (y * z % m) % m
  {
    MulOfRemainder(x * y, z, m);
    MulOfRemainder(y * z, x, m);
    assert (x * y) * z == x * (y * z) && (y * z % m) * x == x * (y * z % m) && (y * z) * x == x * (y * z);
  }

  lemma SquareOfNegation(d: int, m: int)
    requires m > 0
    ensures (d % m) * (d % m) % m == (-d % m) * (-d % m) % m
  {
    MulOfRemainders(d, d, m);
    MulOfRemainders(-d, -d, m);
    assert (-d) * (-d) == d * d;
  }

  // ---- the field --------------------------------------------------------------------------

  function FAdd(x: int, y: int): int { (x + y) % P }

  function FSub(x: int, y: int): int { (x - y) % P }

  function FMul(x: int, y: int): int { (x * y) % P }

  function FPow(x: int, n: nat): int {
    if n == 0 then 1 else FMul(FPow(x, n - 1), x)
  }

  lemma FMulCommutes(x: int, y: int)
    ensures FMul(x, y) == FMul(y, x)
  {
  }

  lemma {:induction false} FPowAdd(x: int, m: nat, n: nat)
    ensures FPow(x, m + n) == FMul(FPow(x, m), FPow(x, n))
  {
    if n == 0 {
      FPowRange(x, m);
      if m == 0 { assert FPow(x, 0) == 1; }
    } else {
      FPowAdd(x, m, n - 1);
      MulAssociates(FPow(x, m), FPow(x, n - 1), x, P);
    }
  }

  lemma FPowRange(x: int, n: nat)
    ensures 0 <= FPow(x, n) < P
  {
  }

  // ---- X25519 of RFC 7748, section 5 -------------------------------------------------------

  const A24: int := 121665

  /** The rounds of the ladder. */
  const BITS: nat := 255

  datatype Ladder = Ladder(x2: int, z2: int, x3: int, z3: int)

  function CSwap(swap: bool, s: Ladder): Ladder {
    if swap then Ladder(s.x3, s.z3, s.x2, s.z2) else s
  }

  function LadderStep(u: int, s: Ladder): Ladder {
    var a := FAdd(s.x2, s.z2);
    var aa := FMul(a, a);
    var b := FSub(s.x2, s.z2);
    var bb := FMul(b, b);
    var e := FSub(aa, bb);
    var c := FAdd(s.x3, s.z3);
    var d := FSub(s.x3, s.z3);
    var da := FMul(d, a);
    var cb := FMul(c, b);
    Ladder(
      FMul(aa, bb),
      FMul(e, FAdd(aa, FMul(A24, e))),
      FMul(FAdd(da, cb), FAdd(da, cb)),
      FMul(u, FMul(FSub(da, cb), FSub(da, cb))))
  }

  predicate BitAt(k: nat, t: nat) {
    k / Pow2(t) % 2 == 1
  }

  /** The loop "for t = bits-1 down to 0", with its pending swap; `t` bits are still to come. */
  function LadderLoop(k: nat, u: int, t: nat, s: Ladder, swap: bool): Ladder {
    if t == 0 then CSwap(swap, s)
    else
      var bit := BitAt(k, t - 1);
      LadderLoop(k, u, t - 1, LadderStep(u, CSwap(swap != bit, s)), bit)
  }

  function ScalarTimes(k: nat, u: int): int {
    var s := LadderLoop(k, u, BITS, Ladder(1, 0, u, 1), false);
    FMul(s.x2, FPow(s.z2, P - 2))
  }

  type Octets = s: seq<int> | |s| == 32 && forall i | 0 <= i < 32 :: 0 <= s[i] < 256
    witness seq(32, _ => 0)

  function LittleEndian(b: seq<int>): int {
    if |b| == 0 then 0 else b[0] + 256 * LittleEndian(b[1..])
  }

  const TWO254: int := 0x4000_0000_0000_0000_0000_0000_0000_0000_0000_0000_0000_0000_0000_0000_0000_0000

  /** decodeScalar25519 in numbers: bit 254 set, bit 255 and the lowest three clear, the others kept. */
  function Scalar(n: Octets): nat {
    TWO254 + LittleEndian(n) % TWO254 - LittleEndian(n) % 8
  }

  /** The bytes of X25519(n, u); of the u-coordinate, bit 255 is ignored. */
  predicate IsX25519(q: seq<int>, n: Octets, u: Octets) {
    |q| == 32 && (forall i | 0 <= i < 32 :: 0 <= q[i] < 256)
    && LittleEndian(q) == ScalarTimes(Scalar(n), LittleEndian(u) % TWO255 % P)
  }

  // ---- base 65536 ------------------------------------------------------------------------------

  function W(n: nat): (w: int)
    ensures w > 0
  {
    if n == 0 then 1 else 65536 * W(n - 1)
  }

  lemma W16()
    ensures W(16) == TWO256 && W(15) * 32768 == TWO255
  {
    assert W(4) == 0x1_0000_0000_0000_0000;
    assert W(8) == W(4) * W(4) by { assert W(8) == 65536 * 65536 * 65536 * 65536 * W(4); }
    assert W(12) == W(4) * W(8) by { assert W(12) == 65536 * 65536 * 65536 * 65536 * W(8); }
    assert W(16) == W(4) * W(12) by { assert W(16) == 65536 * 65536 * 65536 * 65536 * W(12); }
    assert W(16) == 65536 * W(15);
  }

  lemma {:induction false} WSplits(m: nat, n: nat)
    ensures W(m + n) == W(m) * W(n)
  {
    if m > 0 {
      WSplits(m - 1, n);
      assert W(m + n) == 65536 * W(m - 1 + n);
    }
  }

  /** The number little-endian limbs stand for, whatever their size and sign. */
  function Value(s: seq<int>): int {
    if |s| == 0 then 0 else s[0] + 65536 * Value(s[1..])
  }

  lemma {:induction false} ValueConcat(s: seq<int>, t: seq<int>)
    ensures Value(s + t) == Value(s) + W(|s|) * Value(t)
  {
    if |s| == 0 {
      assert s + t == t;
    } else {
      ValueConcat(s[1..], t);
      assert (s + t)[1..] == s[1..] + t;
      var v, w := Value(t), W(|s| - 1);
      assert 65536 * (w * v) == (65536 * w) * v;
    }
  }

  lemma ValueSnoc(s: seq<int>, x: int)
    ensures Value(s + [x]) == Value(s) + W(|s|) * x
  {
    ValueConcat(s, [x]);
    assert Value([x]) == x;
  }

  lemma ValueTake(s: seq<int>, i: nat)
    requires i < |s|
    ensures Value(s[..i + 1]) == Value(s[..i]) + W(i) * s[i]
  {
    assert s[..i + 1] == s[..i] + [s[i]];
    ValueSnoc(s[..i], s[i]);
  }

  /** Adding to one limb adds at its place. */
  lemma {:induction false} ValueUpdate(s: seq<int>, i: nat, x: int)
    requires i < |s|
    ensures Value(s[i := s[i] + x]) == Value(s) + W(i) * x
  {
    var s' := s[i := s[i] + x];
    if i == 0 {
      assert s'[1..] == s[1..];
    } else {
      assert s'[1..] == s[1..][i - 1 := s[1..][i - 1] + x];
      ValueUpdate(s[1..], i - 1, x);
      var w := W(i - 1);
      assert 65536 * (w * x) == (65536 * w) * x;
    }
  }

  lemma {:induction false} ValueZero(s: seq<int>)
    requires forall i | 0 <= i < |s| :: s[i] == 0
    ensures Value(s) == 0
  {
    if |s| > 0 { ValueZero(s[1..]); }
  }

  lemma {:induction false} ValueLinear(a: seq<int>, b: seq<int>, c: seq<int>, k: int)
    requires |a| == |b| == |c| && forall i | 0 <= i < |a| :: c[i] == a[i] + k * b[i]
    ensures Value(c) == Value(a) + k * Value(b)
  {
    if |a| > 0 {
      ValueLinear(a[1..], b[1..], c[1..], k);
      var v := Value(b[1..]);
      assert k * (b[0] + 65536 * v) == k * b[0] + 65536 * (k * v);
    }
  }

  predicate Digit(x: int) {
    0 <= x < 65536
  }

  predicate Digits(s: seq<int>) {
    forall i | 0 <= i < |s| :: Digit(s[i])
  }

  lemma {:induction false} DigitsRange(s: seq<int>)
    requires Digits(s)
    ensures 0 <= Value(s) < W(|s|)
  {
    if |s| > 0 { DigitsRange(s[1..]); }
  }

  /** Digits are determined by their number. */
  lemma {:induction false} DigitsUnique(s: seq<int>, t: seq<int>)
    requires |s| == |t| && Digits(s) && Digits(t) && Value(s) == Value(t)
    ensures s == t
  {
    if |s| > 0 {
      DivRemUnique(Value(s), 65536, Value(s[1..]), s[0]);
      DivRemUnique(Value(t), 65536, Value(t[1..]), t[0]);
      DigitsUnique(s[1..], t[1..]);
      assert s == [s[0]] + s[1..] && t == [t[0]] + t[1..];
    }
  }

  // ---- field elements in limbs -------------------------------------------------------------

  function Fe(s: seq<int>): int {
    Value(s) % P
  }

  /** What two carries leave: limbs in range, the lowest within 38 of it. */
  predicate Reduced(s: seq<int>) {
    |s| == 16 && -38 <= s[0] <= 65573 && forall i | 1 <= i < 16 :: Digit(s[i])
  }

  lemma ReducedValue(s: seq<int>)
    requires Reduced(s)
    ensures -38 <= Value(s) < TWO256 + 38
  {
    W16();
    var r := if s[0] < 0 then 0 else if s[0] > 65535 then 65535 else s[0];
    DigitsRange(s[0 := r]);
    ValueUpdate(s, 0, r - s[0]);
    assert s[0 := s[0] + (r - s[0])] == s[0 := r];
  }
}
