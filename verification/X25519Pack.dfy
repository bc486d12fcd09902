/** x25519.js: limbs to bytes and back, and the inverse by a fixed exponent. */
module X25519Pack {
  import opened Int32
  import opened Field25519
  import opened X25519

  // ---- packing ----------------------------------------------------------------------------

  /** The limbs of P. */
  function PrimeLimbs(): (s: seq<int>)
    ensures |s| == 16
  {
    [0xffed] + seq(14, _ => 0xffff) + [0x7fff]
  }

  lemma {:induction false} OnesValue(s: seq<int>)
    requires forall i | 0 <= i < |s| :: s[i] == 65535
    ensures Value(s) == W(|s|) - 1
  {
    if |s| > 0 { OnesValue(s[1..]); }
  }

  lemma PrimeValue()
    ensures Value(PrimeLimbs()) == P
  {
    var p := PrimeLimbs();
    var ones := seq(15, _ => 65535);
    LowestRaised(p, -18);
    assert p[0 := p[0] + 18] == ones + [0x7fff];
    ValueSnoc(ones, 0x7fff);
    OnesValue(ones);
    W16();
  }

  /** The borrow out of a limb, and the limb once masked. */
  lemma Borrow(x: int)
    requires -65536 <= x < 65536
    ensures Fits(x) && Fits(Shr(x, 16)) && Fits(0xffff)
    ensures And(Shr(x, 16), 1) == (if x < 0 then 1 else 0)
    ensures And(x, 0xffff) == if x < 0 then x + 65536 else x
  {
    PowersOfTwo();
    AndMask(Shr(x, 16), 1);
    AndMask(x, 16);
  }

  /** Masking a limb and taking its borrow from the next keeps the difference so far. */
  lemma BorrowStep(m: seq<int>, m': seq<int>, t: seq<int>, p: seq<int>, i: nat, borrow: int)
    requires |m| == |m'| == |t| == |p| && 1 <= i < |p|
    requires m'[i - 1] == m[i - 1] + 65536 * borrow && m'[i] == t[i] - p[i] - borrow
    requires forall j | 0 <= j < i - 1 :: m'[j] == m[j]
    requires Value(m[..i]) == Value(t[..i]) - Value(p[..i])
    ensures Value(m'[..i + 1]) == Value(t[..i + 1]) - Value(p[..i + 1])
  {
    ValueTake(m', i);
    ValueTake(t, i);
    ValueTake(p, i);
    MaskedValue(m[..i], m'[..i], borrow);
    var w, x, y := W(i), t[i], p[i];
    assert w * (x - y - borrow) == w * x - w * y - w * borrow;
  }

  lemma MaskedValue(m: seq<int>, m': seq<int>, borrow: int)
    requires |m| == |m'| > 0 && m'[|m| - 1] == m[|m| - 1] + 65536 * borrow
    requires forall j | 0 <= j < |m| - 1 :: m'[j] == m[j]
    ensures Value(m') == Value(m) + W(|m|) * borrow
  {
    var i := |m| - 1;
    ValueUpdate(m, i, 65536 * borrow);
    assert m' == m[i := m[i] + 65536 * borrow];
    var w := W(i);
    assert w * (65536 * borrow) == (65536 * w) * borrow;
  }

  /** The lowest i limbs of t minus P are in m, the last of them still to be masked. */
  ghost predicate Difference(m: seq<int>, t: seq<int>, i: nat) {
    |m| == |t| == 16 && 1 <= i <= 16
    && Value(m[..i]) == Value(t[..i]) - Value(PrimeLimbs()[..i])
    && -65536 <= m[i - 1] < 65536
    && Digits(m[..i - 1])
  }

  lemma FirstDifference(m: seq<int>, t: seq<int>)
    requires |m| == |t| == 16 && Digits(t) && m[0] == t[0] - 0xffed
    ensures Difference(m, t, 1)
  {
    assert m[..1] == [m[0]] && t[..1] == [t[0]] && PrimeLimbs()[..1] == [0xffed];
    assert Digit(t[0]);
  }

  lemma DifferenceGrows(m: seq<int>, m': seq<int>, t: seq<int>, i: nat, borrow: int)
    requires Difference(m, t, i) && i < 16 && Digits(t) && |m'| == 16
    requires borrow == if m[i - 1] < 0 then 1 else 0
    requires m'[i] == t[i] - (if i == 15 then 0x7fff else 0xffff) - borrow && m'[i - 1] == m[i - 1] + 65536 * borrow
    requires forall j | 0 <= j < i - 1 :: m'[j] == m[j]
    ensures Difference(m', t, i + 1)
  {
    BorrowStep(m, m', t, PrimeLimbs(), i, borrow);
    assert Digit(t[i]);
    forall j | 0 <= j < i ensures Digit(m'[..i][j]) {
      if j < i - 1 { assert Digit(m[..i - 1][j]); }
    }
  }

  /** One limb of the subtraction: takes the borrow of the limb below, which is then masked. */
  method SubtractLimb(m: array<int>, t: array<int>, i: nat, limb: int)
    requires m != t && m.Length == t.Length == 16 && Digits(t[..])
    requires Difference(m[..], t[..], i) && i < 16 && limb == if i == 15 then 0x7fff else 0xffff
    modifies m
    ensures Difference(m[..], t[..], i + 1)
  {
    ghost var before := m[..];
    Borrow(m[i - 1]);
    assert Digit(t[..][i]);
    m[i] := Dbl(t[i] - limb - And(Shr(m[i - 1], 16), 1));
    m[i - 1] := And(m[i - 1], 0xffff);
    DifferenceGrows(before, m[..], t[..], i, if before[i - 1] < 0 then 1 else 0);
  }

  /** Subtracts P limb by limb; b tells whether the number was below P. */
  method SubtractPrime(m: array<int>, t: array<int>) returns (b: int)
    requires m != t && m.Length == t.Length == 16 && Digits(t[..])
    modifies m
    ensures b == (if Value(t[..]) < P then 1 else 0)
    ensures Value(m[..]) == Value(t[..]) - P
    ensures AllFit(m[..]) && (b == 0 ==> Digits(m[..]))
  {
    m[0] := Dbl(t[0] - 0xffed);
    FirstDifference(m[..], t[..]);
    for i := 1 to 15
      invariant Difference(m[..], t[..], i)
    {
      SubtractLimb(m, t, i, 0xffff);
    }
    SubtractLimb(m, t, 15, 0x7fff);
    Borrow(m[15]);
    b := And(Shr(m[15], 16), 1);
    WholeDifference(m[..], t[..]);
  }

  lemma AllDigits(m: seq<int>)
    requires |m| == 16 && Digits(m[..15]) && -65536 <= m[15] < 65536
    ensures AllFit(m) && (m[15] >= 0 ==> Digits(m))
  {
    forall i | 0 <= i < 15 ensures Digit(m[i]) { assert Digit(m[..15][i]); }
  }

  lemma WholeDifference(m: seq<int>, t: seq<int>)
    requires |m| == |t| == 16 && Digits(m[..15])
    requires Value(m[..16]) == Value(t[..16]) - Value(PrimeLimbs()[..16])
    requires -65536 <= m[15] < 65536
    ensures Value(m) == Value(t) - P
    ensures m[15] < 0 <==> Value(t) < P
    ensures AllFit(m) && (m[15] >= 0 ==> Digits(m))
  {
    AllDigits(m);
    var p := PrimeLimbs();
    assert m[..16] == m && t[..16] == t && p[..16] == p;
    PrimeValue();
    SignOfTop(m);
  }

  lemma SignOfTop(m: seq<int>)
    requires |m| == 16 && Digits(m[..15])
    ensures Value(m) < 0 <==> m[15] < 0
  {
    assert m == m[..15] + [m[15]];
    ValueSnoc(m[..15], m[15]);
    DigitsRange(m[..15]);
    MulOrder(m[15], 0, W(15));
    MulOrder(-1, m[15], W(15));
  }

  predicate AreBytes(s: seq<int>) {
    forall i | 0 <= i < |s| :: 0 <= s[i] < 256
  }

  lemma {:induction false} LimbsOfBytes(o: seq<int>, t: seq<int>)
    requires |o| == 2 * |t| && forall i | 0 <= i < |t| :: t[i] == o[2 * i] + 256 * o[2 * i + 1]
    ensures LittleEndian(o) == Value(t)
  {
    if |t| > 0 {
      assert forall i | 0 <= i < |t| - 1 :: o[2..][2 * i] == o[2 * (i + 1)] && o[2..][2 * i + 1] == o[2 * (i + 1) + 1];
      LimbsOfBytes(o[2..], t[1..]);
      assert o[1..][1..] == o[2..];
    }
  }

  lemma TwiceReduced(v: int, v1: int, v2: int)
    requires 0 <= v < TWO256
    requires v1 == (if v < P then v else v - P) && v2 == if v1 < P then v1 else v1 - P
    ensures v2 == v % P
  {
    DivRemUnique(v, P, if v < P then 0 else if v1 < P then 1 else 2, v2);
  }

  lemma DigitsAfterThreeCarries(n: seq<int>, t1: seq<int>, t2: seq<int>, t3: seq<int>)
    requires Reduced(n) && IsCarried(n, t1) && IsCarried(t1, t2) && IsCarried(t2, t3)
    ensures Digits(t3) && Fe(t3) == Fe(n) && 0 <= Value(t3) < TWO256
  {
    ReducedCarry(n, t1);
    DigitsCarry(t1, t2);
    DigitsCarry(t2, t3);
    DigitsRange(t3);
    W16();
  }

  lemma {:induction false} BytesRange(b: seq<int>, i: nat)
    requires |b| == 2 * i && AreBytes(b)
    ensures 0 <= LittleEndian(b) < W(i)
  {
    if i > 0 {
      BytesRange(b[2..], i - 1);
      assert b[1..][1..] == b[2..];
    }
  }

  lemma {:induction false} BytesSnoc(b: seq<int>, i: nat, x: int, y: int)
    requires |b| == 2 * i
    ensures LittleEndian(b + [x, y]) == LittleEndian(b) + W(i) * (x + 256 * y)
  {
    if i == 0 {
      assert (b + [x, y])[1..] == [y] && [y][1..] == [];
    } else {
      BytesSnoc(b[2..], i - 1, x, y);
      assert (b + [x, y])[1..][1..] == b[2..] + [x, y] && b[1..][1..] == b[2..];
      var w, z := W(i - 1), x + 256 * y;
      assert 65536 * (w * z) == (65536 * w) * z;
    }
  }

  /** The last loop of `pack25519`: two bytes a limb. */
  method WriteBytes(o: array<int>, t: array<int>)
    requires o.Length == 32 && t.Length == 16 && o != t && Digits(t[..])
    modifies o
    ensures AreBytes(o[..]) && LittleEndian(o[..]) == Value(t[..])
  {
    ghost var s := t[..];
    for i := 0 to 16
      invariant t[..] == s
      invariant AreBytes(o[..2 * i]) && LittleEndian(o[..2 * i]) == Value(s[..i])
    {
      ghost var before := o[..2 * i];
      assert Digit(s[i]);
      LimbBytes(t[i]);
      o[2 * i] := And(t[i], 0xff);
      o[2 * i + 1] := Shr(t[i], 8);
      assert o[..2 * (i + 1)] == before + [s[i] % 256, s[i] / 256];
      BytesSnoc(before, i, s[i] % 256, s[i] / 256);
      ValueTake(s, i);
    }
    assert o[..2 * 16] == o[..] && s[..16] == s;
  }

  /** Writes the one representative in [0, P) of the element, little-endian. */
  method Pack(o: array<int>, n: array<int>)
    requires o.Length == 32 && n.Length == 16 && o != n && Reduced(n[..])
    modifies o
    ensures AreBytes(o[..]) && LittleEndian(o[..]) == Fe(n[..])
  {
    var m, t := new int[16](_ => 0), new int[16](_ => 0);
    ghost var s := n[..];
    for i := 0 to 16
      invariant forall j | 0 <= j < i :: t[j] == s[j]
    {
      t[i] := n[i];
    }
    assert t[..] == s;
    Carry(t);
    ghost var t1 := t[..];
    ReducedCarry(s, t1);
    Carry(t);
    ghost var t2 := t[..];
    DigitsCarry(t1, t2);
    Carry(t);
    ghost var t3 := t[..];
    DigitsAfterThreeCarries(s, t1, t2, t3);
    ghost var vs := [Value(t3)];
    for j := 0 to 2
      invariant Digits(t[..]) && |vs| == j + 1 && vs[0] == Value(t3) && vs[j] == Value(t[..])
      invariant forall k | 0 <= k < j :: vs[k + 1] == if vs[k] < P then vs[k] else vs[k] - P
    {
      var b := SubtractPrime(m, t);
      Select(t, m, 1 - b);
      vs := vs + [Value(t[..])];
    }
    TwiceReduced(vs[0], vs[1], vs[2]);
    WriteBytes(o, t);
  }

  lemma LimbBytes(x: int)
    requires Digit(x)
    ensures Fits(0xff) && And(x, 0xff) == x % 256 && Shr(x, 8) == x / 256
  {
    PowersOfTwo();
    AndMask(x, 8);
  }

  /** A carry of digits changes nothing. */
  lemma DigitsCarry(s: seq<int>, s1: seq<int>)
    requires IsCarried(s, s1) && Digits(s)
    ensures s1 == s
  {
    DigitsRange(s);
    W16();
    DivRemUnique(Value(s), TWO256, 0, Value(s));
    assert s1[0 := s1[0] - 38 * 0] == s1;
    DigitsUnique(s, s1);
  }

  // ---- unpacking ----------------------------------------------------------------------------

  method Unpack(o: array<int>, n: array<int>)
    requires o.Length == 16 && n.Length == 32 && o != n && AreBytes(n[..])
    modifies o
    ensures Digits(o[..]) && Value(o[..]) == LittleEndian(n[..]) % TWO255
  {
    for i := 0 to 16
      invariant forall j | 0 <= j < i :: o[j] == n[2 * j] + 256 * n[2 * j + 1] && Digit(o[j])
    {
      assert 0 <= n[..][2 * i] < 256 && 0 <= n[..][2 * i + 1] < 256;
      o[i] := Dbl(n[2 * i] + n[2 * i + 1] * 256);
    }
    ghost var s := n[..];
    TopLimb(s[30], s[31]);
    o[15] := And(o[15], 0x7fff);
    LimbsOfBytes(s[31 := And(s[31], 127)], o[..]);
    TopBitIgnored(s);
  }

  /** A number by its last two bytes and those before. */
  lemma ByTopBytes(b: seq<int>)
    requires |b| == 32 && AreBytes(b)
    ensures LittleEndian(b) == LittleEndian(b[..30]) + W(15) * (b[30] + 256 * b[31])
    ensures 0 <= LittleEndian(b[..30]) < W(15)
  {
    assert b == b[..30] + [b[30], b[31]];
    BytesSnoc(b[..30], 15, b[30], b[31]);
    BytesRange(b[..30], 15);
  }

  lemma TopBitIgnored(b: seq<int>)
    requires |b| == 32 && AreBytes(b)
    ensures Fits(127) && LittleEndian(b[31 := And(b[31], 127)]) == LittleEndian(b) % TWO255
  {
    hide W, LittleEndian, And;
    TopLimb(b[30], b[31]);
    AndSeven(b[31]);
    var c := b[31 := b[31] % 128];
    ByTopBytes(b);
    ByTopBytes(c);
    W16();
    assert c[..30] == b[..30];
    TopRemainder(W(15), LittleEndian(b[..30]), b[30] + 256 * b[31], 32768);
    DivRemUnique(b[30] + 256 * b[31], 32768, b[31] / 128, b[30] + 256 * (b[31] % 128));
  }

  lemma AndSeven(x: int)
    requires 0 <= x < 256
    ensures Fits(127) && And(x, 127) == x % 128
  {
    PowersOfTwo();
    AndMask(x, 7);
  }

  /** The remainder of a number by a multiple of the weight of its top part. */
  lemma TopRemainder(w: int, low: int, top: int, m: int)
    requires 0 <= low < w && top >= 0 && m > 0
    ensures w * m > 0 && (low + w * top) % (w * m) == low + w * (top % m)
  {
    var q, r := top / m, top % m;
    TopSplits(w, m, q, r);
    assert top == m * q + r;
    TopBelow(w, low, r, m);
    DivRemUnique(low + w * top, w * m, q, low + w * r);
  }

  lemma TopSplits(w: int, m: int, q: int, r: int)
    ensures w * (m * q + r) == (w * m) * q + w * r
  {
  }

  lemma TopBelow(w: int, low: int, r: int, m: int)
    requires 0 <= low < w && 0 <= r < m
    ensures 0 <= low + w * r < w * m
  {
    MulOrder(m - 1, r, w);
    assert (m - 1) * w == w * m - w && r * w == w * r;
    MulOrder(r, 0, w);
  }

  lemma TopLimb(x: int, y: int)
    requires 0 <= x < 256 && 0 <= y < 256
    ensures Fits(0x7fff) && Fits(127)
    ensures And(x + 256 * y, 0x7fff) == x + 256 * And(y, 127) && 0 <= And(y, 127) < 128
  {
    PowersOfTwo();
    AndMask(x + 256 * y, 15);
    AndMask(y, 7);
    DivRemUnique(x + 256 * y, 0x8000, y / 128, x + 256 * (y % 128));
  }

  // ---- inversion ----------------------------------------------------------------------------

  const ONES: int := TWO255 / 32 - 1  // 2^250 - 1

  /** The exponent reached when `left` bits of P - 2 are still to come: P - 2 without its last bits. */
  ghost predicate Exponent(e: nat, left: nat) {
    (left > 5 ==> left <= 255 && e == Pow2(255 - left) - 1)
    && (left == 5 ==> e == ONES)
    && (left == 4 ==> e == 2 * ONES)
    && (left == 3 ==> e == 4 * ONES + 1)
    && (left == 2 ==> e == 8 * ONES + 2)
    && (left == 1 ==> e == 16 * ONES + 5)
    && (left == 0 ==> e == P - 2)
  }

  lemma ExponentStep(e: nat, left: nat)
    requires left > 0 && Exponent(e, left)
    ensures Exponent(2 * e + if left - 1 != 2 && left - 1 != 4 then 1 else 0, left - 1)
  {
    if left > 5 {
      assert Pow2(255 - (left - 1)) == 2 * Pow2(255 - left);
      if left == 6 { OnesIsPower(255 - (left - 1), 16); }
    }
  }

  lemma {:induction false} Pow2OfWeight(m: nat)
    ensures Pow2(16 * m) == W(m)
  {
    if m > 0 {
      Pow2OfWeight(m - 1);
      Pow2Splits(16, 16 * (m - 1));
      PowersOfTwo();
    }
  }

  lemma OnesIsPower(n: nat, m: nat)
    requires n + 6 == 16 * m && m == 16
    ensures Pow2(n) - 1 == ONES
  {
    Pow2OfWeight(m);
    W16();
    Pow2Splits(6, n);
    assert Pow2(6) == 64;
  }

  method Invert(o: array<int>, i: array<int>)
    requires o.Length == i.Length == 16 && Reduced(i[..])
    modifies o
    ensures Reduced(o[..]) && Fe(o[..]) == old(FPow(Fe(i[..]), P - 2))
  {
    ghost var z := i[..];
    ghost var x := Fe(z);
    var c := new int[16](_ => 0);
    for a := 0 to 16
      invariant i[..] == z && forall k | 0 <= k < a :: c[k] == z[k]
    {
      c[a] := i[a];
    }
    assert c[..] == z;
    ghost var e := 1;
    assert FPow(x, 1) == FMul(FPow(x, 0), x) == x;
    assert Pow2(1) == 2;
    for a := 254 downto 0
      invariant Reduced(c[..]) && i[..] == z
      invariant Exponent(e, a) && Fe(c[..]) == FPow(x, e)
    {
      ExponentStep(e, a + 1);
      ReducedIsSmall(c[..]);
      Square(c, c);
      FPowAdd(x, e, e);
      e := e + e;
      if a != 2 && a != 4 {
        ReducedIsSmall(c[..]);
        ReducedIsSmall(z);
        Mul(c, c, i);
        e := e + 1;
      }
    }
    ghost var r := c[..];
    for a := 0 to 16
      invariant c[..] == r && forall k | 0 <= k < a :: o[k] == r[k]
    {
      o[a] := c[a];
    }
    assert o[..] == r;
  }
}
