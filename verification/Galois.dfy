/**
 GF(256) as QR codes use it: bytes, with exclusive or as addition and multiplication modulo
 x^8 + x^4 + x^3 + x^2 + 1.
 */
module Galois {

  type Elem = bv8

  function Add(x: Elem, y: Elem): Elem {
    x ^ y
  }

  function Part(bit: bv8, b: Elem): Elem {
    if bit == 0 then 0 else b
  }

  /** Multiplication by alpha, the element 2. */
  function TimesAlpha(b: Elem): Elem {
    Add(b << 1, Part(b & 0x80, 0x1d))
  }

  /** Doubling modulo x^8 + x^4 + x^3 + x^2 + 1, in numbers: what leaves the byte comes back as 29. */
  lemma DoublingIs(b: Elem)
    ensures b < 128 ==> TimesAlpha(b) as int == 2 * (b as int)
    ensures b >= 128 ==> (TimesAlpha(b) ^ 29) as int == 2 * (b as int) - 256
  {
  }

  /** `b` times alpha^n. */
  function Shifted(n: nat, b: Elem): Elem {
    if n == 0 then b else TimesAlpha(Shifted(n - 1, b))
  }

  function Alpha(n: nat): Elem {
    Shifted(n, 1)
  }

  /** The product by the low n bits of a: b for its bit 0, alpha b for its bit 1, and so on. */
  function TimesBits(n: nat, a: bv8, b: Elem): Elem {
    if n == 0 then 0 else Add(Part(a & 1, b), TimesBits(n - 1, a >> 1, TimesAlpha(b)))
  }

  function Times(a: Elem, b: Elem): Elem {
    TimesBits(8, a, b)
  }

  // ---- addition ------------------------------------------------------------------------------

  lemma AddLaws(x: Elem, y: Elem, z: Elem)
    ensures Add(x, y) == Add(y, x)
    ensures Add(Add(x, y), z) == Add(x, Add(y, z))
    ensures Add(x, 0) == x && Add(0, x) == x && Add(x, x) == 0
  {
  }

  lemma AddSwap(w: Elem, x: Elem, y: Elem, z: Elem)
    ensures Add(Add(w, x), Add(y, z)) == Add(Add(w, y), Add(x, z))
  {
    hide Add;
    AddLaws(w, x, Add(y, z));
    AddLaws(x, y, z);
    AddLaws(y, x, z);
    AddLaws(w, y, Add(x, z));
  }

  /** An element is its own negative. */
  lemma AddCancels(x: Elem, y: Elem)
    ensures Add(Add(x, y), y) == x
    ensures Add(x, y) == 0 <==> x == y
  {
  }

  // ---- linearity -----------------------------------------------------------------------------

  lemma TimesAlphaLinear(b: Elem, c: Elem)
    ensures TimesAlpha(Add(b, c)) == Add(TimesAlpha(b), TimesAlpha(c))
  {
    assert (b ^ c) << 1 == (b << 1) ^ (c << 1);
    assert (b ^ c) & 0x80 == (b & 0x80) ^ (c & 0x80);
    assert b & 0x80 == 0 || b & 0x80 == 0x80;
    assert c & 0x80 == 0 || c & 0x80 == 0x80;
  }

  lemma TimesAlphaOfZero()
    ensures TimesAlpha(0) == 0
  {
  }

  lemma TimesAlphaInjective(b: Elem, c: Elem)
    requires TimesAlpha(b) == TimesAlpha(c)
    ensures b == c
  {
  }

  lemma {:induction false} ShiftedAdds(m: nat, n: nat, b: Elem)
    ensures Shifted(m + n, b) == Shifted(m, Shifted(n, b))
  {
    hide TimesAlpha;
    if m > 0 { ShiftedAdds(m - 1, n, b); }
  }

  lemma {:induction false} BitsXorRight(n: nat, a: bv8, b: Elem, c: Elem)
    ensures TimesBits(n, a, Add(b, c)) == Add(TimesBits(n, a, b), TimesBits(n, a, c))
  {
    hide TimesAlpha, Add;
    AddLaws(0, 0, 0);
    if n > 0 {
      var b', c' := TimesAlpha(b), TimesAlpha(c);
      TimesAlphaLinear(b, c);
      BitsXorRight(n - 1, a >> 1, b', c');
      AddSwap(Part(a & 1, b), Part(a & 1, c), TimesBits(n - 1, a >> 1, b'), TimesBits(n - 1, a >> 1, c'));
    }
  }

  lemma LowBitOfSum(a: bv8, b: bv8, c: Elem)
    ensures Part(Add(a, b) & 1, c) == Add(Part(a & 1, c), Part(b & 1, c))
    ensures Add(a, b) >> 1 == Add(a >> 1, b >> 1)
  {
    assert (a ^ b) & 1 == (a & 1) ^ (b & 1);
    assert a & 1 == 0 || a & 1 == 1;
    assert b & 1 == 0 || b & 1 == 1;
  }

  lemma {:induction false} BitsXorLeft(n: nat, a: bv8, b: bv8, c: Elem)
    ensures TimesBits(n, Add(a, b), c) == Add(TimesBits(n, a, c), TimesBits(n, b, c))
  {
    hide TimesAlpha, Add;
    AddLaws(0, 0, 0);
    if n > 0 {
      LowBitOfSum(a, b, c);
      BitsXorLeft(n - 1, a >> 1, b >> 1, TimesAlpha(c));
      AddSwap(Part(a & 1, c), Part(b & 1, c),
              TimesBits(n - 1, a >> 1, TimesAlpha(c)), TimesBits(n - 1, b >> 1, TimesAlpha(c)));
    }
  }

  /** Multiplication distributes over addition. */
  lemma Distributes(a: Elem, b: Elem, c: Elem)
    ensures Times(a, Add(b, c)) == Add(Times(a, b), Times(a, c))
    ensures Times(Add(b, c), a) == Add(Times(b, a), Times(c, a))
  {
    hide TimesBits, Add;
    BitsXorRight(8, a, b, c);
    BitsXorLeft(8, b, c, a);
  }

  // ---- alpha ------------------------------------------------------------------------------------

  lemma {:induction false} BitsOfAlpha(n: nat, a: bv8, b: Elem)
    ensures TimesBits(n, a, TimesAlpha(b)) == TimesAlpha(TimesBits(n, a, b))
  {
    hide TimesAlpha, Add;
    TimesAlphaOfZero();
    if n > 0 {
      BitsOfAlpha(n - 1, a >> 1, TimesAlpha(b));
      TimesAlphaLinear(Part(a & 1, b), TimesBits(n - 1, a >> 1, TimesAlpha(b)));
    }
  }

  /** alpha^8 = alpha^4 + alpha^3 + alpha^2 + 1: the recurrence the exponent table is built by. */
  lemma Reduction(b: Elem)
    ensures Shifted(8, b) == Add(Add(Add(Shifted(4, b), Shifted(3, b)), Shifted(2, b)), b)
  {
    ReductionUnfolded(b);
    hide TimesAlpha, Add, Shifted;
    ShiftedNext(0, b);
    ShiftedNext(1, b);
    ShiftedNext(2, b);
    ShiftedNext(3, b);
    ShiftedNext(4, b);
    ShiftedNext(5, b);
    ShiftedNext(6, b);
    ShiftedNext(7, b);
  }

  lemma ShiftedNext(n: nat, b: Elem)
    ensures Shifted(0, b) == b && Shifted(n + 1, b) == TimesAlpha(Shifted(n, b))
  {
  }

  lemma ReductionUnfolded(b: Elem)
    ensures var b2 := TimesAlpha(TimesAlpha(b));
            var b4 := TimesAlpha(TimesAlpha(b2));
            TimesAlpha(TimesAlpha(TimesAlpha(TimesAlpha(b4)))) == Add(Add(Add(b4, TimesAlpha(b2)), b2), b)
  {
  }

  lemma {:induction false} BitsOfZero(n: nat, b: Elem)
    ensures TimesBits(n, 0, b) == 0
  {
    hide TimesAlpha, Add;
    AddLaws(0, 0, 0);
    if n > 0 {
      assert 0 as bv8 >> 1 == 0;
      BitsOfZero(n - 1, TimesAlpha(b));
    }
  }

  /** Bit k alone multiplies by alpha^k. */
  lemma {:induction false} SingleBit(n: nat, k: nat, b: Elem)
    requires k < n <= 8
    ensures TimesBits(n, 1 << k, b) == Shifted(k, b)
  {
    hide TimesAlpha, Add;
    if k == 0 {
      assert 1 as bv8 >> 1 == 0 && 1 as bv8 & 1 != 0;
      BitsOfZero(n - 1, TimesAlpha(b));
      AddLaws(b, 0, 0);
    } else {
      SingleBit(n - 1, k - 1, TimesAlpha(b));
      assert (1 as bv8 << k) >> 1 == 1 << (k - 1) && (1 as bv8 << k) & 1 == 0;
      ShiftedAdds(k - 1, 1, b);
      AddLaws(Shifted(k, b), 0, 0);
    }
  }

  lemma BitsDoubled(n: nat, a: bv8, b: Elem)
    requires 0 < n <= 8 && a & 0x80 == 0
    ensures TimesBits(n, a << 1, b) == TimesBits(n - 1, a, TimesAlpha(b))
  {
    hide TimesAlpha, Add;
    assert (a << 1) & 1 == 0 && (a << 1) >> 1 == a;
    AddLaws(TimesBits(n - 1, a, TimesAlpha(b)), 0, 0);
  }

  lemma {:induction false} TopBitClear(n: nat, a: bv8, b: Elem)
    requires 0 < n <= 8 && a >> (n - 1) == 0
    ensures TimesBits(n, a, b) == TimesBits(n - 1, a, b)
  {
    hide TimesAlpha, Add;
    if n == 1 {
      assert a == 0;
      AddLaws(0, 0, 0);
    } else {
      assert (a >> 1) >> (n - 2) == a >> (n - 1);
      TopBitClear(n - 1, a >> 1, TimesAlpha(b));
    }
  }

  lemma LowTimesAlpha(low: Elem, b: Elem)
    requires low & 0x80 == 0
    ensures Times(TimesAlpha(low), b) == TimesAlpha(Times(low, b))
  {
    assert TimesAlpha(low) == low << 1;
    assert low >> 7 == 0;
    hide TimesAlpha, Add, TimesBits;
    BitsDoubled(8, low, b);
    TopBitClear(8, low, TimesAlpha(b));
    BitsOfAlpha(8, low, b);
  }

  lemma SingleBits(b: Elem)
    ensures Times(128, b) == Shifted(7, b) && Times(16, b) == Shifted(4, b) && Times(8, b) == Shifted(3, b)
    ensures Times(4, b) == Shifted(2, b) && Times(1, b) == b
  {
    hide TimesAlpha, Add, TimesBits, Shifted, Times;
    HighSingleBits(b);
    LowSingleBits(b);
    ShiftedNext(0, b);
  }

  lemma HighSingleBits(b: Elem)
    ensures Times(128, b) == Shifted(7, b) && Times(16, b) == Shifted(4, b) && Times(8, b) == Shifted(3, b)
  {
    assert 128 as bv8 == 1 << 7 && 16 as bv8 == 1 << 4 && 8 as bv8 == 1 << 3;
    hide TimesAlpha, Add, TimesBits, Shifted;
    SingleBit(8, 7, b);
    SingleBit(8, 4, b);
    SingleBit(8, 3, b);
  }

  lemma LowSingleBits(b: Elem)
    ensures Times(4, b) == Shifted(2, b) && Times(1, b) == Shifted(0, b)
  {
    assert 4 as bv8 == 1 << 2 && 1 as bv8 == 1 << 0;
    hide TimesAlpha, Add, TimesBits, Shifted;
    SingleBit(8, 2, b);
    SingleBit(8, 0, b);
  }

  lemma TopTimesAlpha(b: Elem)
    ensures Times(TimesAlpha(0x80), b) == TimesAlpha(Times(0x80, b))
  {
    assert TimesAlpha(0x80) == Add(Add(Add(16, 8), 4), 1);
    hide TimesAlpha, Add, Times, Shifted;
    SingleBits(b);
    Reduction(b);
    Distributes(b, Add(Add(16, 8), 4), 1);
    Distributes(b, Add(16, 8), 4);
    Distributes(b, 16, 8);
    ShiftedNext(7, b);
  }

  /** alpha a times b is alpha times a b. */
  lemma TimesAlphaLeft(a: Elem, b: Elem)
    ensures Times(TimesAlpha(a), b) == TimesAlpha(Times(a, b))
  {
    var low, top := a & 0x7f, a & 0x80;
    assert a == Add(low, top) && low & 0x80 == 0 && (top == 0 || top == 0x80);
    hide TimesAlpha, Add, TimesBits;
    LowTimesAlpha(low, b);
    if top == 0 {
      AddLaws(low, 0, 0);
    } else {
      TopTimesAlpha(b);
      TimesAlphaLinear(low, top);
      Distributes(b, TimesAlpha(low), TimesAlpha(top));
      Distributes(b, low, top);
      TimesAlphaLinear(Times(low, b), Times(top, b));
    }
  }

  /** The product with a power of alpha: so exponents add. */
  lemma {:induction false} TimesOfAlpha(n: nat, b: Elem)
    ensures Times(Alpha(n), b) == Shifted(n, b)
  {
    hide TimesAlpha, Add, TimesBits;
    if n == 0 {
      SingleBit(8, 0, b);
      assert 1 as bv8 << 0 == 1;
    } else {
      TimesOfAlpha(n - 1, b);
      TimesAlphaLeft(Alpha(n - 1), b);
    }
  }

  lemma AlphaAdds(m: nat, n: nat)
    ensures Times(Alpha(m), Alpha(n)) == Alpha(m + n)
  {
    hide TimesAlpha, Add, Times;
    TimesOfAlpha(m, Alpha(n));
    ShiftedAdds(m, n, 1);
  }

  // ---- the powers of alpha are all the nonzero elements ------------------------------------------

  lemma {:induction false} ShiftedInjective(n: nat, b: Elem, c: Elem)
    requires Shifted(n, b) == Shifted(n, c)
    ensures b == c
  {
    hide TimesAlpha;
    if n > 0 {
      TimesAlphaInjective(Shifted(n - 1, b), Shifted(n - 1, c));
      ShiftedInjective(n - 1, b, c);
    }
  }

  lemma PowersComputed()
    ensures Alpha(255) == 1 && Alpha(85) != 1 && Alpha(51) != 1 && Alpha(15) != 1
  {
    hide Alpha, Times;
    FirstPowers();
    Products();
    AlphaAdds(4, 4);
    AlphaAdds(8, 8);
    AlphaAdds(16, 16);
    AlphaAdds(32, 32);
    AlphaAdds(8, 4);
    AlphaAdds(12, 3);
    AlphaAdds(32, 16);
    AlphaAdds(48, 3);
    AlphaAdds(64, 16);
    AlphaAdds(80, 4);
    AlphaAdds(84, 1);
    AlphaAdds(85, 85);
    AlphaAdds(170, 85);
  }

  lemma TimesUnfolded(a: bv8, b: Elem)
    ensures var b1 := TimesAlpha(b); var b2 := TimesAlpha(b1); var b3 := TimesAlpha(b2); var b4 := TimesAlpha(b3);
            var b5 := TimesAlpha(b4); var b6 := TimesAlpha(b5); var b7 := TimesAlpha(b6);
            var a1 := a >> 1; var a2 := a1 >> 1; var a3 := a2 >> 1; var a4 := a3 >> 1;
            var a5 := a4 >> 1; var a6 := a5 >> 1; var a7 := a6 >> 1;
            Times(a, b) == Add(Part(a & 1, b), Add(Part(a1 & 1, b1), Add(Part(a2 & 1, b2), Add(Part(a3 & 1, b3),
                           Add(Part(a4 & 1, b4), Add(Part(a5 & 1, b5), Add(Part(a6 & 1, b6), Part(a7 & 1, b7))))))))
  {
    hide TimesAlpha, Add;
    var b1 := TimesAlpha(b);
    var b2 := TimesAlpha(b1);
    var b3 := TimesAlpha(b2);
    var b4 := TimesAlpha(b3);
    var b5 := TimesAlpha(b4);
    var b6 := TimesAlpha(b5);
    var b7 := TimesAlpha(b6);
    var a1 := a >> 1;
    var a2 := a1 >> 1;
    var a3 := a2 >> 1;
    var a4 := a3 >> 1;
    var a5 := a4 >> 1;
    var a6 := a5 >> 1;
    var a7 := a6 >> 1;
    NextBits(7, a, b);
    NextBits(6, a1, b1);
    NextBits(5, a2, b2);
    NextBits(4, a3, b3);
    NextBits(3, a4, b4);
    NextBits(2, a5, b5);
    NextBits(1, a6, b6);
    NextBits(0, a7, b7);
    AddLaws(Part(a7 & 1, b7), 0, 0);
  }

  lemma NextBits(n: nat, a: bv8, b: Elem)
    ensures TimesBits(n + 1, a, b) == Add(Part(a & 1, b), TimesBits(n, a >> 1, TimesAlpha(b))) && TimesBits(0, a, b) == 0
  {
  }

  lemma Products()
    ensures Times(16, 16) == 29  // alpha^8
    ensures Times(29, 29) == 76  // alpha^16
    ensures Times(76, 76) == 157  // alpha^32
    ensures Times(157, 157) == 95  // alpha^64
    ensures Times(29, 16) == 205  // alpha^12
    ensures Times(205, 8) == 38  // alpha^15
    ensures Times(157, 76) == 70  // alpha^48
    ensures Times(70, 8) == 10  // alpha^51
    ensures Times(95, 76) == 253  // alpha^80
    ensures Times(253, 16) == 107  // alpha^84
    ensures Times(107, 2) == 214  // alpha^85
    ensures Times(214, 214) == 215  // alpha^170
    ensures Times(215, 214) == 1  // alpha^255
  {
    hide TimesBits, Times;
    TimesUnfolded(16, 16);
    TimesUnfolded(29, 29);
    TimesUnfolded(76, 76);
    TimesUnfolded(157, 157);
    TimesUnfolded(29, 16);
    TimesUnfolded(205, 8);
    TimesUnfolded(157, 76);
    TimesUnfolded(70, 8);
    TimesUnfolded(95, 76);
    TimesUnfolded(253, 16);
    TimesUnfolded(107, 2);
    TimesUnfolded(214, 214);
    TimesUnfolded(215, 214);
  }

  lemma FirstPowers()
    ensures Alpha(1) == 2 && Alpha(2) == 4 && Alpha(3) == 8 && Alpha(4) == 16
  {
    assert Shifted(1, 1) == 2 && Shifted(2, 1) == 4 && Shifted(3, 1) == 8;
  }

  lemma {:induction false} Cycle(d: nat, q: nat, r: nat)
    requires Alpha(d) == 1
    ensures Alpha(d * q + r) == Alpha(r)
  {
    hide TimesAlpha;
    if q > 0 {
      Cycle(d, q - 1, r);
      ShiftedAdds(d * (q - 1) + r, d, 1);
      assert d * q + r == (d * (q - 1) + r) + d;
    }
  }

  lemma ProperDivisors(d: nat, q: nat)
    requires d * q == 255 && q >= 2
    ensures d > 0 && (15 % d == 0 || 51 % d == 0 || 85 % d == 0)
  {
    if d <= 15 {
      assert d == 1 || d == 3 || d == 5 || d == 15;
    } else {
      assert (d - 16) * q >= 0;
      assert d == 17 || d == 51 || d == 85;
    }
  }

  /** alpha has order 255: a smaller exponent would divide 255, hence 15, 51 or 85. */
  lemma {:induction false} SmallPowersDiffer(d: nat)
    requires 0 < d < 255
    ensures Alpha(d) != 1
    decreases d
  {
    hide Alpha;
    PowersComputed();
    if Alpha(d) == 1 {
      Cycle(d, 255 / d, 255 % d);
      if 255 % d == 0 {
        ProperDivisors(d, 255 / d);
        Cycle(d, 15 / d, 15 % d);
        Cycle(d, 51 / d, 51 % d);
        Cycle(d, 85 / d, 85 % d);
        ZerothPower();
      } else {
        SmallPowersDiffer(255 % d);
      }
    }
  }

  lemma ZerothPower()
    ensures Alpha(0) == 1
  {
  }

  lemma AlphaInjective(i: nat, j: nat)
    requires i <= j < 255 && Alpha(i) == Alpha(j)
    ensures i == j
  {
    hide TimesAlpha;
    ShiftedAdds(i, j - i, 1);
    ShiftedInjective(i, Alpha(j - i), 1);
    if i < j { SmallPowersDiffer(j - i); }
  }

  ghost function Powers(n: nat): set<Elem> {
    if n == 0 then {} else Powers(n - 1) + {Alpha(n - 1)}
  }

  lemma {:induction false} PowersAre(n: nat, x: Elem)
    ensures x in Powers(n) <==> exists i :: 0 <= i < n && Alpha(i) == x
  {
    hide Alpha;
    if n > 0 { PowersAre(n - 1, x); }
  }

  lemma {:induction false} PowersCount(n: nat)
    requires n <= 255
    ensures |Powers(n)| == n
  {
    hide Alpha;
    if n > 0 {
      PowersCount(n - 1);
      PowersAre(n - 1, Alpha(n - 1));
      forall i | 0 <= i < n - 1 ensures Alpha(i) != Alpha(n - 1) {
        if Alpha(i) == Alpha(n - 1) { AlphaInjective(i, n - 1); }
      }
    }
  }

  function Index(x: Elem): nat {
    x as int
  }

  lemma IndexInjective(x: Elem, y: Elem)
    requires Index(x) == Index(y)
    ensures x == y
  {
  }

  ghost function Below(n: nat): set<Elem>
    requires n <= 256
  {
    if n == 0 then {} else Below(n - 1) + {(n - 1) as bv8}
  }

  lemma {:induction false} BelowCount(n: nat)
    requires n <= 256
    ensures |Below(n)| <= n
  {
    if n > 0 { BelowCount(n - 1); }
  }

  lemma {:induction false} BelowHolds(n: nat, x: Elem)
    requires Index(x) < n <= 256
    ensures x in Below(n)
  {
    if Index(x) < n - 1 {
      BelowHolds(n - 1, x);
    } else {
      IndexInjective(x, (n - 1) as bv8);
    }
  }

  lemma {:induction false} AlphaIsNotZero(n: nat)
    ensures Alpha(n) != 0
  {
    if n > 0 {
      AlphaIsNotZero(n - 1);
      TimesAlphaOfZero();
      if Alpha(n) == 0 { TimesAlphaInjective(Alpha(n - 1), 0); }
    }
  }

  lemma LogExists(x: Elem)
    requires x != 0
    ensures exists n :: 0 <= n < 255 && Alpha(n) == x
  {
    hide Alpha, Powers, Below;
    var all := Below(256);
    PowersCount(255);
    BelowCount(256);
    PowersAre(255, 0);
    forall y ensures y in all {
      BelowHolds(256, y);
    }
    forall n | 0 <= n ensures Alpha(n) != 0 {
      AlphaIsNotZero(n);
    }
    FullSubset(Powers(255), all - {0}, x);
    PowersAre(255, x);
  }

  /** A subset as large as the whole leaves nothing out. */
  lemma FullSubset<A>(part: set<A>, whole: set<A>, x: A)
    requires part <= whole && |part| >= |whole| && x in whole
    ensures x in part
  {
    assert |whole - part| == |whole| - |part|;
    assert whole - part == {};
  }

  ghost function Log(x: Elem): (n: nat)
    requires x != 0
    ensures n < 255 && Alpha(n) == x
  {
    LogExists(x);
    var n: nat :| n < 255 && Alpha(n) == x;
    n
  }

  // ---- the field -----------------------------------------------------------------------------------

  lemma TimesZero(x: Elem)
    ensures Times(x, 0) == 0 && Times(0, x) == 0
  {
    hide TimesBits, Add;
    BitsOfZero(8, x);
    Distributes(x, 0, 0);
    AddLaws(0, 0, 0);
    AddLaws(Times(x, 0), 0, 0);
  }

  lemma TimesOne(x: Elem)
    ensures Times(1, x) == x
  {
    hide TimesBits;
    TimesOfAlpha(0, x);
  }

  lemma TimesCommutes(x: Elem, y: Elem)
    ensures Times(x, y) == Times(y, x)
  {
    hide Times, Alpha;
    if x == 0 {
      TimesZero(y);
    } else if y == 0 {
      TimesZero(x);
    } else {
      AlphaAdds(Log(x), Log(y));
      AlphaAdds(Log(y), Log(x));
    }
  }

  lemma TimesAssociates(x: Elem, y: Elem, z: Elem)
    ensures Times(Times(x, y), z) == Times(x, Times(y, z))
  {
    hide Times, Alpha;
    TimesZero(x);
    TimesZero(y);
    TimesZero(z);
    TimesZero(Times(x, y));
    TimesZero(Times(y, z));
    if x != 0 && y != 0 && z != 0 {
      var i, j, k := Log(x), Log(y), Log(z);
      AlphaAdds(i, j);
      AlphaAdds(i + j, k);
      AlphaAdds(j, k);
      AlphaAdds(i, j + k);
    }
  }

  lemma NoZeroDivisors(x: Elem, y: Elem)
    ensures Times(x, y) == 0 <==> x == 0 || y == 0
  {
    hide Times, Alpha;
    TimesZero(x);
    TimesZero(y);
    if x != 0 && y != 0 {
      AlphaAdds(Log(x), Log(y));
      AlphaIsNotZero(Log(x) + Log(y));
    }
  }

  /** Exponents count modulo 255. */
  lemma AlphaModulo(n: nat)
    ensures Alpha(n) == Alpha(n % 255)
  {
    PowersComputed();
    Cycle(255, n / 255, n % 255);
  }
}
