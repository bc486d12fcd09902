/**
 What the ladder of RFC 7748 computes: on the curve y^2 = x^3 + 486662 x^2 + x, from the point of
 x-coordinate u, the x-coordinates of its k-fold and (k+1)-fold, halving k for every doubling.
 Points are fractions x/z.
 */
module X25519Curve {
  import opened Int32
  import opened Field25519
  import opened X25519Scalar

  datatype Point = Point(x: int, z: int)

  /** Twice a point, modulo m. */
  function Twice(p: Point, m: int): Point
    requires m > 0
  {
    var s, t := p.x * p.x, p.z * p.z;
    Point((s - t) * (s - t) % m, 4 * (p.x * p.z) * (s + 486662 * (p.x * p.z) + t) % m)
  }

  /** The sum of two points whose difference has x-coordinate u. */
  function Sum(u: int, p: Point, q: Point, m: int): Point
    requires m > 0
  {
    var c, d := p.x * q.x - p.z * q.z, p.x * q.z - p.z * q.x;
    Point(4 * (c * c) % m, u * (4 * (d * d)) % m)
  }

  datatype Pair = Pair(k: Point, next: Point)

  /** The k-fold and the (k+1)-fold of the point of x-coordinate u, k read as a number of t bits. */
  function Multiples(k: nat, u: int, t: nat): Pair {
    if t == 0 then Pair(Point(1, 0), Point(u, 1))
    else
      var half := Multiples(k / 2, u, t - 1);
      var odd := Sum(u, half.k, half.next, P);
      if k % 2 == 0 then Pair(Twice(half.k, P), odd) else Pair(odd, Twice(half.next, P))
  }

  function Points(s: Ladder): Pair {
    Pair(Point(s.x2, s.z2), Point(s.x3, s.z3))
  }

  // ---- modulo m ------------------------------------------------------------------------------

  function AddM(x: int, y: int, m: int): int
    requires m > 0
  {
    (x + y) % m
  }

  function SubM(x: int, y: int, m: int): int
    requires m > 0
  {
    (x - y) % m
  }

  function MulM(x: int, y: int, m: int): int
    requires m > 0
  {
    x * y % m
  }

  lemma AddOf(x: int, y: int, v: int, w: int, m: int)
    requires m > 0 && x == v % m && y == w % m
    ensures AddM(x, y, m) == (v + w) % m
  {
    AddOfRemainders(v, w, m);
  }

  lemma SubOf(x: int, y: int, v: int, w: int, m: int)
    requires m > 0 && x == v % m && y == w % m
    ensures SubM(x, y, m) == (v - w) % m
  {
    SubOfRemainders(v, w, m);
  }

  lemma MulOf(x: int, y: int, v: int, w: int, m: int)
    requires m > 0 && x == v % m && y == w % m
    ensures MulM(x, y, m) == v * w % m
  {
    MulOfRemainders(v, w, m);
  }

  lemma OpsAre(x: int, y: int, m: int)
    requires m > 0
    ensures AddM(x, y, m) == (x + y) % m && SubM(x, y, m) == (x - y) % m
  {
  }

  // ---- polynomial identities -------------------------------------------------------------------

  lemma SquaresApart(x: int, z: int)
    ensures (x + z) * (x - z) == x * x - z * z
    ensures (x + z) * (x + z) - (x - z) * (x - z) == 4 * (x * z)
    ensures (x + z) * (x + z) == x * x + 2 * (x * z) + z * z
  {
  }

  lemma ProductOfSquares(p: int, q: int)
    ensures (p * p) * (q * q) == (p * q) * (p * q)
  {
    assert (p * p) * (q * q) == p * (p * (q * q)) == p * (q * (p * q)) == (p * q) * (p * q);
  }

  lemma CrossProducts(x2: int, z2: int, x3: int, z3: int)
    ensures (x3 - z3) * (x2 + z2) + (x3 + z3) * (x2 - z2) == 2 * (x2 * x3 - z2 * z3)
    ensures (x3 - z3) * (x2 + z2) - (x3 + z3) * (x2 - z2) == -2 * (x2 * z3 - z2 * x3)
  {
  }

  lemma SquareOfMultiple(k: int, d: int)
    ensures (k * d) * (k * d) == (k * k) * (d * d)
  {
    assert (k * d) * (k * d) == k * (d * (k * d)) == k * (k * (d * d)) == (k * k) * (d * d);
  }

  // ---- one step -----------------------------------------------------------------------------------

  /** LadderStep, modulo m. */
  function StepM(u: int, s: Ladder, m: int): Ladder
    requires m > 0
  {
    var a := AddM(s.x2, s.z2, m);
    var aa := MulM(a, a, m);
    var b := SubM(s.x2, s.z2, m);
    var bb := MulM(b, b, m);
    var e := SubM(aa, bb, m);
    var c := AddM(s.x3, s.z3, m);
    var d := SubM(s.x3, s.z3, m);
    var da := MulM(d, a, m);
    var cb := MulM(c, b, m);
    Ladder(
      MulM(aa, bb, m),
      MulM(e, AddM(aa, MulM(121665, e, m), m), m),
      MulM(AddM(da, cb, m), AddM(da, cb, m), m),
      MulM(u, MulM(SubM(da, cb, m), SubM(da, cb, m), m), m))
  }

  lemma StepIs(u: int, s: Ladder)
    ensures StepM(u, s, P) == LadderStep(u, s)
  {
  }

  lemma Doubling(x: int, z: int, m: int)
    requires m > 0
    ensures var a, b := AddM(x, z, m), SubM(x, z, m);
            var aa, bb := MulM(a, a, m), MulM(b, b, m);
            var e := SubM(aa, bb, m);
            Point(MulM(aa, bb, m), MulM(e, AddM(aa, MulM(121665, e, m), m), m)) == Twice(Point(x, z), m)
  {
    hide AddM, SubM, MulM;
    var a, b := AddM(x, z, m), SubM(x, z, m);
    OpsAre(x, z, m);
    var aa, bb := MulM(a, a, m), MulM(b, b, m);
    MulOf(a, a, x + z, x + z, m);
    MulOf(b, b, x - z, x - z, m);
    SquaresApart(x, z);
    var e, p := SubM(aa, bb, m), x * z;
    SubOf(aa, bb, (x + z) * (x + z), (x - z) * (x - z), m);
    MulOf(aa, bb, (x + z) * (x + z), (x - z) * (x - z), m);
    ProductOfSquares(x + z, x - z);
    TimesRemainder(121665, 4 * p, m);
    AddOf(aa, MulM(121665, e, m), (x + z) * (x + z), 121665 * (4 * p), m);
    MulOf(e, AddM(aa, MulM(121665, e, m), m), 4 * p, (x + z) * (x + z) + 121665 * (4 * p), m);
  }

  lemma TimesRemainder(u: int, v: int, m: int)
    requires m > 0
    ensures MulM(u, v % m, m) == u * v % m
  {
    MulOfRemainder(v, u, m);
    assert v * u == u * v && (v % m) * u == u * (v % m);
  }

  lemma Adding(u: int, x2: int, z2: int, x3: int, z3: int, m: int)
    requires m > 0
    ensures var da, cb := MulM(SubM(x3, z3, m), AddM(x2, z2, m), m), MulM(AddM(x3, z3, m), SubM(x2, z2, m), m);
            Point(MulM(AddM(da, cb, m), AddM(da, cb, m), m), MulM(u, MulM(SubM(da, cb, m), SubM(da, cb, m), m), m))
            == Sum(u, Point(x2, z2), Point(x3, z3), m)
  {
    hide AddM, SubM, MulM;
    OpsAre(x2, z2, m);
    OpsAre(x3, z3, m);
    var da, cb := MulM(SubM(x3, z3, m), AddM(x2, z2, m), m), MulM(AddM(x3, z3, m), SubM(x2, z2, m), m);
    MulOf(SubM(x3, z3, m), AddM(x2, z2, m), x3 - z3, x2 + z2, m);
    MulOf(AddM(x3, z3, m), SubM(x2, z2, m), x3 + z3, x2 - z2, m);
    CrossProducts(x2, z2, x3, z3);
    var c, d := x2 * x3 - z2 * z3, x2 * z3 - z2 * x3;
    AddOf(da, cb, (x3 - z3) * (x2 + z2), (x3 + z3) * (x2 - z2), m);
    SubOf(da, cb, (x3 - z3) * (x2 + z2), (x3 + z3) * (x2 - z2), m);
    MulOf(AddM(da, cb, m), AddM(da, cb, m), 2 * c, 2 * c, m);
    MulOf(SubM(da, cb, m), SubM(da, cb, m), -2 * d, -2 * d, m);
    SquareOfMultiple(2, c);
    SquareOfMultiple(-2, d);
    TimesRemainder(u, 4 * (d * d), m);
  }

  lemma StepModulo(u: int, s: Ladder, m: int)
    requires m > 0
    ensures Points(StepM(u, s, m)) == Pair(Twice(Points(s).k, m), Sum(u, Points(s).k, Points(s).next, m))
  {
    hide Twice, Sum, AddM, SubM, MulM;
    Doubling(s.x2, s.z2, m);
    Adding(u, s.x2, s.z2, s.x3, s.z3, m);
  }

  /** The step of RFC 7748 doubles the first point and adds the two: that is where 121665 comes from. */
  lemma StepOnCurve(u: int, s: Ladder)
    ensures Points(LadderStep(u, s)) == Pair(Twice(Points(s).k, P), Sum(u, Points(s).k, Points(s).next, P))
  {
    hide Twice, Sum, StepM, LadderStep;
    StepIs(u, s);
    StepModulo(u, s, P);
  }

  lemma SumCommutes(u: int, p: Point, q: Point, m: int)
    requires m > 0
    ensures Sum(u, p, q, m) == Sum(u, q, p, m)
  {
    var d := p.x * q.z - p.z * q.x;
    assert q.x * p.z - q.z * p.x == -d && (-d) * (-d) == d * d;
    assert q.x * p.x - q.z * p.z == p.x * q.x - p.z * q.z;
  }

  // ---- the loop -------------------------------------------------------------------------------------

  /** A step between two exchanges takes the multiples of k / 2 to those of k. */
  lemma StepToNext(k: nat, u: int, t: nat, s: Ladder)
    requires t > 0 && Points(s) == Multiples(k / 2, u, t - 1)
    ensures var bit := k % 2 == 1; Points(CSwap(bit, LadderStep(u, CSwap(bit, s)))) == Multiples(k, u, t)
  {
    hide LadderStep, Twice, Sum;
    var bit := k % 2 == 1;
    StepOnCurve(u, CSwap(bit, s));
    SumCommutes(u, Points(s).k, Points(s).next, P);
  }

  /** The number without its lowest t bits. */
  function Top(k: nat, t: nat): nat {
    QuotientIsNat(k, Pow2(t));
    k / Pow2(t)
  }

  lemma QuotientIsNat(k: nat, m: nat)
    requires m > 0
    ensures k / m >= 0
  {
  }

  lemma LoopNext(k: nat, u: int, t: nat, s: Ladder, swap: bool)
    requires t > 0
    ensures var bit := Top(k, t - 1) % 2 == 1;
            LadderLoop(k, u, t, s, swap) == LadderLoop(k, u, t - 1, LadderStep(u, CSwap(bit, CSwap(swap, s))), bit)
  {
    hide LadderStep;
  }

  lemma {:induction false} LoopOnCurve(k: nat, u: int, n: nat, t: nat, s: Ladder, swap: bool)
    requires t <= n && Points(CSwap(swap, s)) == Multiples(Top(k, t), u, n - t)
    ensures Points(LadderLoop(k, u, t, s, swap)) == Multiples(k, u, n)
    decreases t
  {
    if t == 0 {
      PowerZero(k);
    } else {
      hide LadderStep, LadderLoop, Multiples, Top;
      var k' := Top(k, t - 1);
      var bit := k' % 2 == 1;
      PowerHalves(k, t);
      LoopNext(k, u, t, s, swap);
      StepToNext(k', u, n - t + 1, CSwap(swap, s));
      LoopOnCurve(k, u, n, t - 1, LadderStep(u, CSwap(bit, CSwap(swap, s))), bit);
    }
  }

  lemma PowerZero(k: nat)
    ensures Top(k, 0) == k
  {
  }

  lemma DivideThenHalf(k: nat, m: nat)
    requires m > 0
    ensures k / m / 2 == k / (2 * m)
  {
    var q, r := k / m, k % m;
    assert k == m * q + r && q == 2 * (q / 2) + q % 2;
    assert m * (2 * (q / 2) + q % 2) == (2 * m) * (q / 2) + m * (q % 2);
    DivRemUnique(k, 2 * m, q / 2, m * (q % 2) + r);
  }

  lemma PowerHalves(k: nat, t: nat)
    requires t > 0
    ensures Top(k, t - 1) / 2 == Top(k, t)
  {
    DivideThenHalf(k, Pow2(t - 1));
  }

  lemma PowerAbove(k: nat, t: nat)
    requires k < Pow2(t)
    ensures Top(k, t) == 0
  {
    DivRemUnique(k, Pow2(t), 0, k);
  }

  /** X25519 divides the fraction of the k-fold out, for every scalar of at most n bits; RFC 7748 has 255. */
  lemma LadderOnCurve(k: nat, u: int, n: nat)
    requires k < Pow2(n)
    ensures Points(LadderLoop(k, u, n, Ladder(1, 0, u, 1), false)) == Multiples(k, u, n)
  {
    hide LadderLoop, Pow2, Top;
    PowerAbove(k, n);
    LoopOnCurve(k, u, n, n, Ladder(1, 0, u, 1), false);
  }

  // ---- the quotient -----------------------------------------------------------------------------------

  lemma Doubled(n: nat, v: int)
    requires Pow2(n) == v
    ensures Pow2(2 * n) == v * v
  {
    Pow2Splits(n, n);
  }

  lemma TwoTo255()
    ensures Pow2(BITS) == TWO255
  {
    hide Pow2;
    PowersOfTwo();
    Doubled(8, 256);
    Doubled(16, 0x1_0000);
    Doubled(32, 0x1_0000_0000);
    Doubled(64, 0x1_0000_0000_0000_0000);
    Doubled(128, 0x1_0000_0000_0000_0000_0000_0000_0000_0000);
    OneHalf(BITS);
  }

  lemma OneHalf(n: nat)
    ensures Pow2(n + 1) == 2 * Pow2(n)
  {
  }

  lemma PowerNext(x: int, n: nat)
    ensures FPow(x, n + 1) == FMul(FPow(x, n), x)
  {
  }

  lemma PowerOfZero(x: int, n: nat)
    requires x % P == 0 && n > 0
    ensures FPow(x, n) == 0
  {
    PowerNext(x, n - 1);
    MultipleDropped(0, FPow(x, n - 1) * (x / P), P);
    MultipleIs(FPow(x, n - 1), x, P);
  }

  lemma MultipleIs(f: int, x: int, m: int)
    requires m > 0 && x % m == 0
    ensures f * x == 0 + (f * (x / m)) * m
  {
    assert x == (x / m) * m;
    assert f * ((x / m) * m) == (f * (x / m)) * m;
  }

  /** What is multiplied by the inverse of z, and by z, is left. */
  lemma Cancels(x: int, f: int, z: int, m: int)
    requires m > 1 && f * z % m == 1
    ensures (x * f % m) * z % m == x % m
  {
    MulAssociates(x, f, z, m);
  }

  /**
   What X25519 computes: the x-coordinate of the scalar's multiple of the point, its fraction divided
   out, and 0 for the point at infinity. That z^(P-1) is 1 for every z that P does not divide is
   Fermat's little theorem for the prime 2^255 - 19, which is not proved here.
   */
  lemma ResultIsQuotient(q: seq<int>, n: Octets, u: Octets)
    requires IsX25519(q, n, u)
    ensures var p := Multiples(Scalar(n), LittleEndian(u) % TWO255 % P, BITS).k;
            && (p.z % P == 0 ==> LittleEndian(q) == 0)
            && (FPow(p.z, P - 1) == 1 ==> FMul(LittleEndian(q), p.z) == p.x % P)
  {
    hide Multiples, LadderLoop, FPow, FMul, Pow2, LittleEndian, Scalar;
    var k, x := Scalar(n), LittleEndian(u) % TWO255 % P;
    ClampedScalar(n);
    TwoTo255();
    LadderOnCurve(k, x, BITS);
    ScalarTimesIs(k, x);
    var p := Multiples(k, x, BITS).k;
    Quotient(p.x, p.z, LittleEndian(q));
  }

  lemma Quotient(x: int, z: int, r: int)
    requires r == FMul(x, FPow(z, P - 2))
    ensures z % P == 0 ==> r == 0
    ensures FPow(z, P - 1) == 1 ==> FMul(r, z) == x % P
  {
    hide FPow;
    if z % P == 0 {
      PowerOfZero(z, P - 2);
    }
    PowerNext(z, P - 2);
    if FPow(z, P - 1) == 1 {
      Cancels(x, FPow(z, P - 2), z, P);
    }
  }

  lemma ScalarTimesIs(k: nat, u: int)
    ensures var p := Points(LadderLoop(k, u, BITS, Ladder(1, 0, u, 1), false)).k;
            ScalarTimes(k, u) == FMul(p.x, FPow(p.z, P - 2))
  {
    hide LadderLoop, FPow, FMul;
  }
}
