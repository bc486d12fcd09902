/** x25519.js: the Montgomery ladder of section 5 of RFC 7748, and `x25519Base`. */
module X25519Ladder {
  import opened Bytes
  import opened Int32
  import opened Field25519
  import opened X25519
  import opened X25519Pack
  import opened X25519Scalar

  // ---- the scalar's bits -------------------------------------------------------------------

  lemma HalvesOf(x: int, m: int, n: int)
    requires m > 0 && n > 0
    ensures x / (m * n) == x / m / n
  {
    var q := x / m;
    var r := x % m;
    assert x == m * q + r && q == n * (q / n) + q % n;
    assert m * (n * (q / n) + q % n) == (m * n) * (q / n) + m * (q % n);
    MulOrder(n - 1, q % n, m);
    assert (n - 1) * m == m * n - m;
    MulOrder(q % n, 0, m);
    DivRemUnique(x, m * n, q / n, m * (q % n) + r);
  }

  lemma LowBit(x: nat, rest: nat, i: nat)
    requires i < 8
    ensures BitAt(x + 256 * rest, i) <==> BitAt(x, i)
  {
    Pow2Splits(i, 7 - i);
    PowersOfTwo();
    EvenQuotient(x, rest, Pow2(i), Pow2(7 - i));
  }

  lemma EvenQuotient(x: nat, rest: nat, m: nat, n: nat)
    requires m * n == 128
    ensures m > 0 && (x + 256 * rest) / m % 2 == x / m % 2
  {
    var q, r := x / m, 2 * (n * rest);
    assert m * r == 2 * ((m * n) * rest);
    assert m * (q + r) == m * q + m * r;
    DivRemUnique(x + 256 * rest, m, q + r, x % m);
  }

  lemma HighBit(x: nat, rest: nat, i: nat)
    requires x < 256 && i >= 8
    ensures BitAt(x + 256 * rest, i) <==> BitAt(rest, i - 8)
  {
    Pow2Splits(8, i - 8);
    PowersOfTwo();
    HalvesOf(x + 256 * rest, 256, Pow2(i - 8));
    DivRemUnique(x + 256 * rest, 256, rest, x);
  }

  /** Bit i of a little-endian number is bit i % 8 of its byte i / 8. */
  lemma {:induction false} BitOfByte(b: seq<int>, i: nat)
    requires AreBytes(b) && i < 8 * |b|
    ensures LittleEndian(b) >= 0 && 0 <= i / 8 < |b|
    ensures BitAt(LittleEndian(b), i) <==> BitAt(b[i / 8], i % 8)
  {
    LittleEndianRange(b[1..]);
    var rest := LittleEndian(b[1..]);
    if i < 8 {
      LowBit(b[0], rest, i);
    } else {
      BitOfByte(b[1..], i - 8);
      HighBit(b[0], rest, i);
      assert (i - 8) / 8 == i / 8 - 1 && (i - 8) % 8 == i % 8;
    }
  }

  lemma {:induction false} LittleEndianRange(b: seq<int>)
    requires AreBytes(b)
    ensures LittleEndian(b) >= 0
  {
    if |b| > 0 { LittleEndianRange(b[1..]); }
  }

  lemma IndexParts(i: int)
    requires 0 <= i < 256
    ensures Shr(i, 3) == i / 8 && And(i, 7) == i % 8
  {
    PowersOfTwo();
    AndMask(i, 3);
  }

  lemma BitMask(x: int, j: nat)
    requires 0 <= x < 256
    ensures Fits(Shr(x, j)) && And(Shr(x, j), 1) == (if BitAt(x, j) then 1 else 0)
  {
    ShiftFits(x, j);
    AndMask(Shr(x, j), 1);
    PowersOfTwo();
  }

  lemma ShiftFits(x: int, k: nat)
    requires 0 <= x < 256
    ensures 0 <= Shr(x, k) < 256
  {
    var m := Pow2(k);
    assert x == m * (x / m) + x % m;
    MulOrder(0, x / m + 1, m);
    if x / m > 0 {
      MulOrder(m, 1, x / m);
    }
  }

  // ---- one round ----------------------------------------------------------------------------

  predicate AllReduced(a: seq<int>, b: seq<int>, c: seq<int>, d: seq<int>) {
    Reduced(a) && Reduced(b) && Reduced(c) && Reduced(d)
  }

  /** The ladder's variables x2, z2, x3, z3 are a, c, b, d of the code. */
  function State(a: seq<int>, b: seq<int>, c: seq<int>, d: seq<int>): Ladder {
    Ladder(Fe(a), Fe(c), Fe(b), Fe(d))
  }

  predicate Distinct(a: array<int>, b: array<int>, c: array<int>, d: array<int>, e: array<int>, f: array<int>) {
    a.Length == b.Length == c.Length == d.Length == e.Length == f.Length == 16
    && a != b && a != c && a != d && a != e && a != f && b != c && b != d && b != e && b != f
    && c != d && c != e && c != f && d != e && d != f && e != f
  }

  /** The code's order of operations gives the four coordinates of the ladder step. */
  lemma StepRearranged(u: int, s: Ladder)
    ensures
      var a := FAdd(s.x2, s.z2);
      var b := FSub(s.x2, s.z2);
      var aa := FMul(a, a);
      var bb := FMul(b, b);
      var cb := FMul(FAdd(s.x3, s.z3), b);
      var da := FMul(FSub(s.x3, s.z3), a);
      var sum := FAdd(cb, da);
      var dif := FSub(cb, da);
      var e := FSub(aa, bb);
      LadderStep(u, s) == Ladder(FMul(aa, bb), FMul(e, FAdd(FMul(e, A24), aa)), FMul(sum, sum), FMul(FMul(dif, dif), u))
  {
    var a := FAdd(s.x2, s.z2);
    var b := FSub(s.x2, s.z2);
    var cb := FMul(FAdd(s.x3, s.z3), b);
    var da := FMul(FSub(s.x3, s.z3), a);
    SquareOfNegation(da - cb, P);
    FMulCommutes(u, FMul(FSub(cb, da), FSub(cb, da)));
    var e := FSub(FMul(a, a), FMul(b, b));
    FMulCommutes(A24, e);
  }

  /** The arithmetic of one round, between its two conditional exchanges. */
  method StepInPlace(a: array<int>, b: array<int>, c: array<int>, d: array<int>, e: array<int>, f: array<int>,
                     x: array<int>, k: array<int>)
    requires Distinct(a, b, c, d, e, f) && x.Length == k.Length == 16
    requires x !in {a, b, c, d, e, f} && k !in {a, b, c, d, e, f}
    requires AllReduced(a[..], b[..], c[..], d[..]) && Reduced(x[..])
    requires Reduced(k[..]) && Fe(k[..]) == A24
    modifies a, b, c, d, e, f
    ensures AllReduced(a[..], b[..], c[..], d[..])
    ensures State(a[..], b[..], c[..], d[..]) == LadderStep(Fe(x[..]), old(State(a[..], b[..], c[..], d[..])))
  {
    StepRearranged(Fe(x[..]), State(a[..], b[..], c[..], d[..]));
    ReducedIsSmall(x[..]);
    ReducedIsSmall(k[..]);
    Add(e, a, c);
    Sub(a, a, c);
    Add(c, b, d);
    Sub(b, b, d);
    Square(d, e);
    Square(f, a);
    Mul(a, c, a);
    Mul(c, b, e);
    Add(e, a, c);
    Sub(a, a, c);
    Square(b, a);
    Sub(c, d, f);
    Mul(a, c, k);
    Add(a, a, d);
    Mul(c, c, a);
    ReducedIsSmall(d[..]);
    ReducedIsSmall(f[..]);
    ReducedIsSmall(b[..]);
    Mul(a, d, f);
    Mul(d, b, x);
    Square(b, e);
  }

  // ---- the whole ladder ------------------------------------------------------------------------

  /** Both exchanges of the code, around a step: a pending swap carried over to the next round. */
  lemma RoundRefines(k: nat, u: int, t: nat, st: Ladder, st': Ladder, pending: bool)
    requires t > 0
    requires var bit := BitAt(k, t - 1); st' == CSwap(bit, LadderStep(u, CSwap(bit, st)))
    ensures LadderLoop(k, u, t, CSwap(pending, st), pending)
         == LadderLoop(k, u, t - 1, CSwap(BitAt(k, t - 1), st'), BitAt(k, t - 1))
  {
  }

  /** One turn of the ladder loop, for scalar bit r. */
  method Round(a: array<int>, b: array<int>, c: array<int>, d: array<int>, e: array<int>, f: array<int>,
               x: array<int>, k: array<int>, r: int)
    requires Distinct(a, b, c, d, e, f) && x.Length == k.Length == 16
    requires x !in {a, b, c, d, e, f} && k !in {a, b, c, d, e, f}
    requires AllReduced(a[..], b[..], c[..], d[..]) && Reduced(x[..])
    requires Reduced(k[..]) && Fe(k[..]) == A24
    requires r == 0 || r == 1
    modifies a, b, c, d, e, f
    ensures AllReduced(a[..], b[..], c[..], d[..])
    ensures State(a[..], b[..], c[..], d[..])
         == CSwap(r == 1, LadderStep(Fe(x[..]), CSwap(r == 1, old(State(a[..], b[..], c[..], d[..])))))
  {
    AllSmall(a[..], b[..], c[..], d[..]);
    Select(a, b, r);
    Select(c, d, r);
    StepInPlace(a, b, c, d, e, f, x, k);
    AllSmall(a[..], b[..], c[..], d[..]);
    Select(a, b, r);
    Select(c, d, r);
  }

  lemma AllSmall(a: seq<int>, b: seq<int>, c: seq<int>, d: seq<int>)
    requires AllReduced(a, b, c, d)
    ensures AllFit(a) && AllFit(b) && AllFit(c) && AllFit(d)
  {
    ReducedIsSmall(a);
    ReducedIsSmall(b);
    ReducedIsSmall(c);
    ReducedIsSmall(d);
  }

  lemma FeOfOne(s: seq<int>)
    requires |s| == 16 && s[0] == 1 && forall i | 1 <= i < 16 :: s[i] == 0
    ensures Reduced(s) && Fe(s) == 1
  {
    ValueZero(s[1..]);
  }

  lemma FeOfA24(s: seq<int>)
    requires |s| == 16 && s[0] == 0xdb41 && s[1] == 1 && forall i | 2 <= i < 16 :: s[i] == 0
    ensures Reduced(s) && Fe(s) == A24
  {
    ValueZero(s[1..][1..]);
    assert Value(s[1..]) == s[1..][0] + 65536 * Value(s[1..][1..]);
  }

  lemma ZeroLimbs(s: seq<int>)
    requires |s| == 16 && forall i | 0 <= i < 16 :: s[i] == 0
    ensures Reduced(s) && Fe(s) == 0
  {
    ValueZero(s);
  }

  /** The clamped scalar, in a fresh byte array. */
  method Clamp(n: array<int>) returns (z: array<int>)
    requires n.Length == 32 && AreBytes(n[..])
    ensures fresh(z) && z.Length == 32 && AreBytes(z[..]) && LittleEndian(z[..]) == Scalar(n[..])
  {
    ghost var s := n[..];
    z := new int[32](_ => 0);
    for i := 0 to 31
      invariant forall j | 0 <= j < i :: z[j] == s[j]
    {
      z[i] := n[i];
    }
    HighByte(s[31]);
    LowByte(s[0]);
    z[31] := Or(And(n[31], 127), 64);
    z[0] := And(z[0], 248);
    assert z[..] == s[31 := 64 + s[31] % 64][0 := s[0] - s[0] % 8];
    ClampedValue(s);
  }

  method ScalarBit(z: array<int>, i: nat) returns (r: int)
    requires z.Length == 32 && AreBytes(z[..]) && LittleEndian(z[..]) >= 0 && i < 255
    ensures r == (if BitAt(LittleEndian(z[..]), i) then 1 else 0)
  {
    BitOfByte(z[..], i);
    IndexParts(i);
    BitMask(z[..][i / 8], i % 8);
    r := And(Shr(z[Shr(i, 3)], And(i, 7)), 1);
  }

  /** The 255 rounds, from the top bit of the scalar down. */
  method Climb(a: array<int>, b: array<int>, c: array<int>, d: array<int>, e: array<int>, f: array<int>,
               x: array<int>, k: array<int>, z: array<int>)
    requires Distinct(a, b, c, d, e, f) && x.Length == k.Length == 16 && z.Length == 32
    requires x !in {a, b, c, d, e, f} && k !in {a, b, c, d, e, f} && z !in {a, b, c, d, e, f}
    requires AllReduced(a[..], b[..], c[..], d[..]) && Reduced(x[..])
    requires Reduced(k[..]) && Fe(k[..]) == A24
    requires AreBytes(z[..]) && LittleEndian(z[..]) >= 0
    modifies a, b, c, d, e, f
    ensures AllReduced(a[..], b[..], c[..], d[..])
    ensures State(a[..], b[..], c[..], d[..])
         == LadderLoop(LittleEndian(z[..]), Fe(x[..]), BITS, old(State(a[..], b[..], c[..], d[..])), false)
  {
    ghost var u, s := Fe(x[..]), LittleEndian(z[..]);
    ghost var pending := false;
    for i := 255 downto 0
      invariant AllReduced(a[..], b[..], c[..], d[..])
      invariant LadderLoop(s, u, i, CSwap(pending, State(a[..], b[..], c[..], d[..])), pending)
             == LadderLoop(s, u, BITS, old(State(a[..], b[..], c[..], d[..])), false)
    {
      var r := ScalarBit(z, i);
      ghost var before := State(a[..], b[..], c[..], d[..]);
      Round(a, b, c, d, e, f, x, k, r);
      RoundRefines(s, u, i + 1, before, State(a[..], b[..], c[..], d[..]), pending);
      pending := r == 1;
    }
  }

  /** The quotient x2 / z2, packed; x16 and x32 are the views of `x` that the code computes it in. */
  method Finish(q: array<int>, a: array<int>, c: array<int>)
    requires q.Length == 32 && a.Length == c.Length == 16 && q != a && q != c
    requires Reduced(a[..]) && Reduced(c[..])
    modifies q
    ensures AreBytes(q[..]) && LittleEndian(q[..]) == FMul(Fe(a[..]), FPow(Fe(c[..]), P - 2))
  {
    var x16, x32 := new int[16](_ => 0), new int[16](_ => 0);
    ghost var s, cs := a[..], c[..];
    for i := 0 to 16
      invariant a[..] == s && c[..] == cs && forall j | 0 <= j < i :: x16[j] == s[j] && x32[j] == cs[j]
    {
      x16[i] := a[i];
      x32[i] := c[i];
    }
    assert x16[..] == s && x32[..] == cs;
    Invert(x32, x32);
    ReducedIsSmall(x16[..]);
    ReducedIsSmall(x32[..]);
    Mul(x16, x16, x32);
    Pack(q, x16);
  }

  /** The point at infinity and the point of u-coordinate x. */
  method SetUp(a: array<int>, b: array<int>, c: array<int>, d: array<int>, x: array<int>)
    requires a.Length == b.Length == c.Length == d.Length == x.Length == 16
    requires a != b && a != c && a != d && b != c && b != d && c != d && x !in {a, b, c, d}
    requires Digits(x[..])
    modifies a, b, c, d
    ensures AllReduced(a[..], b[..], c[..], d[..])
    ensures State(a[..], b[..], c[..], d[..]) == Ladder(1, 0, Fe(x[..]), 1)
  {
    ghost var s := x[..];
    for i := 0 to 16
      invariant forall j | 0 <= j < i :: b[j] == s[j] && d[j] == a[j] == c[j] == 0
    {
      b[i] := x[i];
      d[i], a[i], c[i] := 0, 0, 0;
    }
    assert b[..] == s;
    a[0], d[0] := 1, 1;
    FeOfOne(a[..]);
    FeOfOne(d[..]);
    ZeroLimbs(c[..]);
  }

  /** From the clamped scalar and the unpacked point to the packed result. */
  method RunLadder(q: array<int>, z: array<int>, x: array<int>, k: array<int>)
    requires q.Length == z.Length == 32 && x.Length == k.Length == 16 && q !in {z, x, k}
    requires AreBytes(z[..]) && LittleEndian(z[..]) >= 0 && Digits(x[..])
    requires Reduced(k[..]) && Fe(k[..]) == A24
    modifies q
    ensures AreBytes(q[..]) && LittleEndian(q[..]) == ScalarTimes(LittleEndian(z[..]), Fe(x[..]))
  {
    var a, b, c := new int[16](_ => 0), new int[16](_ => 0), new int[16](_ => 0);
    var d, e, f := new int[16](_ => 0), new int[16](_ => 0), new int[16](_ => 0);
    SetUp(a, b, c, d, x);
    Climb(a, b, c, d, e, f, x, k, z);
    Finish(q, a, c);
  }

  method ScalarMult(q: array<int>, n: array<int>, p: array<int>)
    requires q.Length == n.Length == p.Length == 32 && q != n && q != p
    requires AreBytes(n[..]) && AreBytes(p[..])
    modifies q
    ensures IsX25519(q[..], n[..], p[..])
  {
    var z := Clamp(n);
    var x, k := new int[16](_ => 0), new int[16](i => if i == 0 then 0xdb41 else if i == 1 then 1 else 0);
    FeOfA24(k[..]);
    Unpack(x, p);
    LittleEndianRange(z[..]);
    RunLadder(q, z, x, k);
  }

  // ---- x25519Base --------------------------------------------------------------------------

  function BasePoint(): Octets {
    [9] + seq(31, _ => 0)
  }

  lemma BasePointIsNine()
    ensures LittleEndian(BasePoint()) == 9
  {
    LittleEndianOfOne(BasePoint());
  }

  /** A key of the wrong length is refused; otherwise the 32 bytes of X25519(n, 9). */
  method X25519Base(n: array<int>) returns (q: Option<seq<int>>)
    requires AreBytes(n[..])
    ensures q.None? <==> n.Length != 32
    ensures q.Some? ==> IsX25519(q.value, n[..], BasePoint())
  {
    if n.Length != 32 { return None; }
    var nine := new int[32](i => if i == 0 then 9 else 0);
    assert nine[..] == BasePoint();
    var r := new int[32](_ => 0);
    ScalarMult(r, n, nine);
    q := Some(r[..]);
  }

  lemma LittleEndianOfOne(b: seq<int>)
    requires |b| > 0 && forall i | 1 <= i < |b| :: b[i] == 0
    ensures LittleEndian(b) == b[0]
  {
    LittleEndianOfNone(b[1..]);
  }

  lemma {:induction false} LittleEndianOfNone(b: seq<int>)
    requires forall i | 0 <= i < |b| :: b[i] == 0
    ensures LittleEndian(b) == 0
  {
    if |b| > 0 { LittleEndianOfNone(b[1..]); }
  }

  // ---- what the specification determines ----------------------------------------------------

  lemma {:induction false} BytesUnique(b: seq<int>, c: seq<int>)
    requires |b| == |c| && AreBytes(b) && AreBytes(c) && LittleEndian(b) == LittleEndian(c)
    ensures b == c
  {
    if |b| > 0 {
      DivRemUnique(LittleEndian(b), 256, LittleEndian(b[1..]), b[0]);
      DivRemUnique(LittleEndian(c), 256, LittleEndian(c[1..]), c[0]);
      BytesUnique(b[1..], c[1..]);
      assert b == [b[0]] + b[1..] && c == [c[0]] + c[1..];
    }
  }

  /** X25519 has one result, the canonical one: its number is below P. */
  lemma X25519Unique(q: seq<int>, r: seq<int>, n: Octets, u: Octets)
    requires IsX25519(q, n, u) && IsX25519(r, n, u)
    ensures q == r && 0 <= LittleEndian(q) < P
  {
    BytesUnique(q, r);
  }
}
