/**
 The clamping of x25519.js in numbers: what `z[31]=(n[31]&127)|64` and `z[0]&=248` make of the
 scalar's value.
 */
module X25519Scalar {
  import opened Bytes
  import opened Int32
  import opened Field25519
  import opened X25519Pack

  // ---- the two bytes -------------------------------------------------------------------------

  lemma Even(y: nat)
    ensures 2 * y % 2 == 0 && 2 * y / 2 == y
  {
  }

  lemma AndHalves(n: nat, x: nat, y: nat)
    requires n > 0
    ensures AndBits(n, x, 2 * y) == 2 * AndBits(n - 1, x / 2, y)
  {
    hide AndBits;
    Even(y);
    AndStep(n, x, 2 * y);
  }

  lemma AndStep(n: nat, x: nat, y: nat)
    requires n > 0 && y % 2 == 0
    ensures AndBits(n, x, y) == 2 * AndBits(n - 1, x / 2, y / 2)
  {
  }

  lemma OrHalves(n: nat, x: nat, y: nat)
    requires n > 0
    ensures OrBits(n, x, 2 * y) == x % 2 + 2 * OrBits(n - 1, x / 2, y)
  {
    hide OrBits;
    Even(y);
    OrStep(n, x, 2 * y);
  }

  lemma OrStep(n: nat, x: nat, y: nat)
    requires n > 0 && y % 2 == 0
    ensures OrBits(n, x, y) == x % 2 + 2 * OrBits(n - 1, x / 2, y / 2)
  {
  }

  lemma AndOfEights(x: nat, y: nat)
    ensures AndBits(32, x, 8 * y) == 8 * AndBits(29, x / 8, y)
  {
    hide AndBits;
    AndHalves(32, x, 4 * y);
    AndHalves(31, x / 2, 2 * y);
    AndHalves(30, x / 4, y);
    assert x / 2 / 2 == x / 4 && x / 4 / 2 == x / 8;
  }

  lemma OrOfSixtyFour(x: nat)
    ensures OrBits(32, x, 64) == x % 64 + 64 * OrBits(26, x / 64, 1)
  {
    hide OrBits;
    OrHalves(32, x, 32);
    OrHalves(31, x / 2, 16);
    OrHalves(30, x / 4, 8);
    OrHalves(29, x / 8, 4);
    OrHalves(28, x / 16, 2);
    OrHalves(27, x / 32, 1);
    assert x / 2 / 2 == x / 4 && x / 4 / 2 == x / 8 && x / 8 / 2 == x / 16 && x / 16 / 2 == x / 32 && x / 32 / 2 == x / 64;
  }

  lemma SmallPowers()
    ensures Pow2(3) == 8 && Pow2(5) == 32 && Pow2(6) == 64 && Pow2(7) == 128
  {
  }

  lemma AndOf(x: int, y: int)
    requires 0 <= x < 256 && 0 <= y < 256
    ensures AndBits(32, x, y) < MODULUS && And(x, y) == Signed(AndBits(32, x, y))
  {
    PowersOfTwo();
  }

  lemma OrOf(x: int, y: int)
    requires 0 <= x < 256 && 0 <= y < 256
    ensures OrBits(32, x, y) < MODULUS && Or(x, y) == Signed(OrBits(32, x, y))
  {
    PowersOfTwo();
  }

  /** `x & 248` clears the lowest three bits of a byte. */
  lemma LowByte(x: int)
    requires 0 <= x < 256
    ensures Fits(248) && And(x, 248) == x - x % 8
  {
    hide AndBits, Pow2, And;
    SmallPowers();
    AndOf(x, 248);
    AndOfEights(x, 31);
    AndMaskBits(29, 5, x / 8);
  }

  /** `(x & 127) | 64` keeps the lowest six bits of a byte under a set seventh. */
  lemma HighByte(x: int)
    requires 0 <= x < 256
    ensures Fits(127) && Fits(64) && Fits(And(x, 127)) && Or(And(x, 127), 64) == 64 + x % 64
  {
    hide AndBits, OrBits, Pow2, And, Or;
    SmallPowers();
    AndMask(x, 7);
    var y := x % 128;
    OrOf(y, 64);
    OrOfSixtyFour(y);
    OneOrOne(26, y / 64);
    assert y % 64 == x % 64;
  }

  lemma OneOrOne(n: nat, x: nat)
    requires n > 0 && x <= 1
    ensures OrBits(n, x, 1) == 1
  {
    OrNothing(n - 1);
  }

  lemma {:induction false} OrNothing(n: nat)
    ensures OrBits(n, 0, 0) == 0
  {
    if n > 0 { OrNothing(n - 1); }
  }

  // ---- the whole number ------------------------------------------------------------------------

  lemma LowBits(x: int, rest: int)
    requires 0 <= x < 256
    ensures (x + 256 * rest) % 8 == x % 8
  {
    DivRemUnique(x + 256 * rest, 8, x / 8 + 32 * rest, x % 8);
  }

  /** The scalar by its parts: the lowest byte, and the top two. */
  lemma ScalarParts(n: Octets)
    ensures LittleEndian(n) % 8 == n[0] % 8
    ensures LittleEndian(n) % TWO254 == LittleEndian(n[..30]) + W(15) * (n[30] + 256 * (n[31] % 64))
  {
    hide W;
    LowBits(n[0], LittleEndian(n[1..]));
    ByTopBytes(n);
    W16();
    TopRemainder(W(15), LittleEndian(n[..30]), n[30] + 256 * n[31], 16384);
    DivRemUnique(n[30] + 256 * n[31], 16384, n[31] / 64, n[30] + 256 * (n[31] % 64));
  }

  /** The clamped bytes stand for 2^254, plus the key modulo 2^254, minus the key modulo 8. */
  lemma ClampedValue(n: Octets)
    ensures var z := n[31 := 64 + n[31] % 64][0 := n[0] - n[0] % 8];
            AreBytes(z) && LittleEndian(z) == Scalar(n)
  {
    hide W, LittleEndian;
    var z := n[31 := 64 + n[31] % 64][0 := n[0] - n[0] % 8];
    ScalarParts(n);
    ByTopBytes(z);
    LowChanged(n[..30], n[0] - n[0] % 8);
    assert z[..30] == n[..30][0 := n[0] - n[0] % 8];
    W16();
    var w, t := W(15), n[30] + 256 * (n[31] % 64);
    assert w * (t + 16384) == w * t + w * 16384;
  }

  lemma LowChanged(b: seq<int>, x: int)
    requires |b| > 0
    ensures LittleEndian(b[0 := x]) == LittleEndian(b) + x - b[0]
  {
    assert b[0 := x][1..] == b[1..];
  }

  /** A clamped scalar is a multiple of 8 in [2^254, 2^255). */
  lemma ClampedScalar(n: Octets)
    ensures Scalar(n) % 8 == 0 && TWO254 <= Scalar(n) < TWO255
  {
    var l := LittleEndian(n);
    var r := l % TWO254;
    assert l == TWO254 * (l / TWO254) + r;
    DivRemUnique(l, 8, TWO254 / 8 * (l / TWO254) + r / 8, r % 8);
    DivRemUnique(TWO254 + r - r % 8, 8, TWO254 / 8 + r / 8, 0);
  }
}
