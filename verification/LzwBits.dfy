/** bitOutputStream of qrcode.js: codes of any width packed into bytes, the lowest bit first. */
module LzwBits {
  import opened Bytes
  import opened Int32

  /** The low n bits of a number, the lowest first. */
  function LowBits(x: nat, n: nat): (s: seq<bool>)
    ensures |s| == n
  {
    if n == 0 then [] else [x % 2 == 1] + LowBits(x / 2, n - 1)
  }

  function FromLow(s: seq<bool>): nat {
    if |s| == 0 then 0 else (if s[0] then 1 else 0) + 2 * FromLow(s[1..])
  }

  lemma {:induction false} LowBitsRoundTrip(x: nat, n: nat)
    requires x < Pow2(n)
    ensures FromLow(LowBits(x, n)) == x
  {
    if n > 0 {
      LowBitsRoundTrip(x / 2, n - 1);
      assert LowBits(x, n)[1..] == LowBits(x / 2, n - 1);
    }
  }

  /** `x << k` and `x >>> k`, bit by bit. */
  function Up(x: nat, k: nat): nat {
    if k == 0 then x else 2 * Up(x, k - 1)
  }

  function Down(x: nat, k: nat): nat {
    if k == 0 then x else Down(x / 2, k - 1)
  }

  lemma {:induction false} DownFits(x: nat, k: nat, n: nat)
    requires k <= n && x < Pow2(n)
    ensures Down(x, k) < Pow2(n - k)
  {
    if k > 0 { DownFits(x / 2, k - 1, n - 1); }
  }

  lemma {:induction false} DownToZero(x: nat, n: nat)
    ensures Down(x, n) == 0 <==> x < Pow2(n)
  {
    if n > 0 { DownToZero(x / 2, n - 1); }
  }

  lemma {:induction false} UpFits(x: nat, k: nat, b: nat, n: nat)
    requires x < Pow2(n) && b < Pow2(k)
    ensures Up(x, k) + b < Pow2(k + n)
  {
    if k > 0 {
      UpFits(x, k - 1, b / 2, n);
      assert Pow2(k + n) == 2 * Pow2(k - 1 + n);
    }
  }

  /** The bits above the lowest m are those of what is left when m are shifted out. */
  lemma {:induction false} LowBitsSplit(x: nat, m: nat, n: nat)
    ensures LowBits(x, m + n) == LowBits(x, m) + LowBits(Down(x, m), n)
  {
    if m > 0 { LowBitsSplit(x / 2, m - 1, n); }
  }

  /** A number over k bits of another, side by side. */
  lemma {:induction false} LowBitsJoin(d: nat, k: nat, b: nat, n: nat)
    requires b < Pow2(k)
    ensures LowBits(Up(d, k) + b, k + n) == LowBits(b, k) + LowBits(d, n)
  {
    if k > 0 {
      LowBitsJoin(d, k - 1, b / 2, n);
      assert (Up(d, k) + b) / 2 == Up(d, k - 1) + b / 2;
    }
  }

  lemma {:induction false} LowBitsMod(x: nat, n: nat)
    ensures 0 <= x % Pow2(n) && LowBits(x % Pow2(n), n) == LowBits(x, n)
  {
    if n > 0 {
      LowBitsMod(x / 2, n - 1);
      HalfRemainder(x, Pow2(n - 1));
    }
  }

  /** `(data << k) | buffer` is a sum, as the two share no bits. */
  lemma {:induction false} OrJoins(n: nat, d: nat, k: nat, b: nat)
    requires b < Pow2(k) && Up(d, k) + b < Pow2(n)
    ensures OrBits(n, Up(d, k), b) == Up(d, k) + b
  {
    if k == 0 {
      OrZero(n, d);
    } else if n > 0 {
      OrJoins(n - 1, d, k - 1, b / 2);
    }
  }

  lemma {:induction false} OrZero(n: nat, x: nat)
    requires x < Pow2(n)
    ensures OrBits(n, x, 0) == x
  {
    if n > 0 { OrZero(n - 1, x / 2); }
  }

  /** Byte after byte, the lowest bit of each first. */
  function ByteBits(b: seq<byte>): (s: seq<bool>)
    ensures |s| == 8 * |b|
  {
    if |b| == 0 then [] else LowBits(b[0], 8) + ByteBits(b[1..])
  }

  lemma {:induction false} ByteBitsSnoc(b: seq<byte>, x: byte)
    ensures ByteBits(b + [x]) == ByteBits(b) + LowBits(x, 8)
  {
    if |b| == 0 {
      assert b + [x] == [x] && [x][1..] == [];
    } else {
      ByteBitsSnoc(b[1..], x);
      assert (b + [x])[1..] == b[1..] + [x];
    }
  }

  lemma JoinFits(d: nat, k: nat, b: nat, n: nat)
    requires b < Pow2(k) && d < Pow2(n) && k + n <= 30
    ensures Fits(Up(d, k)) && Fits(b) && Fits(Up(d, k) + b) && Up(d, k) + b < Pow2(k + n)
    ensures Or(Up(d, k), b) == Up(d, k) + b
  {
    UpFits(d, k, b, n);
    Pow2Below(k + n, 30);
    PowersOfTwo();
    OrJoins(32, d, k, b);
  }

  lemma NothingHeld()
    ensures Pow2(0) == 1
  {
  }

  class BitOutput {
    var out: seq<byte>
    var bitLength: nat
    var bitBuffer: nat

    ghost predicate Valid()
      reads this
    {
      bitLength < 8 && bitBuffer < Pow2(bitLength)
    }

    /** Everything written so far, in bytes and still in the buffer. */
    ghost function Bits(): seq<bool>
      reads this
    {
      ByteBits(out) + LowBits(bitBuffer, bitLength)
    }

    constructor ()
      ensures Valid() && Bits() == []
    {
      out, bitLength, bitBuffer := [], 0, 0;
    }

    /** The body of the loop: one byte leaves. */
    method EmitByte(data: nat, length: nat) returns (data': nat, length': nat)
      requires Valid() && length <= 16 && data < Pow2(length) && bitLength + length >= 8
      modifies this
      ensures Valid() && bitLength == 0 && length' == length - (8 - old(bitLength)) && data' < Pow2(length')
      ensures Bits() + LowBits(data', length') == old(Bits()) + LowBits(data, length)
    {
      hide ByteBits, LowBits, Up, Down, And, Or, Pow2;
      NothingHeld();
      JoinFits(data, bitLength, bitBuffer, length);
      Emitted(out, data, bitLength, bitBuffer, length);
      DownFits(data, 8 - bitLength, length);
      out := out + [And(0xff, Or(Up(data, bitLength), bitBuffer))];
      length' := length - (8 - bitLength);
      data' := Down(data, 8 - bitLength);
      bitBuffer := 0;
      bitLength := 0;
    }

    /** 'length over' is thrown when the data does not fit the width; otherwise its bits are appended. */
    method Write(data0: nat, length0: nat) returns (ok: bool)
      requires Valid() && length0 <= 16 && Fits(data0)
      modifies this
      ensures Valid() && (ok <==> data0 < Pow2(length0))
      ensures ok ==> Bits() == old(Bits()) + LowBits(data0, length0)
    {
      hide ByteBits, LowBits, Up, Down, Or;
      DownToZero(data0, length0);
      if Down(data0, length0) != 0 { return false; }
      var data: nat, length: nat := data0, length0;
      while bitLength + length >= 8
        invariant Valid() && length <= length0 && data < Pow2(length)
        invariant Bits() + LowBits(data, length) == old(Bits()) + LowBits(data0, length0)
        decreases length + bitLength
      {
        data, length := EmitByte(data, length);
      }
      JoinFits(data, bitLength, bitBuffer, length);
      LowBitsJoin(data, bitLength, bitBuffer, length);
      bitBuffer := Or(Up(data, bitLength), bitBuffer);
      bitLength := bitLength + length;
      ok := true;
    }

    /** The last bits, if any, go out with zeros above them. */
    method Flush()
      requires Valid()
      modifies this
      ensures exists pad :: ByteBits(out) == old(Bits()) + pad
    {
      if bitLength > 0 {
        LowByte(bitBuffer, bitLength);
        ByteBitsSnoc(out, bitBuffer);
        ghost var pad := LowBits(0, 8 - bitLength);
        ghost var bits := Bits();
        out := out + [bitBuffer];
        assert ByteBits(out) == bits + pad;
      } else {
        assert LowBits(bitBuffer, bitLength) == [];
        assert ByteBits(out) == Bits() + [];
      }
    }
  }

  lemma {:induction false} UpOfZero(k: nat)
    ensures Up(0, k) == 0
  {
    if k > 0 { UpOfZero(k - 1); }
  }

  lemma LowByte(b: nat, k: nat)
    requires k < 8 && b < Pow2(k)
    ensures b < 256 && LowBits(b, 8) == LowBits(b, k) + LowBits(0, 8 - k)
  {
    hide LowBits, Up;
    Pow2Below(k, 8);
    PowersOfTwo();
    UpOfZero(k);
    LowBitsJoin(0, k, b, 8 - k);
  }

  /** One byte leaves: the buffer below, the lowest bits of the data above. */
  lemma Emitted(out: seq<byte>, d: nat, k: nat, b: nat, n: nat)
    requires k < 8 && b < Pow2(k) && k + n >= 8 && Fits(Up(d, k) + b) && Fits(0xff)
    ensures var x := And(0xff, Up(d, k) + b);
            0 <= x < 256 && ByteBits(out + [x]) + LowBits(0, 0) + LowBits(Down(d, 8 - k), n - (8 - k))
                            == ByteBits(out) + LowBits(b, k) + LowBits(d, n)
  {
    hide LowBits, ByteBits, Up, Down, And;
    var whole := Up(d, k) + b;
    AndByte(whole);
    var x := And(0xff, whole);
    ByteBitsSnoc(out, x);
    LowBitsJoin(d, k, b, 8 - k);
    LowBitsSplit(d, 8 - k, n - (8 - k));
    NoLowBits();
  }

  lemma NoLowBits()
    ensures LowBits(0, 0) == []
  {
  }

  lemma AndByte(x: nat)
    requires Fits(x)
    ensures Fits(0xff) && 0 <= And(0xff, x) < 256 && LowBits(And(0xff, x), 8) == LowBits(x, 8)
  {
    hide LowBits;
    PowersOfTwo();
    AndCommutes(0xff, x);
    AndMask(x, 8);
    LowBitsMod(x, 8);
  }

  lemma AndCommutes(x: int, y: int)
    requires Fits(x) && Fits(y)
    ensures And(x, y) == And(y, x)
  {
    AndBitsCommute(32, Unsigned(x), Unsigned(y));
  }

  lemma {:induction false} AndBitsCommute(n: nat, x: nat, y: nat)
    ensures AndBits(n, x, y) == AndBits(n, y, x)
  {
    if n > 0 { AndBitsCommute(n - 1, x / 2, y / 2); }
  }
}
