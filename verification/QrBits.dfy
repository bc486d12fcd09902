/** qrBitBuffer of qrcode.js: bits appended to a growing array of bytes, the first bit of a byte highest. */
module QrBits {
  import opened Int32

  function Mask(k: nat): bv8 {
    if k == 0 then 0x80 else if k == 1 then 0x40 else if k == 2 then 0x20 else if k == 3 then 0x10
    else if k == 4 then 8 else if k == 5 then 4 else if k == 6 then 2 else 1
  }

  lemma MaskIsShift(k: nat)
    requires k < 8
    ensures (0x80 as bv8) >> k == Mask(k)
  {
  }

  predicate BitOf(b: bv8, k: nat) {
    b & Mask(k) != 0
  }

  lemma SetBit(b: bv8, k: nat, j: nat)
    requires k < 8 && j < 8
    ensures BitOf(b | Mask(k), j) <==> (j == k || BitOf(b, j))
    ensures !BitOf(0, j)
  {
  }

  /** The bytes' first n bits. */
  function BitsOf(buffer: seq<bv8>, n: nat): (s: seq<bool>)
    requires n <= 8 * |buffer|
    ensures |s| == n
  {
    seq(n, i requires 0 <= i < n => BitOf(buffer[i / 8], i % 8))
  }

  /** The low `length` bits of a number, the highest first. */
  function NumBits(num: nat, length: nat): (s: seq<bool>)
    ensures |s| == length
  {
    seq(length, i requires 0 <= i < length => num / Pow2(length - 1 - i) % 2 == 1)
  }

  function FromBits(s: seq<bool>): nat {
    if |s| == 0 then 0 else 2 * FromBits(s[..|s| - 1]) + (if s[|s| - 1] then 1 else 0)
  }

  lemma NumBitsHalf(num: nat, length: nat)
    requires length > 0
    ensures NumBits(num, length) == NumBits(num / 2, length - 1) + [num % 2 == 1]
  {
    var s, h := NumBits(num, length), NumBits(num / 2, length - 1);
    forall i | 0 <= i < length - 1 ensures s[i] == h[i] {
      var m := Pow2(length - 2 - i);
      HalfThenDivide(num, m);
      assert Pow2(length - 1 - i) == 2 * m;
    }
    assert Pow2(0) == 1 && s[length - 1] == (num / Pow2(0) % 2 == 1);
  }

  lemma FromBitsSnoc(s: seq<bool>, bit: bool)
    ensures FromBits(s + [bit]) == 2 * FromBits(s) + if bit then 1 else 0
  {
    assert (s + [bit])[..|s|] == s;
  }

  /** A number that fits its field is read back from its bits. */
  lemma {:induction false} NumBitsRoundTrip(num: nat, length: nat)
    requires num < Pow2(length)
    ensures FromBits(NumBits(num, length)) == num
  {
    hide NumBits, FromBits;
    if length == 0 {
      NoBits(num);
    } else {
      NumBitsHalf(num, length);
      NumBitsRoundTrip(num / 2, length - 1);
      FromBitsSnoc(NumBits(num / 2, length - 1), num % 2 == 1);
    }
  }

  lemma NoBits(num: nat)
    ensures FromBits(NumBits(num, 0)) == 0
  {
  }

  lemma NumBitsFit(num: int, length: nat, i: nat)
    requires 0 <= num && Fits(num) && i < length
    ensures Fits(Shr(num, length - 1 - i)) && (And(Shr(num, length - 1 - i), 1) == 1) == NumBits(num, length)[i]
  {
    var m := Pow2(length - 1 - i);
    assert num == m * (num / m) + num % m;
    MulOrder(m, 1, num / m + 1);
    MulOrder(0, num / m + 1, m);
    PowersOfTwo();
    AndMask(Shr(num, length - 1 - i), 1);
  }

  class BitBuffer {
    var buffer: seq<bv8>
    var length: nat

    /** The bytes just hold the bits, and what is beyond them is clear. */
    ghost predicate Valid()
      reads this
    {
      8 * |buffer| - 8 < length <= 8 * |buffer|
      && forall i | length <= i < 8 * |buffer| :: !BitOf(buffer[i / 8], i % 8)
    }

    ghost function Bits(): (s: seq<bool>)
      requires Valid()
      reads this
      ensures |s| == length
    {
      BitsOf(buffer, length)
    }

    constructor ()
      ensures Valid() && Bits() == []
    {
      buffer, length := [], 0;
    }

    method GetAt(index: nat) returns (r: bool)
      requires Valid() && index < length
      ensures r == Bits()[index]
    {
      r := BitOf(buffer[index / 8], index % 8);
    }

    method PutBit(bit: bool)
      requires Valid()
      modifies this
      ensures Valid() && Bits() == old(Bits()) + [bit]
    {
      hide BitOf, Mask;
      ghost var before, n := buffer, length;
      forall j | 0 <= j < 8 ensures !BitOf(0, j) { SetBit(0, 0, j); }
      var bufIndex := length / 8;
      if |buffer| <= bufIndex {
        buffer := buffer + [0];
      }
      ghost var grown := buffer;
      if bit {
        MaskIsShift(length % 8);
        ghost var b := grown[n / 8];
        buffer := buffer[bufIndex := buffer[bufIndex] | (0x80 >> (length % 8))];
        ghost var c := buffer[n / 8];
        assert c == b | Mask(n % 8);
        forall j | 0 <= j < 8 ensures BitOf(c, j) <==> (j == n % 8 || BitOf(b, j)) {
          SetBit(b, n % 8, j);
        }
        assert forall j | 0 <= j < 8 :: BitOf(buffer[n / 8], j) <==> ((bit && j == n % 8) || BitOf(grown[n / 8], j));
      }
      length := length + 1;
      BitsAfter(before, grown, buffer, n, bit);
    }

    method Put(num: int, bits: nat)
      requires Valid() && 0 <= num && Fits(num) && bits <= 32
      modifies this
      ensures Valid() && Bits() == old(Bits()) + NumBits(num, bits)
    {
      for i := 0 to bits
        invariant Valid() && Bits() == old(Bits()) + NumBits(num, bits)[..i]
      {
        NumBitsFit(num, bits, i);
        PutBit(And(Shr(num, bits - i - 1), 1) == 1);
        assert NumBits(num, bits)[..i + 1] == NumBits(num, bits)[..i] + [NumBits(num, bits)[i]];
      }
      assert NumBits(num, bits)[..bits] == NumBits(num, bits);
    }
  }

  lemma BitsAfter(before: seq<bv8>, grown: seq<bv8>, after: seq<bv8>, n: nat, bit: bool)
    requires 8 * |before| - 8 < n <= 8 * |before|
    requires forall i | n <= i < 8 * |before| :: !BitOf(before[i / 8], i % 8)
    requires grown == if |before| <= n / 8 then before + [0] else before
    requires forall j | 0 <= j < 8 :: !BitOf(0, j)
    requires |after| == |grown| && forall i | 0 <= i < |grown| && i != n / 8 :: after[i] == grown[i]
    requires forall j | 0 <= j < 8 :: BitOf(after[n / 8], j) <==> ((bit && j == n % 8) || BitOf(grown[n / 8], j))
    ensures 8 * |after| - 8 < n + 1 <= 8 * |after|
    ensures forall i | n + 1 <= i < 8 * |after| :: !BitOf(after[i / 8], i % 8)
    ensures BitsOf(after, n + 1) == BitsOf(before, n) + [bit]
  {
    hide BitOf;
    forall i | n + 1 <= i < 8 * |after| ensures !BitOf(after[i / 8], i % 8) {
      assert i / 8 == n / 8 && i % 8 != n % 8;
      assert !BitOf(grown[i / 8], i % 8);
    }
    forall i | 0 <= i < n ensures BitOf(after[i / 8], i % 8) == BitOf(before[i / 8], i % 8) {
      assert i / 8 == n / 8 ==> i % 8 != n % 8;
    }
    assert !BitOf(grown[n / 8], n % 8);
  }
}
