/**
 Bytes on the wire, big-endian numbers, lower-case hex and the constant-time comparison
 that the relay (vpnrelay.rs), the tunnel registry (relay.rs) and the exit store (vpn.rs) share.
 */
module Bytes {

  type byte = x: int | 0 <= x < 256

  /** A relay id: the UTF-8 bytes of the source's String. */
  type DeviceId = seq<byte>

  datatype Option<+T> = None | Some(value: T)

  // ---- constant-time comparison ---------------------------------------------------

  /** `x ^ y`, zero exactly when the two bytes are the same. */
  function Difference(x: byte, y: byte): bv8 {
    (x as bv8) ^ (y as bv8)
  }

  lemma OrXorZero(d: bv8, x: bv8, y: bv8)
    ensures (d | (x ^ y)) == 0 <==> d == 0 && x == y
  {
  }

  function AsInt(b: bv8): int {
    b as int
  }

  lemma AsBv8AndBack(x: byte)
    ensures AsInt(x as bv8) == x
  {
  }

  lemma DifferenceZero(d: bv8, x: byte, y: byte)
    ensures (d | Difference(x, y)) == 0 <==> d == 0 && x == y
  {
    OrXorZero(d, x as bv8, y as bv8);
    if x as bv8 == y as bv8 {
      AsBv8AndBack(x);
      AsBv8AndBack(y);
    }
  }

  /** The accumulator `ct_eq` folds over the paired bytes. */
  function DiffOf(a: seq<byte>, b: seq<byte>, d: bv8): bv8
    requires |a| == |b|
  {
    if |a| == 0 then d else DiffOf(a[1..], b[1..], d | Difference(a[0], b[0]))
  }

  predicate CtEq(a: seq<byte>, b: seq<byte>) {
    |a| == |b| && DiffOf(a, b, 0) == 0
  }

  lemma {:induction false} DiffOfZero(a: seq<byte>, b: seq<byte>, d: bv8)
    requires |a| == |b|
    ensures DiffOf(a, b, d) == 0 <==> d == 0 && a == b
  {
    if |a| == 0 {
    } else {
      DiffOfZero(a[1..], b[1..], d | Difference(a[0], b[0]));
      DifferenceZero(d, a[0], b[0]);
      assert a == [a[0]] + a[1..] && b == [b[0]] + b[1..];
    }
  }

  /** The fold decides equality, whatever the bytes: it never stops early and never errs. */
  lemma CtEqIsEquality(a: seq<byte>, b: seq<byte>)
    ensures CtEq(a, b) <==> a == b
  {
    if |a| == |b| {
      DiffOfZero(a, b, 0);
    }
  }

  /** relay.rs writes the same comparison as an indexed loop. */
  method CompareConstantTime(a: seq<byte>, b: seq<byte>) returns (same: bool)
    ensures same <==> a == b
  {
    if |a| != |b| {
      return false;
    }
    var diff: bv8 := 0;
    for i := 0 to |a|
      invariant diff == 0 <==> a[..i] == b[..i]
    {
      DifferenceZero(diff, a[i], b[i]);
      diff := diff | Difference(a[i], b[i]);
      assert a[..i + 1] == a[..i] + [a[i]] && b[..i + 1] == b[..i] + [b[i]];
    }
    assert a[..|a|] == a && b[..|b|] == b;
    return diff == 0;
  }

  // ---- big-endian numbers -----------------------------------------------------------

  function Pow256(n: nat): (p: nat)
    ensures p > 0
  {
    if n == 0 then 1 else 256 * Pow256(n - 1)
  }

  function PutBe(n: nat, x: nat): (s: seq<byte>)
    ensures |s| == n
  {
    if n == 0 then [] else PutBe(n - 1, x / 256) + [x % 256]
  }

  function GetBe(s: seq<byte>): nat {
    if |s| == 0 then 0 else 256 * GetBe(s[..|s| - 1]) + s[|s| - 1]
  }

  lemma {:induction false} GetPutBe(n: nat, x: nat)
    requires x < Pow256(n)
    ensures GetBe(PutBe(n, x)) == x
  {
    if n > 0 {
      GetPutBe(n - 1, x / 256);
      var s := PutBe(n, x);
      assert s[..n - 1] == PutBe(n - 1, x / 256);
    }
  }

  lemma {:induction false} PutGetBe(s: seq<byte>)
    ensures GetBe(s) < Pow256(|s|)
    ensures PutBe(|s|, GetBe(s)) == s
  {
    if |s| > 0 {
      PutGetBe(s[..|s| - 1]);
      assert s == s[..|s| - 1] + [s[|s| - 1]];
    }
  }

  // ---- hex --------------------------------------------------------------------------

  /** One lower-case hex digit of a value below 16. */
  function HexDigit(v: nat): (c: char)
    requires v < 16
    ensures '0' <= c <= '9' || 'a' <= c <= 'f'
  {
    if v < 10 then '0' + v as char else 'a' + (v - 10) as char
  }

  /** What `from_str_radix(_, 16)` reads for one digit, either case; None otherwise. */
  function DigitValue(c: char): (r: Option<nat>)
    ensures r.Some? ==> r.value < 16
  {
    if '0' <= c <= '9' then Some((c - '0') as nat)
    else if 'a' <= c <= 'f' then Some((c - 'a') as nat + 10)
    else if 'A' <= c <= 'F' then Some((c - 'A') as nat + 10)
    else None
  }

  function Hex(b: seq<byte>): (s: string)
    ensures |s| == 2 * |b|
  {
    if |b| == 0 then []
    else [HexDigit(b[0] / 16), HexDigit(b[0] % 16)] + Hex(b[1..])
  }

  /** The digits that `{:02x}` writes. */
  lemma HexDigits()
    ensures [HexDigit(0), HexDigit(1), HexDigit(2), HexDigit(3), HexDigit(4), HexDigit(5), HexDigit(6), HexDigit(7),
             HexDigit(8), HexDigit(9), HexDigit(10), HexDigit(11), HexDigit(12), HexDigit(13), HexDigit(14), HexDigit(15)]
            == "0123456789abcdef"
  {
  }

  /** Two digits for each byte, the high one first. */
  lemma {:induction false} HexAt(b: seq<byte>, i: nat)
    requires i < |b|
    ensures Hex(b)[2 * i] == "0123456789abcdef"[b[i] / 16] && Hex(b)[2 * i + 1] == "0123456789abcdef"[b[i] % 16]
  {
    if i == 0 {
      HexDigits();
      DigitAt(b[0] / 16);
      DigitAt(b[0] % 16);
    } else {
      HexAt(b[1..], i - 1);
    }
  }

  lemma DigitAt(v: nat)
    requires v < 16
    ensures HexDigit(v) == "0123456789abcdef"[v]
  {
    HexDigits();
  }

  /** `from_str_radix` on a pair: two digits, or a sign and one digit. */
  function PairValue(c: char, d: char): (r: Option<byte>)
    ensures r.Some? ==> DigitValue(d).Some?
  {
    var hi, lo := DigitValue(c), DigitValue(d);
    if lo.None? then None
    else if c == '+' then Some(lo.value)
    else if hi.Some? then Some(16 * hi.value + lo.value)
    else None
  }

  /** Pairs that do not read as a byte are skipped, as `filter_map` does; an odd last character is never reached. */
  function Unhex(s: string): seq<byte> {
    if |s| < 2 then []
    else
      var v := PairValue(s[0], s[1]);
      (if v.Some? then [v.value] else []) + Unhex(s[2..])
  }

  /** The HELLO key survives its trip through vpn.json as hex. */
  lemma {:induction false} UnhexHex(b: seq<byte>)
    ensures Unhex(Hex(b)) == b
  {
    if |b| > 0 {
      UnhexHex(b[1..]);
      var s := Hex(b);
      assert s[2..] == Hex(b[1..]);
      var v := b[0];
      assert DigitValue(s[0]) == Some(v / 16) && DigitValue(s[1]) == Some(v % 16);
      assert b == [b[0]] + b[1..];
    }
  }

  // ---- filtering ------------------------------------------------------------------------

  function Filter<T(!new)>(s: seq<T>, f: T -> bool): (r: seq<T>)
    ensures |r| <= |s|
    ensures forall x :: x in r <==> x in s && f(x)
  {
    if |s| == 0 then [] else (if f(s[0]) then [s[0]] else []) + Filter(s[1..], f)
  }

  lemma {:induction false} FilterAppend<T(!new)>(s: seq<T>, x: T, f: T -> bool)
    ensures Filter(s + [x], f) == Filter(s, f) + if f(x) then [x] else []
  {
    var t := s + [x];
    if |s| == 0 {
      assert t == [x] && t[1..] == [];
      assert Filter(t[1..], f) == [];
    } else {
      FilterAppend(s[1..], x, f);
      assert t[0] == s[0] && t[1..] == s[1..] + [x];
      var head := if f(s[0]) then [s[0]] else [];
      assert Filter(t, f) == head + Filter(t[1..], f);
      assert Filter(s, f) == head + Filter(s[1..], f);
    }
  }

  lemma {:induction false} FilterImplied<T(!new)>(s: seq<T>, f: T -> bool, g: T -> bool)
    requires forall x | x in s :: f(x) ==> g(x)
    ensures |Filter(s, f)| <= |Filter(s, g)|
  {
    if |s| > 0 {
      FilterImplied(s[1..], f, g);
    }
  }

  /** Filtering by `g` first loses nothing that `f` keeps. */
  lemma {:induction false} FilterFilter<T(!new)>(s: seq<T>, g: T -> bool, f: T -> bool)
    requires forall x | x in s && f(x) :: g(x)
    ensures Filter(Filter(s, g), f) == Filter(s, f)
  {
    if |s| > 0 {
      FilterFilter(s[1..], g, f);
      var rest := Filter(s[1..], g);
      if g(s[0]) {
        assert ([s[0]] + rest)[1..] == rest;
        assert Filter(s, g) == [s[0]] + rest;
      } else {
        assert Filter(s, g) == rest;
      }
    }
  }

  /** Elements that `f` drops before and after may change freely. */
  lemma {:induction false} FilterPointwise<T(!new)>(a: seq<T>, b: seq<T>, f: T -> bool)
    requires |a| == |b| && forall i | 0 <= i < |a| :: a[i] == b[i] || (!f(a[i]) && !f(b[i]))
    ensures Filter(a, f) == Filter(b, f)
  {
    if |a| > 0 {
      FilterPointwise(a[1..], b[1..], f);
    }
  }

  // ---- sets -----------------------------------------------------------------------------------

  lemma SubsetSize<A>(x: set<A>, y: set<A>)
    requires x <= y
    ensures |x| <= |y|
    decreases y
  {
    if x != {} {
      var e :| e in x;
      SubsetSize(x - {e}, y - {e});
    }
  }
}
