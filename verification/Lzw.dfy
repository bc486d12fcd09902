/**
 getLZWRaster of qrcode.js: the variable-width LZW coder of Appendix F of the GIF89a
 specification, for the minimum code size 2 its caller passes; and a decoder that mirrors the
 table's growth.
 */
module Lzw {
  import opened Bytes
  import opened Int32
  import opened LzwBits

  /** A string of pixels, each a character code. */
  type Text = seq<nat>

  const MIN_CODE_SIZE := 2
  const CLEAR: nat := 4
  const END: nat := 5
  const FULL := 0xfff

  /** The strings in the order of their codes. */
  type Dictionary = seq<Text>

  const FIRST: Dictionary := [[0], [1], [2], [3], [CLEAR], [END]]

  predicate Distinct(d: Dictionary) {
    forall i, j | 0 <= i < j < |d| :: d[i] != d[j]
  }

  predicate Pixels(t: Text) {
    forall i | 0 <= i < |t| :: t[i] < CLEAR
  }

  function CodeOf(d: Dictionary, t: Text): (i: nat)
    requires t in d
    ensures i < |d| && d[i] == t
  {
    if d[0] == t then 0 else CodeOf(d[1..], t) + 1
  }

  lemma CodeUnique(d: Dictionary, i: nat)
    requires Distinct(d) && i < |d|
    ensures CodeOf(d, d[i]) == i
  {
    var j := CodeOf(d, d[i]);
    assert d[j] == d[i];
  }

  /** The width after a string joins the dictionary. */
  function Grown(d: Dictionary, width: nat): nat {
    if |d| < FULL && |d| == Pow2(width) then width + 1 else width
  }

  function Joined(d: Dictionary, t: Text): Dictionary {
    if |d| < FULL then d + [t] else d
  }

  // ---- the bits the coder writes -----------------------------------------------------------------

  /** From a dictionary, a width, the string matched so far and the pixels to come. */
  function Coded(d: Dictionary, width: nat, s: Text, rest: Text): seq<bool>
    requires s in d
    decreases |rest|
  {
    var code := LowBits(CodeOf(d, s), width);
    if |rest| == 0 then code
    else if s + [rest[0]] in d then Coded(d, width, s + [rest[0]], rest[1..])
    else
      var d' := Joined(d, s + [rest[0]]);
      if [rest[0]] in d' then code + Coded(d', Grown(d, width), [rest[0]], rest[1..]) else code
  }

  // ---- the table ---------------------------------------------------------------------------------

  class Table {
    var codes: map<Text, nat>
    var size: nat
    ghost var texts: Dictionary

    ghost predicate Valid()
      reads this
    {
      size == |texts| && Distinct(texts)
      && (forall i | 0 <= i < |texts| :: texts[i] in codes && codes[texts[i]] == i)
      && (forall t | t in codes :: t in texts)
    }

    constructor ()
      ensures Valid() && texts == []
    {
      codes, size, texts := map[], 0, [];
    }

    /** Throws on a string that is there already. */
    method Add(key: Text) returns (ok: bool)
      requires Valid()
      modifies this
      ensures Valid() && (ok <==> key !in old(texts))
      ensures texts == if ok then old(texts) + [key] else old(texts)
    {
      if key in codes { return false; }
      assert key !in texts;
      codes := codes[key := size];
      size := size + 1;
      texts := texts + [key];
      ok := true;
    }

    method IndexOf(key: Text) returns (i: nat)
      requires Valid() && key in texts
      ensures i == CodeOf(texts, key)
    {
      i := codes[key];
      CodeUnique(texts, i);
    }

    method Contains(key: Text) returns (r: bool)
      requires Valid()
      ensures r <==> key in texts
    {
      r := key in codes;
    }
  }

  // ---- the coder -----------------------------------------------------------------------------------

  /** A dictionary in use: the first strings in front, everything else made of pixels, and room for its codes. */
  predicate InUse(d: Dictionary, width: nat) {
    6 <= |d| <= FULL && d[..6] == FIRST && Distinct(d) && 3 <= width <= 12 && |d| <= Pow2(width)
    && forall i | 6 <= i < |d| :: |d[i]| >= 2 && Pixels(d[i])
  }

  lemma Widths()
    ensures Pow2(3) == 8 && Pow2(11) == 2048 && Pow2(12) == 4096
  {
    PowersOfTwo();
    assert Pow2(11) == 8 * Pow2(8);
  }

  lemma StaysInUse(d: Dictionary, width: nat, t: Text)
    requires InUse(d, width) && t !in d && |t| >= 2 && Pixels(t)
    ensures InUse(Joined(d, t), Grown(d, width))
  {
    Widths();
    if |d| < FULL {
      assert (d + [t])[..6] == d[..6];
      assert Pow2(width + 1) == 2 * Pow2(width);
    }
  }

  lemma PixelIsIn(d: Dictionary, width: nat, c: nat)
    requires InUse(d, width) && c < CLEAR
    ensures [c] in d
  {
    assert d[c] == d[..6][c] == [c];
  }

  lemma CodeFits(d: Dictionary, width: nat, s: Text)
    requires InUse(d, width) && s in d
    ensures CodeOf(d, s) < Pow2(width)
  {
  }

  lemma FirstInUse(c: nat)
    requires c < CLEAR
    ensures InUse(FIRST, 3) && [c] in FIRST
  {
    Widths();
    PixelIsIn(FIRST, 3, c);
  }

  /** All the codes of the pixels, after the clear code. */
  function CodedPixels(data: Text): seq<bool>
    requires |data| > 0 && Pixels(data)
  {
    FirstInUse(data[0]);
    Coded(FIRST, 3, [data[0]], data[1..])
  }

  /** The dictionary's first `n` strings: the pixels, then the two control codes. */
  function First(n: nat): Dictionary
    requires n <= END + 1
  {
    FIRST[..n]
  }

  lemma FirstGrows(n: nat)
    requires n <= END
    ensures [n] !in First(n) && First(n) + [[n]] == First(n + 1)
  {
    assert FIRST[n] == [n];
  }

  lemma FirstEnds()
    ensures First(0) == [] && First(END + 1) == FIRST
  {
  }

  method FillTable(table: Table) returns (ok: bool)
    requires table.Valid() && table.texts == []
    modifies table
    ensures ok && table.Valid() && table.texts == FIRST
  {
    hide First, Distinct;
    FirstEnds();
    for i := 0 to CLEAR
      invariant table.Valid() && table.texts == First(i)
    {
      FirstGrows(i);
      ok := table.Add([i]);
      if !ok { return; }
    }
    FirstGrows(CLEAR);
    ok := table.Add([CLEAR]);
    if !ok { return; }
    FirstGrows(END);
    ok := table.Add([END]);
  }

  lemma CodedNext(d: Dictionary, width: nat, s: Text, rest: Text)
    requires InUse(d, width) && s in d && |s| >= 1 && Pixels(s) && |rest| > 0 && Pixels(rest)
    ensures s + [rest[0]] in d ==> Coded(d, width, s, rest) == Coded(d, width, s + [rest[0]], rest[1..])
    ensures s + [rest[0]] !in d ==>
      var d' := Joined(d, s + [rest[0]]);
      InUse(d', Grown(d, width)) && [rest[0]] in d'
      && Coded(d, width, s, rest) == LowBits(CodeOf(d, s), width) + Coded(d', Grown(d, width), [rest[0]], rest[1..])
  {
    if s + [rest[0]] !in d {
      StaysInUse(d, width, s + [rest[0]]);
      PixelIsIn(Joined(d, s + [rest[0]]), Grown(d, width), rest[0]);
    }
  }

  /** `1 << n`. */
  function Power(n: nat): nat {
    Pow2(n)
  }

  /** The branch for a string that is new: its known part is written, and it joins the table. */
  method EmitCode(table: Table, bitOut: BitOutput, s: Text, c: nat, width: nat) returns (ok: bool, width': nat)
    requires table.Valid() && bitOut.Valid() && InUse(table.texts, width) && s in table.texts && s + [c] !in table.texts
    modifies table, bitOut
    ensures ok && table.Valid() && bitOut.Valid()
    ensures table.texts == Joined(old(table.texts), s + [c]) && width' == Grown(old(table.texts), width)
    ensures bitOut.Bits() == old(bitOut.Bits()) + LowBits(CodeOf(old(table.texts), s), width)
  {
    hide LowBits;
    width' := width;
    var code := table.IndexOf(s);
    CodeFits(table.texts, width, s);
    ok := bitOut.Write(code, width);
    if !ok { return; }
    if table.size < FULL {
      if table.size == Power(width') {
        width' := width' + 1;
      }
      ok := table.Add(s + [c]);
    }
  }

  lemma FiveFits(width: nat)
    requires width >= 3
    ensures END < Pow2(width)
  {
    if width > 3 { FiveFits(width - 1); } else { Widths(); }
  }

  /** The main loop and the two codes after it. */
  method CodePixels(table: Table, bitOut: BitOutput, data: Text) returns (ok: bool)
    requires table.Valid() && table.texts == FIRST && bitOut.Valid()
    requires |data| > 0 && Pixels(data)
    modifies table, bitOut
    ensures ok && bitOut.Valid()
    ensures exists tail :: bitOut.Bits() == old(bitOut.Bits()) + CodedPixels(data) + tail
  {
    hide LowBits, Coded, Joined, Grown, InUse;
    ghost var start := bitOut.Bits();
    var bitLength: nat := MIN_CODE_SIZE + 1;
    var dataIndex := 1;
    var s := [data[0]];
    FirstInUse(data[0]);
    while dataIndex < |data|
      invariant 1 <= dataIndex <= |data| && table.Valid() && bitOut.Valid()
      invariant InUse(table.texts, bitLength) && s in table.texts && |s| >= 1 && Pixels(s)
      invariant start + CodedPixels(data) == bitOut.Bits() + Coded(table.texts, bitLength, s, data[dataIndex..])
    {
      var c := data[dataIndex];
      CodedNext(table.texts, bitLength, s, data[dataIndex..]);
      assert data[dataIndex..][1..] == data[dataIndex + 1..];
      dataIndex := dataIndex + 1;
      var known := table.Contains(s + [c]);
      if known {
        s := s + [c];
      } else {
        ok, bitLength := EmitCode(table, bitOut, s, c, bitLength);
        s := [c];
      }
    }
    ok := WriteLast(table, bitOut, s, bitLength);
    LastCode(table.texts, bitLength, s);
  }

  lemma LastCode(d: Dictionary, width: nat, s: Text)
    requires s in d
    ensures Coded(d, width, s, []) == LowBits(CodeOf(d, s), width)
  {
  }

  method WriteLast(table: Table, bitOut: BitOutput, s: Text, bitLength: nat) returns (ok: bool)
    requires table.Valid() && bitOut.Valid() && InUse(table.texts, bitLength) && s in table.texts
    modifies bitOut
    ensures ok && bitOut.Valid()
    ensures bitOut.Bits() == old(bitOut.Bits()) + LowBits(CodeOf(table.texts, s), bitLength) + LowBits(END, bitLength)
  {
    hide LowBits;
    var code := table.IndexOf(s);
    CodeFits(table.texts, bitLength, s);
    ok := bitOut.Write(code, bitLength);
    FiveFits(bitLength);
    ok := bitOut.Write(END, bitLength);
  }

  /** getLZWRaster; it would throw only where the table or the bit stream does, and they never do. */
  method Raster(data: Text) returns (ok: bool, raster: seq<byte>)
    requires |data| > 0 && Pixels(data)
    ensures ok
    ensures exists tail :: ByteBits(raster) == LowBits(CLEAR, 3) + CodedPixels(data) + tail
  {
    hide LowBits, ByteBits, CodedPixels, Coded;
    var table := new Table();
    ok := FillTable(table);
    var bitOut := new BitOutput();
    ok := WriteClear(bitOut);
    ok := CodePixels(table, bitOut, data);
    ghost var first, body := LowBits(CLEAR, 3), CodedPixels(data);
    ghost var tail :| bitOut.Bits() == first + body + tail;
    bitOut.Flush();
    raster := bitOut.out;
    ghost var pad :| ByteBits(raster) == (first + body + tail) + pad;
    Regroup(first + body, tail, pad);
  }

  lemma Regroup(s: seq<bool>, t: seq<bool>, u: seq<bool>)
    ensures (s + t) + u == s + (t + u)
  {
  }

  method WriteClear(bitOut: BitOutput) returns (ok: bool)
    requires bitOut.Valid() && bitOut.Bits() == []
    modifies bitOut
    ensures ok && bitOut.Valid() && bitOut.Bits() == LowBits(CLEAR, 3)
  {
    hide LowBits;
    Widths();
    ok := bitOut.Write(CLEAR, MIN_CODE_SIZE + 1);
    assert [] + LowBits(CLEAR, 3) == LowBits(CLEAR, 3);
  }

  // ---- for reading codes back -----------------------------------------------------------------------

  lemma PlainCode(d: Dictionary, width: nat, s: Text)
    requires InUse(d, width) && s in d && |s| > 0 && Pixels(s)
    ensures CodeOf(d, s) != CLEAR && CodeOf(d, s) != END
  {
    assert d[CLEAR] == d[..6][CLEAR] == [CLEAR] && d[END] == d[..6][END] == [END];
  }
}
