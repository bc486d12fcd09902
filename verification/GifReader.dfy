/**
 A GIF decoder of its own for what getLZWRaster writes: Appendix F of the GIF89a specification, for
 the minimum code size 2, with codes of up to 12 bits and a table of up to 4096 strings.
 */
module GifReader {
  import opened Bytes
  import opened Int32
  import LzwBits
  import Lzw

  /** The bits of the bytes, the lowest of each first. */
  function StreamBits(raster: seq<byte>): (s: seq<bool>)
    ensures |s| == 8 * |raster|
  {
    seq(8 * |raster|, k requires 0 <= k < 8 * |raster| => raster[k / 8] / Pow2(k % 8) % 2 == 1)
  }

  /** A code, its lowest bit first. */
  function Number(s: seq<bool>): nat {
    if |s| == 0 then 0 else (if s[0] then 1 else 0) + 2 * Number(s[1..])
  }

  const START: seq<seq<nat>> := [[0], [1], [2], [3], [], []]

  /**
   The pixels of the codes to come, until `count` are out. Code 4 starts the table anew and code 5
   ends; any other stands for a string of the table, or for the one about to be added: the string
   before with its own first pixel. After each, the string before with the new one's first pixel
   joins the table, and codes grow by a bit when the table has filled their range.
   */
  function Decode(bits: seq<bool>, table: seq<seq<nat>>, before: Option<seq<nat>>, width: nat, count: int): seq<nat>
    decreases |bits|
  {
    if count <= 0 || width == 0 || |bits| < width then []
    else
      var code, rest := Number(bits[..width]), bits[width..];
      if code == 4 then Decode(rest, START, None, 3, count)
      else if code == 5 then []
      else
        var text := if code < |table| then table[code]
                    else if before.Some? && code == |table| && before.value != [] then before.value + [before.value[0]]
                    else [];
        if text == [] then []
        else
          var table' := if before.Some? && |table| < 4096 then table + [before.value + [text[0]]] else table;
          text + Decode(rest, table', Some(text), Wider(|table'|, width), count - |text|)
  }

  function Wider(size: nat, width: nat): nat {
    if size == Pow2(width) && width < 12 then width + 1 else width
  }

  function Image(raster: seq<byte>, count: nat): seq<nat> {
    Decode(StreamBits(raster), START, None, 3, count)
  }

  // ---- the coder's bits, read as numbers -----------------------------------------------------------

  lemma {:induction false} LowBitAt(x: nat, n: nat, i: nat)
    requires i < n
    ensures LzwBits.LowBits(x, n)[i] == (x / Pow2(i) % 2 == 1)
  {
    if i == 0 {
      assert Pow2(0) == 1;
    } else {
      LowBitAt(x / 2, n - 1, i - 1);
      HalfThenDivide(x, Pow2(i - 1));
    }
  }

  lemma {:induction false} StreamAgrees(raster: seq<byte>)
    ensures LzwBits.ByteBits(raster) == StreamBits(raster)
  {
    if |raster| > 0 {
      StreamAgrees(raster[1..]);
      var all := StreamBits(raster);
      forall k | 0 <= k < 8 * |raster| ensures LzwBits.ByteBits(raster)[k] == all[k] {
        if k < 8 {
          LowBitAt(raster[0], 8, k);
        } else {
          assert k / 8 - 1 == (k - 8) / 8 && (k - 8) % 8 == k % 8;
          assert LzwBits.ByteBits(raster)[k] == StreamBits(raster[1..])[k - 8];
        }
      }
    }
  }

  lemma {:induction false} NumberIs(s: seq<bool>)
    ensures Number(s) == LzwBits.FromLow(s)
  {
    if |s| > 0 { NumberIs(s[1..]); }
  }

  lemma NumberOf(x: nat, width: nat, rest: seq<bool>)
    requires x < Pow2(width)
    ensures var s := LzwBits.LowBits(x, width) + rest; Number(s[..width]) == x && s[width..] == rest
  {
    hide LzwBits.LowBits, LzwBits.FromLow, Number;
    LzwBits.LowBitsRoundTrip(x, width);
    var s := LzwBits.LowBits(x, width) + rest;
    assert s[..width] == LzwBits.LowBits(x, width) && s[width..] == rest;
    NumberIs(s[..width]);
  }

  // ---- coder and decoder in step -------------------------------------------------------------------

  /** The table holds the coder's strings, and perhaps, once that is full, one more that no code names. */
  predicate Holds(table: seq<seq<nat>>, d: Lzw.Dictionary) {
    && |d| <= 4095 && (|table| == |d| || (|d| == 4095 && |table| == 4096))
    && forall i | 0 <= i < |d| && i != 4 && i != 5 :: table[i] == d[i]
  }

  /** Before the coder's next code, for s, is read: the string it added after the code before is still to come. */
  predicate InStep(d: Lzw.Dictionary, s: Lzw.Text, table: seq<seq<nat>>, before: Option<seq<nat>>, d': Lzw.Dictionary)
    requires |s| > 0
  {
    Holds(table, d')
    && match before
       case None => d == d'
       case Some(p) => |p| > 0 && d == Lzw.Joined(d', p + [s[0]])
  }

  /** The decoder after a code: the coder's table, and the width its next code will have. */
  lemma JoinsToo(d: Lzw.Dictionary, width: nat, s: Lzw.Text, table: seq<seq<nat>>, before: Option<seq<nat>>, d': Lzw.Dictionary)
    requires |s| > 0 && InStep(d, s, table, before, d') && Lzw.InUse(d, width)
    ensures var table' := if before.Some? && |table| < 4096 then table + [before.value + [s[0]]] else table;
            Holds(table', d) && Wider(|table'|, width) == Lzw.Grown(d, width)
  {
    hide Lzw.InUse;
    WidthAtMost(d, width);
  }

  lemma WidthAtMost(d: Lzw.Dictionary, width: nat)
    requires Lzw.InUse(d, width)
    ensures |d| <= 4095 && (width < 12 ==> Pow2(width) <= 2048) && (width >= 12 ==> Pow2(width) >= 4096)
  {
    if width < 12 { Pow2Below(width, 11); } else { Pow2Below(12, width); }
    assert Pow2(4) == 16 && Pow2(8) == 16 * Pow2(4) && Pow2(12) == 16 * Pow2(8) && Pow2(12) == 2 * Pow2(11);
  }

  /** One code read: the coder's string. */
  lemma ReadsCode(d: Lzw.Dictionary, width: nat, s: Lzw.Text, table: seq<seq<nat>>, before: Option<seq<nat>>, d': Lzw.Dictionary,
                  rest: seq<bool>, count: int)
    requires Lzw.InUse(d, width) && s in d && |s| > 0 && Lzw.Pixels(s) && count >= |s| && width > 0
    requires InStep(d, s, table, before, d')
    ensures var table' := if before.Some? && |table| < 4096 then table + [before.value + [s[0]]] else table;
            Decode(LzwBits.LowBits(Lzw.CodeOf(d, s), width) + rest, table, before, width, count)
            == s + Decode(rest, table', Some(s), Lzw.Grown(d, width), count - |s|)
  {
    hide LzwBits.LowBits, Number, Pow2, Lzw.InUse, Lzw.Grown, Wider;
    var code := Lzw.CodeOf(d, s);
    Lzw.CodeFits(d, width, s);
    NumberOf(code, width, rest);
    Lzw.PlainCode(d, width, s);
    JoinsToo(d, width, s, table, before, d');
    TextOf(d, s, table, before, d');
  }

  /** The string a code stands for, in the decoder's table or about to join it. */
  lemma TextOf(d: Lzw.Dictionary, s: Lzw.Text, table: seq<seq<nat>>, before: Option<seq<nat>>, d': Lzw.Dictionary)
    requires s in d && |s| > 0 && InStep(d, s, table, before, d') && Lzw.CodeOf(d, s) != 4 && Lzw.CodeOf(d, s) != 5
    ensures var code := Lzw.CodeOf(d, s);
            if code < |table| then table[code] == s
            else before.Some? && code == |table| && before.value + [before.value[0]] == s
  {
    var code := Lzw.CodeOf(d, s);
    if code >= |d'| {
      assert d == d' + [before.value + [s[0]]];
      assert s == before.value + [s[0]] && s[0] == before.value[0];
    }
  }

  lemma {:induction false} DecodesCoded(d: Lzw.Dictionary, width: nat, s: Lzw.Text, rest: Lzw.Text,
                                        table: seq<seq<nat>>, before: Option<seq<nat>>, d': Lzw.Dictionary, tail: seq<bool>)
    requires Lzw.InUse(d, width) && s in d && |s| > 0 && Lzw.Pixels(s) && Lzw.Pixels(rest) && width > 0
    requires InStep(d, s, table, before, d')
    ensures Decode(Lzw.Coded(d, width, s, rest) + tail, table, before, width, |s| + |rest|) == s + rest
    decreases |rest|
  {
    hide LzwBits.LowBits, Decode, Lzw.Coded, Lzw.InUse, Lzw.Joined, Lzw.Grown, InStep, Holds;
    var table' := if before.Some? && |table| < 4096 then table + [before.value + [s[0]]] else table;
    if |rest| == 0 {
      Lzw.LastCode(d, width, s);
      assert rest == [];
      ReadsCode(d, width, s, table, before, d', tail, |s|);
      DecodeDone(tail, table', Some(s), Lzw.Grown(d, width));
    } else {
      var c := rest[0];
      Lzw.CodedNext(d, width, s, rest);
      if s + [c] in d {
        StillInStep(d, s, c, table, before, d');
        DecodesCoded(d, width, s + [c], rest[1..], table, before, d', tail);
        assert (s + [c]) + rest[1..] == s + rest;
      } else {
        var e := Lzw.Joined(d, s + [c]);
        var more := Lzw.Coded(e, Lzw.Grown(d, width), [c], rest[1..]);
        Lzw.Regroup(LzwBits.LowBits(Lzw.CodeOf(d, s), width), more, tail);
        ReadsCode(d, width, s, table, before, d', more + tail, |s| + |rest|);
        NextInStep(d, width, s, c, table, before, d');
        DecodesCoded(e, Lzw.Grown(d, width), [c], rest[1..], table', Some(s), d, tail);
        assert [c] + rest[1..] == rest;
      }
    }
  }

  lemma DecodeDone(bits: seq<bool>, table: seq<seq<nat>>, before: Option<seq<nat>>, width: nat)
    ensures Decode(bits, table, before, width, 0) == []
  {
  }

  lemma StillInStep(d: Lzw.Dictionary, s: Lzw.Text, c: nat, table: seq<seq<nat>>, before: Option<seq<nat>>, d': Lzw.Dictionary)
    requires |s| > 0 && InStep(d, s, table, before, d')
    ensures InStep(d, s + [c], table, before, d')
  {
  }

  lemma NextInStep(d: Lzw.Dictionary, width: nat, s: Lzw.Text, c: nat, table: seq<seq<nat>>, before: Option<seq<nat>>, d': Lzw.Dictionary)
    requires |s| > 0 && InStep(d, s, table, before, d') && Lzw.InUse(d, width) && width > 0
    ensures var table' := if before.Some? && |table| < 4096 then table + [before.value + [s[0]]] else table;
            InStep(Lzw.Joined(d, s + [c]), [c], table', Some(s), d) && Lzw.Grown(d, width) > 0
  {
    hide Lzw.InUse, Lzw.Joined, Holds;
    JoinsToo(d, width, s, table, before, d');
  }

  /** The decoder shows the pixels that were coded, for any pixels that are not empty. */
  lemma RasterRoundTrip(data: Lzw.Text, raster: seq<byte>, tail: seq<bool>)
    requires |data| > 0 && Lzw.Pixels(data)
    requires LzwBits.ByteBits(raster) == LzwBits.LowBits(Lzw.CLEAR, 3) + Lzw.CodedPixels(data) + tail
    ensures Image(raster, |data|) == data
  {
    hide LzwBits.LowBits, LzwBits.ByteBits, StreamBits, Number, Lzw.Coded, Lzw.InUse;
    StreamAgrees(raster);
    Lzw.Widths();
    Lzw.Regroup(LzwBits.LowBits(Lzw.CLEAR, 3), Lzw.CodedPixels(data), tail);
    NumberOf(Lzw.CLEAR, 3, Lzw.CodedPixels(data) + tail);
    Lzw.FirstInUse(data[0]);
    DecodesCoded(Lzw.FIRST, 3, [data[0]], data[1..], START, None, Lzw.FIRST, tail);
    assert [data[0]] + data[1..] == data;
    assert Image(raster, |data|) == Decode(Lzw.CodedPixels(data) + tail, START, None, 3, |data|);
  }
}
