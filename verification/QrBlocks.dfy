/** createBytes of qrcode.js: check bytes for every block, and the interleaved codewords. */
module QrBlocks {
  import opened Bytes
  import opened Galois
  import opened Polynomials
  import opened QrMath
  import opened QrPolynomial
  import opened QrInterleave

  // ---- Reed-Solomon codewords -----------------------------------------------------------------------

  /** Data and check bytes together are a multiple of the generator. */
  ghost predicate IsCodeword(data: Poly, ec: Poly) {
    exists q :: |q| == |data| && Product(q, Generator(|ec|)) == data + ec
  }

  /** A codeword vanishes at alpha^0, ..., alpha^(n-1), one root for each check byte. */
  lemma CodewordVanishes(data: Poly, ec: Poly, i: nat)
    requires IsCodeword(data, ec) && i < |ec|
    ensures Eval(data + ec, Alpha(i)) == 0
  {
    hide Add, Times, Alpha, Product, Generator, Eval;
    var q :| |q| == |data| && Product(q, Generator(|ec|)) == data + ec;
    EvalProduct(q, Generator(|ec|), Alpha(i));
    GeneratorRoots(|ec|, i);
    TimesZero(Eval(q, Alpha(i)));
  }

  lemma LeadingCoefficient(q: Poly, e: Poly)
    requires |q| > 0 && |e| > 0 && e[0] == 1
    ensures Product(q, e)[0] == q[0]
  {
    hide Add, Times;
    var row, rest := Scale(q[0], e) + Zeros(|q| - 1), [0] + Product(q[1..], e);
    assert Product(q, e)[0] == Add(row[0], rest[0]);
    TimesCommutes(q[0], 1);
    TimesOne(q[0]);
    AddLaws(q[0], 0, 0);
  }

  lemma RestOfProduct(q: Poly, e: Poly, k: nat)
    requires |q| > 0 && |e| > 0 && 1 <= k < |q| + |e| - 1
    ensures Product(q, e)[k] == Add((Scale(q[0], e) + Zeros(|q| - 1))[k], Product(q[1..], e)[k - 1])
  {
    hide Add, Times, Scale;
  }

  lemma AddEqual(x: Elem, y: Elem, z: Elem)
    requires Add(x, y) == Add(x, z)
    ensures y == z
  {
  }

  /** The quotient is determined by the highest coefficients of the product. */
  lemma {:induction false} QuotientUnique(q: Poly, r: Poly, e: Poly)
    requires |q| == |r| && |e| > 0 && e[0] == 1
    requires forall k | 0 <= k < |q| :: Product(q, e)[k] == Product(r, e)[k]
    ensures q == r
  {
    hide Add, Times, Product, Scale;
    if |q| > 0 {
      LeadingCoefficient(q, e);
      LeadingCoefficient(r, e);
      forall k | 0 <= k < |q| - 1 ensures Product(q[1..], e)[k] == Product(r[1..], e)[k] {
        RestOfProduct(q, e, k + 1);
        RestOfProduct(r, e, k + 1);
        AddEqual((Scale(q[0], e) + Zeros(|q| - 1))[k + 1], Product(q[1..], e)[k], Product(r[1..], e)[k]);
      }
      QuotientUnique(q[1..], r[1..], e);
      assert q == [q[0]] + q[1..] && r == [r[0]] + r[1..];
    }
  }

  /** The check bytes are determined by the data. */
  lemma CheckBytesUnique(data: Poly, ec: Poly, ec': Poly)
    requires IsCodeword(data, ec) && IsCodeword(data, ec') && |ec| == |ec'|
    ensures ec == ec'
  {
    hide Add, Times, Product, Generator;
    var e := Generator(|ec|);
    var q :| |q| == |data| && Product(q, e) == data + ec;
    var r :| |r| == |data| && Product(r, e) == data + ec';
    GeneratorLeads(|ec|);
    forall k | 0 <= k < |q| ensures Product(q, e)[k] == Product(r, e)[k] {
      assert (data + ec)[k] == data[k] == (data + ec')[k];
    }
    QuotientUnique(q, r, e);
    assert ec == (data + ec)[|data|..] && ec' == (data + ec')[|data|..];
  }

  // ---- one block ----------------------------------------------------------------------------------

  lemma SplitSum(data: Poly, ec: Poly)
    ensures Plus(data + Zeros(|ec|), Zeros(|data|) + ec) == data + ec
  {
    hide Add;
    forall k | 0 <= k < |data| + |ec| ensures Plus(data + Zeros(|ec|), Zeros(|data|) + ec)[k] == (data + ec)[k] {
      AddLaws(if k < |data| then data[k] else ec[k - |data|], 0, 0);
    }
  }

  /** What is left of data x^n, padded to n places, completes the codeword. */
  lemma RemainderCompletes(data: Poly, r: Poly, n: nat)
    requires |r| <= n && Reduces(data + Zeros(n), r, Generator(n))
    ensures IsCodeword(data, LeftPad(r, n))
  {
    hide Add, Product, Generator, Plus, Zeros, LeftPad;
    var p, e, ec := data + Zeros(n), Generator(n), LeftPad(r, n);
    var q :| |q| == |p| - |e| + 1 && p == Plus(Product(q, e), LeftPad(r, |p|));
    PadTwice(r, |data|, n);
    SplitSum(data, ec);
    var pad := Zeros(|data|) + ec;
    PlusLaws(Product(q, e), pad, pad);
    PlusLaws(pad, pad, pad);
    assert Product(q, e) == data + ec;
  }

  lemma PadTwice(r: Poly, m: nat, n: nat)
    requires |r| <= n
    ensures LeftPad(r, m + n) == Zeros(m) + LeftPad(r, n)
  {
  }

  lemma StrippedData(data: Poly, n: nat)
    ensures data + Zeros(n) == Zeros(|data| - |Strip(data)|) + (Strip(data) + Zeros(n))
  {
    var s := Strip(data);
    assert data == LeftPad(s, |data|);
  }

  /** The check bytes of one block: the remainder, right-aligned. */
  method CheckBytes(m: Tables, data: seq<Elem>, ecCount: nat) returns (r: Option<seq<Elem>>)
    requires m.Valid()
    ensures r.Some? ==> |r.value| == ecCount && IsCodeword(data, r.value)
    ensures ecCount <= 254 ==> r.Some?
  {
    hide Add, Times, Alpha, Product, Generator, Strip, IsCodeword, Reduces;
    var rsPoly := ErrorCorrectPolynomial(m, ecCount);
    if rsPoly.None? { return None; }
    var g := rsPoly.value;
    var rawPoly := NewPolynomial(data, |g| - 1);
    var modPoly := Mod(m, rawPoly, g);
    if modPoly.None? { return None; }
    var rest := modPoly.value;
    var ec := new Elem[|g| - 1](_ => 0);
    for i := 0 to ec.Length
      invariant forall k | 0 <= k < i :: ec[k] == LeftPad(rest, ecCount)[k]
    {
      var modIndex := i + |rest| - ec.Length;
      ec[i] := if modIndex >= 0 then rest[modIndex] else 0;
    }
    assert ec[..] == LeftPad(rest, ecCount);
    StrippedData(data, ecCount);
    ReducesPadded(rawPoly, rest, g, |data| - |Strip(data)|);
    RemainderCompletes(data, rest, ecCount);
    r := Some(ec[..]);
  }

  // ---- all blocks ----------------------------------------------------------------------------------

  datatype Block = Block(total: nat, data: nat)

  /** The bytes of the buffer from `offset` on, as many as asked; past its end the code reads 0. */
  function Slice(buffer: seq<Elem>, offset: nat, n: nat): (s: seq<Elem>)
    ensures |s| == n
  {
    seq(n, i requires 0 <= i < n => if offset + i < |buffer| then buffer[offset + i] else 0)
  }

  function DataTotal(blocks: seq<Block>): nat {
    if |blocks| == 0 then 0 else DataTotal(blocks[..|blocks| - 1]) + blocks[|blocks| - 1].data
  }

  function CodeTotal(blocks: seq<Block>): nat {
    if |blocks| == 0 then 0 else CodeTotal(blocks[..|blocks| - 1]) + blocks[|blocks| - 1].total
  }

  /** The consecutive slices of the buffer, one for each block. */
  function DataBlocks(buffer: seq<Elem>, blocks: seq<Block>): (d: seq<seq<Elem>>)
    ensures |d| == |blocks| && forall k | 0 <= k < |d| :: |d[k]| == blocks[k].data
  {
    if |blocks| == 0 then []
    else
      var rest := blocks[..|blocks| - 1];
      DataBlocks(buffer, rest) + [Slice(buffer, DataTotal(rest), blocks[|blocks| - 1].data)]
  }

  /** Check bytes of the right number for every block of data. */
  ghost predicate AreCheckBytes(dc: seq<seq<Elem>>, ec: seq<seq<Elem>>, blocks: seq<Block>) {
    |dc| == |ec| == |blocks|
    && forall k | 0 <= k < |dc| :: |dc[k]| + |ec[k]| == blocks[k].total && IsCodeword(dc[k], ec[k])
  }

  predicate Sensible(blocks: seq<Block>) {
    forall k | 0 <= k < |blocks| :: blocks[k].data <= blocks[k].total
  }

  method CopyData(buffer: seq<Elem>, offset: nat, dcCount: nat) returns (s: seq<Elem>)
    ensures s == Slice(buffer, offset, dcCount)
  {
    var d := new Elem[dcCount](_ => 0);
    for i := 0 to dcCount
      invariant forall k | 0 <= k < i :: d[k] == Slice(buffer, offset, dcCount)[k]
    {
      d[i] := if i + offset < |buffer| then buffer[i + offset] else 0;
    }
    s := d[..];
  }

  /** The data and check bytes of every block, in the order of the blocks. */
  method SplitAndCheck(m: Tables, buffer: seq<Elem>, blocks: seq<Block>)
    returns (dc: seq<seq<Elem>>, ec: seq<seq<Elem>>, maxDc: nat, maxEc: nat, ok: bool)
    requires m.Valid() && Sensible(blocks)
    ensures (forall k | 0 <= k < |blocks| :: blocks[k].total - blocks[k].data <= 254) ==> ok
    ensures ok ==> dc == DataBlocks(buffer, blocks) && AreCheckBytes(dc, ec, blocks)
    ensures ok ==> maxDc == Longest(Lengths(dc)) && maxEc == Longest(Lengths(ec))
  {
    hide IsCodeword, Slice, Longest, Lengths, DataBlocks, DataTotal, AreCheckBytes;
    NoBlocks(buffer);
    LongestOfNone();
    var offset := 0;
    dc, ec, maxDc, maxEc, ok := [], [], 0, 0, true;
    for r := 0 to |blocks|
      invariant offset == DataTotal(blocks[..r]) && dc == DataBlocks(buffer, blocks[..r])
      invariant AreCheckBytes(dc, ec, blocks[..r])
      invariant maxDc == Longest(Lengths(dc)) && maxEc == Longest(Lengths(ec))
    {
      var dcCount := blocks[r].data;
      var ecCount := blocks[r].total - dcCount;
      var d := CopyData(buffer, offset, dcCount);
      var e := CheckBytes(m, d, ecCount);
      if e.None? {
        ok := false;
        return;
      }
      LongestSnoc(dc, d);
      LongestSnoc(ec, e.value);
      BlocksNext(buffer, blocks, r, dc, ec, d, e.value);
      dc, ec := dc + [d], ec + [e.value];
      maxDc := if dcCount > maxDc then dcCount else maxDc;
      maxEc := if ecCount > maxEc then ecCount else maxEc;
      offset := offset + dcCount;
    }
    assert blocks[..|blocks|] == blocks;
  }

  lemma NoBlocks(buffer: seq<Elem>)
    ensures DataTotal([]) == 0 && DataBlocks(buffer, []) == [] && AreCheckBytes([], [], [])
  {
  }

  /** One more block's data and check bytes. */
  lemma BlocksNext(buffer: seq<Elem>, blocks: seq<Block>, r: nat, dc: seq<seq<Elem>>, ec: seq<seq<Elem>>, d: seq<Elem>, e: seq<Elem>)
    requires r < |blocks| && dc == DataBlocks(buffer, blocks[..r]) && AreCheckBytes(dc, ec, blocks[..r])
    requires d == Slice(buffer, DataTotal(blocks[..r]), blocks[r].data) && |d| + |e| == blocks[r].total && IsCodeword(d, e)
    ensures DataTotal(blocks[..r + 1]) == DataTotal(blocks[..r]) + blocks[r].data
    ensures dc + [d] == DataBlocks(buffer, blocks[..r + 1])
    ensures AreCheckBytes(dc + [d], ec + [e], blocks[..r + 1])
  {
    hide IsCodeword, Slice;
    assert blocks[..r + 1][..r] == blocks[..r];
  }

  lemma LongestOfNone()
    ensures Longest(Lengths<Elem>([])) == 0
  {
  }

  lemma LongestSnoc<T>(b: seq<seq<T>>, c: seq<T>)
    ensures Longest(Lengths(b + [c])) == if |c| > Longest(Lengths(b)) then |c| else Longest(Lengths(b))
  {
    assert Lengths(b + [c])[..|b|] == Lengths(b);
  }

  lemma ColumnSnoc<T>(b: seq<seq<T>>, r: nat, i: nat)
    requires r < |b|
    ensures Column(b[..r + 1], i) == Column(b[..r], i) + (if i < |b[r]| then [b[r][i]] else [])
  {
    assert b[..r + 1][..r] == b[..r];
  }

  lemma {:induction false} ColumnPrefix<T>(b: seq<seq<T>>, r: nat, i: nat)
    requires r <= |b|
    ensures |Column(b[..r], i)| <= |Column(b, i)|
  {
    if r == |b| {
      assert b[..r] == b;
    } else {
      ColumnPrefix(b[..|b| - 1], r, i);
      assert b[..|b| - 1][..r] == b[..r];
    }
  }

  lemma {:induction false} ColumnsPrefix<T>(b: seq<seq<T>>, m: nat, n: nat)
    requires m <= n
    ensures |Columns(b, m)| <= |Columns(b, n)|
  {
    if m < n { ColumnsPrefix(b, m, n - 1); }
  }

  lemma ColumnsStart<T>(b: seq<seq<T>>)
    ensures Columns(b, 0) == [] && Column(b[..0], 0) == [] && Interleave(b) == Columns(b, Longest(Lengths(b)))
  {
  }

  lemma ColumnsNext<T>(b: seq<seq<T>>, i: nat)
    ensures Columns(b, i + 1) == Columns(b, i) + Column(b, i) && Column(b[..0], i) == []
  {
  }

  /** One of the two interleaving loops: appends the interleaved blocks at `index`. */
  method WriteColumns(data: array<Elem>, index: nat, b: seq<seq<Elem>>, max: nat) returns (end: nat)
    requires max == Longest(Lengths(b)) && index + |Interleave(b)| <= data.Length
    modifies data
    ensures end == index + |Interleave(b)|
    ensures data[..end] == old(data[..index]) + Interleave(b)
  {
    hide Column, Columns, Interleave, Lengths, Longest;
    ColumnsStart(b);
    ghost var before := data[..index];
    end := index;
    for i := 0 to max
      invariant end == index + |Columns(b, i)| <= data.Length
      invariant data[..end] == before + Columns(b, i)
    {
      ColumnsPrefix(b, i + 1, max);
      ColumnsNext(b, i);
      ghost var done := before + Columns(b, i);
      for r := 0 to |b|
        invariant end == index + |Columns(b, i)| + |Column(b[..r], i)| <= data.Length
        invariant data[..end] == done + Column(b[..r], i)
      {
        ColumnSnoc(b, r, i);
        ColumnPrefix(b, r + 1, i);
        if i < |b[r]| {
          data[end] := b[r][i];
          end := end + 1;
        }
      }
      assert b[..|b|] == b;
    }
  }

  lemma {:induction false} TotalsAdd(dc: seq<seq<Elem>>, ec: seq<seq<Elem>>, blocks: seq<Block>)
    requires |dc| == |ec| == |blocks|
    requires forall k | 0 <= k < |dc| :: |dc[k]| + |ec[k]| == blocks[k].total
    ensures |Interleave(dc)| + |Interleave(ec)| == CodeTotal(blocks)
  {
    InterleaveSize(dc);
    InterleaveSize(ec);
    TotalsAddUp(dc, ec, blocks);
  }

  lemma {:induction false} TotalsAddUp(dc: seq<seq<Elem>>, ec: seq<seq<Elem>>, blocks: seq<Block>)
    requires |dc| == |ec| == |blocks|
    requires forall k | 0 <= k < |dc| :: |dc[k]| + |ec[k]| == blocks[k].total
    ensures Total(Lengths(dc)) + Total(Lengths(ec)) == CodeTotal(blocks)
  {
    if |dc| > 0 {
      var n := |dc| - 1;
      LengthsPrefix(dc);
      LengthsPrefix(ec);
      TotalsAddUp(dc[..n], ec[..n], blocks[..n]);
    }
  }

  /** All codewords: the interleaved data, then the interleaved check bytes; none where glog throws. */
  method CreateBytes(m: Tables, buffer: seq<Elem>, blocks: seq<Block>) returns (r: Option<seq<Elem>>)
    requires m.Valid() && Sensible(blocks)
    ensures (forall k | 0 <= k < |blocks| :: blocks[k].total - blocks[k].data <= 254) ==> r.Some?
    ensures r.Some? ==> exists ec :: AreCheckBytes(DataBlocks(buffer, blocks), ec, blocks)
                                     && r.value == Interleave(DataBlocks(buffer, blocks)) + Interleave(ec)
  {
    hide IsCodeword, Interleave, DataBlocks;
    var dc, ec, maxDc, maxEc, ok := SplitAndCheck(m, buffer, blocks);
    if !ok { return None; }
    var totalCodeCount := 0;
    for i := 0 to |blocks|
      invariant totalCodeCount == CodeTotal(blocks[..i])
    {
      assert blocks[..i + 1][..i] == blocks[..i];
      totalCodeCount := totalCodeCount + blocks[i].total;
    }
    assert blocks[..|blocks|] == blocks;
    TotalsAdd(dc, ec, blocks);
    var data := new Elem[totalCodeCount](_ => 0);
    var index := WriteColumns(data, 0, dc, maxDc);
    index := WriteColumns(data, index, ec, maxEc);
    assert data[..] == data[..index] == Interleave(dc) + Interleave(ec);
    r := Some(data[..]);
  }

  // ---- reading codewords back ------------------------------------------------------------------------

  function Flatten<T>(b: seq<seq<T>>): seq<T> {
    if |b| == 0 then [] else Flatten(b[..|b| - 1]) + b[|b| - 1]
  }

  lemma {:induction false} FlattenDataBlocks(buffer: seq<Elem>, blocks: seq<Block>)
    ensures |Flatten(DataBlocks(buffer, blocks))| == DataTotal(blocks)
    ensures DataTotal(blocks) <= |buffer| ==> Flatten(DataBlocks(buffer, blocks)) == buffer[..DataTotal(blocks)]
  {
    if |blocks| > 0 {
      var rest := blocks[..|blocks| - 1];
      FlattenDataBlocks(buffer, rest);
      var d := DataBlocks(buffer, blocks);
      assert d[..|d| - 1] == DataBlocks(buffer, rest);
      var n, k := DataTotal(rest), blocks[|blocks| - 1].data;
      if n + k <= |buffer| {
        assert Slice(buffer, n, k) == buffer[n..n + k];
        assert buffer[..n] + buffer[n..n + k] == buffer[..n + k];
      }
    }
  }

  function DataLengths(blocks: seq<Block>): seq<nat> {
    seq(|blocks|, k requires 0 <= k < |blocks| => blocks[k].data)
  }

  function CheckLengths(blocks: seq<Block>): seq<nat>
    requires Sensible(blocks)
  {
    seq(|blocks|, k requires 0 <= k < |blocks| => blocks[k].total - blocks[k].data)
  }

  ghost predicate ReadsAs(s: seq<Elem>, lens: seq<nat>, b: seq<seq<Elem>>) {
    Readable(s, lens) && Deinterleave(s, lens) == b
  }

  lemma SplitAt<T>(s: seq<T>, t: seq<T>, n: nat)
    requires n == |s|
    ensures (s + t)[..n] == s && (s + t)[n..] == t
  {
  }

  lemma LengthsAre(dc: seq<seq<Elem>>, ec: seq<seq<Elem>>, blocks: seq<Block>)
    requires Sensible(blocks) && AreCheckBytes(dc, ec, blocks) && forall k | 0 <= k < |dc| :: |dc[k]| == blocks[k].data
    ensures Lengths(dc) == DataLengths(blocks) && Lengths(ec) == CheckLengths(blocks)
  {
    hide IsCodeword;
  }

  lemma {:induction false} TotalOfLengths(blocks: seq<Block>)
    ensures Total(DataLengths(blocks)) == DataTotal(blocks)
  {
    if |blocks| > 0 {
      TotalOfLengths(blocks[..|blocks| - 1]);
      assert DataLengths(blocks)[..|blocks| - 1] == DataLengths(blocks[..|blocks| - 1]);
    }
  }

  /**
   Reading the codewords block by block gives back the buffer that went in, whatever the sizes
   of the blocks, and for each block the check bytes of its data.
   */
  lemma CodewordsRoundTrip(buffer: seq<Elem>, blocks: seq<Block>, ec: seq<seq<Elem>>, codewords: seq<Elem>)
    requires Sensible(blocks) && |buffer| == DataTotal(blocks) && AreCheckBytes(DataBlocks(buffer, blocks), ec, blocks)
    requires codewords == Interleave(DataBlocks(buffer, blocks)) + Interleave(ec)
    ensures |buffer| <= |codewords|
    ensures ReadsAs(codewords[..|buffer|], DataLengths(blocks), DataBlocks(buffer, blocks))
    ensures Flatten(DataBlocks(buffer, blocks)) == buffer
    ensures ReadsAs(codewords[|buffer|..], CheckLengths(blocks), ec)
  {
    hide AreCheckBytes, Interleave, DataBlocks, Deinterleave, Readable, Total, Flatten, Lengths, DataLengths,
      CheckLengths;
    var dc := DataBlocks(buffer, blocks);
    LengthsAre(dc, ec, blocks);
    TotalOfLengths(blocks);
    InterleaveSize(dc);
    SplitAt(Interleave(dc), Interleave(ec), |buffer|);
    InterleaveRoundTrip(dc);
    InterleaveRoundTrip(ec);
    FlattenDataBlocks(buffer, blocks);
    SplitAt(buffer, [], |buffer|);
    assert buffer + [] == buffer;
  }
}
