/** mapData of qrcode.js: the codewords' bits on the free modules, in zigzag order, masked. */
module QrPlacement {
  import opened Bytes
  import opened QrBits

  type Cell = (int, int)

  /** Rows of modules; a module that is not set yet is free. */
  type Grid = seq<seq<Option<bool>>>

  predicate Square(g: Grid, n: nat) {
    |g| == n && forall r | 0 <= r < n :: |g[r]| == n
  }

  predicate Inside(p: Cell, n: nat) {
    0 <= p.0 < n && 0 <= p.1 < n
  }

  function Get(g: Grid, p: Cell): Option<bool>
    requires Square(g, |g|) && Inside(p, |g|)
  {
    g[p.0][p.1]
  }

  function Put(g: Grid, p: Cell, v: bool): (g': Grid)
    requires Square(g, |g|) && Inside(p, |g|)
    ensures Square(g', |g|)
    ensures Get(g', p) == Some(v)
    ensures forall q | Inside(q, |g|) && q != p :: Get(g', q) == Get(g, q)
  {
    g[p.0 := g[p.0][p.1 := Some(v)]]
  }

  /** getMaskFunction. */
  function Mask8(pattern: nat, i: nat, j: nat): bool {
    if pattern == 0 then (i + j) % 2 == 0
    else if pattern == 1 then i % 2 == 0
    else if pattern == 2 then j % 3 == 0
    else if pattern == 3 then (i + j) % 3 == 0
    else if pattern == 4 then (i / 2 + j / 3) % 2 == 0
    else if pattern == 5 then (i * j) % 2 + (i * j) % 3 == 0
    else if pattern == 6 then ((i * j) % 2 + (i * j) % 3) % 2 == 0
    else ((i * j) % 3 + (i + j) % 2) % 2 == 0
  }

  function Masked(pattern: nat, p: Cell): bool {
    p.0 >= 0 && p.1 >= 0 && Mask8(pattern, p.0, p.1)
  }

  /** Bit k of the codewords, the highest of a byte first; nothing but 0 beyond them. */
  function DataBit(data: seq<bv8>, k: nat): bool {
    k < 8 * |data| && BitOf(data[k / 8], k % 8)
  }

  lemma BitByShift(b: bv8, bitIndex: nat)
    requires bitIndex < 8
    ensures ((b >> bitIndex) & 1 == 1) == BitOf(b, 7 - bitIndex)
  {
  }

  // ---- the order of the modules ------------------------------------------------------------------

  /** Two columns, row by row from `row` to the edge. */
  function Strip(row: int, up: bool, col: int, n: nat): seq<Cell>
    decreases if up then row + 1 else n - row
  {
    if 0 <= row < n then [(row, col), (row, col - 1)] + Strip(if up then row - 1 else row + 1, up, col, n) else []
  }

  /** From the right pair of columns to the left, up and down by turns, stepping over column 6. */
  function Zigzag(col: int, up: bool, n: nat): seq<Cell>
    decreases col + 1
  {
    if col <= 0 then []
    else
      var c := if col == 6 then 5 else col;
      Strip(if up then n - 1 else 0, up, c, n) + Zigzag(c - 2, !up, n)
  }

  lemma {:induction false} StripHolds(row: int, up: bool, col: int, n: nat, p: Cell)
    ensures p in Strip(row, up, col, n)
      <==> (0 <= row < n && 0 <= p.0 < n && (if up then p.0 <= row else p.0 >= row) && (p.1 == col || p.1 == col - 1))
    decreases if up then row + 1 else n - row
  {
    if 0 <= row < n { StripHolds(if up then row - 1 else row + 1, up, col, n, p); }
  }

  predicate Distinct(path: seq<Cell>) {
    forall i, j | 0 <= i < j < |path| :: path[i] != path[j]
  }

  lemma DistinctConcat(s: seq<Cell>, t: seq<Cell>)
    requires Distinct(s) && Distinct(t) && forall p | p in s :: p !in t
    ensures Distinct(s + t)
  {
    forall i, j | 0 <= i < j < |s + t| ensures (s + t)[i] != (s + t)[j] {
      if i < |s| && j >= |s| { assert s[i] in s && t[j - |s|] in t; }
    }
  }

  lemma {:induction false} StripDistinct(row: int, up: bool, col: int, n: nat)
    ensures Distinct(Strip(row, up, col, n))
    decreases if up then row + 1 else n - row
  {
    if 0 <= row < n {
      var next := if up then row - 1 else row + 1;
      StripDistinct(next, up, col, n);
      StripHolds(next, up, col, n, (row, col));
      StripHolds(next, up, col, n, (row, col - 1));
      DistinctConcat([(row, col), (row, col - 1)], Strip(next, up, col, n));
    }
  }

  /** The zigzag from an even column (or from 5, 3 or 1) covers every column from there on but column 6. */
  lemma {:induction false} ZigzagHolds(col: int, up: bool, n: nat, p: Cell)
    requires col < n && n > 0 && (if col >= 6 then col % 2 == 0 else col % 2 == 1)
    ensures p in Zigzag(col, up, n) <==> (0 <= p.0 < n && 0 <= p.1 <= col && p.1 != 6)
    decreases col + 1
  {
    if col > 0 {
      var c := if col == 6 then 5 else col;
      StripHolds(if up then n - 1 else 0, up, c, n, p);
      ZigzagHolds(c - 2, !up, n, p);
    }
  }

  lemma {:induction false} ZigzagDistinct(col: int, up: bool, n: nat)
    requires col < n && n > 0 && (if col >= 6 then col % 2 == 0 else col % 2 == 1)
    ensures Distinct(Zigzag(col, up, n))
    decreases col + 1
  {
    if col > 0 {
      var c := if col == 6 then 5 else col;
      var start := if up then n - 1 else 0;
      StripDistinct(start, up, c, n);
      ZigzagDistinct(c - 2, !up, n);
      forall p | p in Strip(start, up, c, n) ensures p !in Zigzag(c - 2, !up, n) {
        StripHolds(start, up, c, n, p);
        ZigzagHolds(c - 2, !up, n, p);
      }
      DistinctConcat(Strip(start, up, c, n), Zigzag(c - 2, !up, n));
    }
  }

  function Path(n: nat): seq<Cell> {
    Zigzag(n - 1, true, n)
  }

  lemma StripNext(row: int, up: bool, col: int, n: nat)
    requires 0 <= row < n
    ensures Strip(row, up, col, n) == [(row, col), (row, col - 1)] + Strip(if up then row - 1 else row + 1, up, col, n)
  {
  }

  lemma StripEnds(row: int, up: bool, col: int, n: nat)
    requires row < 0 || row >= n
    ensures Strip(row, up, col, n) == []
  {
  }

  lemma ZigzagNext(col: int, up: bool, n: nat)
    requires col > 0
    ensures var c := if col == 6 then 5 else col;
            Zigzag(col, up, n) == Strip(if up then n - 1 else 0, up, c, n) + Zigzag(c - 2, !up, n)
  {
  }

  lemma ZigzagEnds(col: int, up: bool, n: nat)
    requires col <= 0
    ensures Zigzag(col, up, n) == []
  {
  }

  /** For an odd size the zigzag visits every module outside column 6 once. */
  lemma PathVisitsOnce(n: nat)
    requires n % 2 == 1 && n >= 7
    ensures Distinct(Path(n))
    ensures forall p: Cell :: p in Path(n) <==> Inside(p, n) && p.1 != 6
  {
    ZigzagDistinct(n - 1, true, n);
    forall p: Cell ensures p in Path(n) <==> Inside(p, n) && p.1 != 6 {
      ZigzagHolds(n - 1, true, n, p);
    }
  }

  // ---- filling --------------------------------------------------------------------------------------

  predicate AllInside(path: seq<Cell>, n: nat) {
    forall i | 0 <= i < |path| :: Inside(path[i], n)
  }

  /** The free modules along the path take the data bits from k on, masked. */
  function Fill(g: Grid, path: seq<Cell>, data: seq<bv8>, pattern: nat, k: nat): (g': Grid)
    requires Square(g, |g|) && AllInside(path, |g|)
    ensures Square(g', |g|)
    decreases |path|
  {
    if |path| == 0 then g
    else if Get(g, path[0]).None? then
      Fill(Put(g, path[0], DataBit(data, k) != Masked(pattern, path[0])), path[1..], data, pattern, k + 1)
    else Fill(g, path[1..], data, pattern, k)
  }

  /** What a reader finds on the modules that were free, in path order, with the mask taken off. */
  function ReadFree(g: Grid, g': Grid, path: seq<Cell>, pattern: nat): seq<bool>
    requires Square(g, |g|) && Square(g', |g|) && |g'| == |g| && AllInside(path, |g|)
  {
    if |path| == 0 then []
    else
      var rest := ReadFree(g, g', path[1..], pattern);
      if Get(g, path[0]).None? then [(Get(g', path[0]) == Some(true)) != Masked(pattern, path[0])] + rest else rest
  }

  function DataBits(data: seq<bv8>, k: nat, n: nat): (s: seq<bool>)
    ensures |s| == n
  {
    seq(n, i requires 0 <= i < n => DataBit(data, k + i))
  }

  /** Reserved modules, and modules off the path, keep their value; free ones on it are set. */
  lemma {:induction false} FillMoves(g: Grid, path: seq<Cell>, data: seq<bv8>, pattern: nat, k: nat, p: Cell)
    requires Square(g, |g|) && AllInside(path, |g|) && Inside(p, |g|)
    ensures Get(g, p).Some? || p !in path ==> Get(Fill(g, path, data, pattern, k), p) == Get(g, p)
    ensures p in path ==> Get(Fill(g, path, data, pattern, k), p).Some?
    decreases |path|
  {
    if |path| > 0 {
      assert AllInside(path[1..], |g|);
      if Get(g, path[0]).None? {
        FillMoves(Put(g, path[0], DataBit(data, k) != Masked(pattern, path[0])), path[1..], data, pattern, k + 1, p);
      } else {
        FillMoves(g, path[1..], data, pattern, k, p);
      }
    }
  }

  /** Whether a module was free matters only along the path. */
  lemma {:induction false} ReadFreeCongruent(g: Grid, g1: Grid, g': Grid, path: seq<Cell>, pattern: nat)
    requires Square(g, |g|) && Square(g1, |g|) && Square(g', |g|) && |g| == |g1| == |g'| && AllInside(path, |g|)
    requires forall i | 0 <= i < |path| :: Get(g, path[i]).None? <==> Get(g1, path[i]).None?
    ensures ReadFree(g, g', path, pattern) == ReadFree(g1, g', path, pattern)
  {
    if |path| > 0 { ReadFreeCongruent(g, g1, g', path[1..], pattern); }
  }

  /** Reading the free modules back gives the data bits in order, each exactly once. */
  lemma {:induction false} FillReadsBack(g: Grid, path: seq<Cell>, data: seq<bv8>, pattern: nat, k: nat)
    requires Square(g, |g|) && AllInside(path, |g|) && Distinct(path)
    ensures var s := ReadFree(g, Fill(g, path, data, pattern, k), path, pattern); s == DataBits(data, k, |s|)
    decreases |path|
  {
    hide DataBit, Masked, Put;
    if |path| > 0 {
      var p, rest := path[0], path[1..];
      assert AllInside(rest, |g|) && Distinct(rest);
      forall i | 0 <= i < |rest| ensures rest[i] != p { assert path[0] != path[i + 1]; }
      if Get(g, p).None? {
        var v := DataBit(data, k) != Masked(pattern, p);
        var g1 := Put(g, p, v);
        var g' := Fill(g1, rest, data, pattern, k + 1);
        FillReadsBack(g1, rest, data, pattern, k + 1);
        FillMoves(g1, rest, data, pattern, k + 1, p);
        ReadFreeCongruent(g, g1, g', rest, pattern);
        var s := ReadFree(g1, g', rest, pattern);
        assert ReadFree(g, g', path, pattern) == [DataBit(data, k)] + s;
        assert DataBits(data, k, |s| + 1) == [DataBit(data, k)] + DataBits(data, k + 1, |s|);
      } else {
        FillReadsBack(g, rest, data, pattern, k);
      }
    }
  }

  // ---- mapData ----------------------------------------------------------------------------------------

  predicate Reserved6(g: Grid) {
    Square(g, |g|) && |g| > 6 && forall r | 0 <= r < |g| :: g[r][6].Some?
  }

  /**
   The round trip: no reserved module changes, none stays free, and the modules that were free
   read back, in zigzag order and unmasked, as the data bits followed by zeros.
   */
  lemma PlacementRoundTrip(g: Grid, data: seq<bv8>, pattern: nat)
    requires Reserved6(g) && |g| % 2 == 1
    ensures AllInside(Path(|g|), |g|)
    ensures var g' := Fill(g, Path(|g|), data, pattern, 0);
            var read := ReadFree(g, g', Path(|g|), pattern);
            && (forall p: Cell | Inside(p, |g|) :: Get(g', p).Some? && (Get(g, p).Some? ==> Get(g', p) == Get(g, p)))
            && (8 * |data| <= |read| ==> read[..8 * |data|] == BitsOf(data, 8 * |data|))
            && (forall i | 8 * |data| <= i < |read| :: !read[i])
  {
    var n := |g|;
    PathVisitsOnce(n);
    InsidePath(n);
    var g' := Fill(g, Path(n), data, pattern, 0);
    forall p: Cell | Inside(p, n) ensures Get(g', p).Some? && (Get(g, p).Some? ==> Get(g', p) == Get(g, p)) {
      FillMoves(g, Path(n), data, pattern, 0, p);
    }
    FillReadsBack(g, Path(n), data, pattern, 0);
  }

  lemma InsidePath(n: nat)
    requires n % 2 == 1 && n >= 7
    ensures AllInside(Path(n), n)
  {
    PathVisitsOnce(n);
    forall i | 0 <= i < |Path(n)| ensures Inside(Path(n)[i], n) {
      assert Path(n)[i] in Path(n);
    }
  }

  lemma FillEnds(g: Grid, data: seq<bv8>, pattern: nat, k: nat)
    requires Square(g, |g|)
    ensures Fill(g, [], data, pattern, k) == g
  {
  }

  lemma FillStep(g: Grid, p: Cell, rest: seq<Cell>, data: seq<bv8>, pattern: nat, k: nat)
    requires Square(g, |g|) && Inside(p, |g|) && AllInside(rest, |g|)
    ensures AllInside([p] + rest, |g|)
    ensures Fill(g, [p] + rest, data, pattern, k)
         == if Get(g, p).None? then Fill(Put(g, p, DataBit(data, k) != Masked(pattern, p)), rest, data, pattern, k + 1)
            else Fill(g, rest, data, pattern, k)
  {
    assert ([p] + rest)[1..] == rest;
  }

  lemma {:induction false} StripInside(row: int, up: bool, col: int, n: nat)
    requires 1 <= col < n
    ensures AllInside(Strip(row, up, col, n), n)
    decreases if up then row + 1 else n - row
  {
    if 0 <= row < n { StripInside(if up then row - 1 else row + 1, up, col, n); }
  }

  lemma {:induction false} ZigzagInside(col: int, up: bool, n: nat)
    requires col < n
    ensures AllInside(Zigzag(col, up, n), n)
    decreases col + 1
  {
    if col > 0 {
      var c := if col == 6 then 5 else col;
      StripInside(if up then n - 1 else 0, up, c, n);
      ZigzagInside(c - 2, !up, n);
    }
  }

  class QrCode {
    var modules: Grid

    constructor (g: Grid)
      ensures modules == g
    {
      modules := g;
    }

    /** One module of the inner loop; bit k is bit `bitIndex` of byte `byteIndex`. */
    method MapModule(row: nat, col: nat, data: seq<bv8>, pattern: nat, bitIndex: nat, byteIndex: nat)
      returns (bitIndex': nat, byteIndex': nat)
      requires Square(modules, |modules|) && Inside((row, col), |modules|) && bitIndex <= 7
      modifies this
      ensures bitIndex' <= 7 && Square(modules, old(|modules|))
      ensures var p, k, k' := (row, col), 8 * byteIndex + 7 - bitIndex, 8 * byteIndex' + 7 - bitIndex';
              if Get(old(modules), p).None? then
                k' == k + 1 && modules == Put(old(modules), p, DataBit(data, k) != Masked(pattern, p))
              else k' == k && modules == old(modules)
    {
      bitIndex', byteIndex' := bitIndex, byteIndex;
      if modules[row][col].None? {
        var dark := false;
        if byteIndex < |data| {
          BitByShift(data[byteIndex], bitIndex);
          dark := (data[byteIndex] >> bitIndex) & 1 == 1;
        }
        if Mask8(pattern, row, col) {
          dark := !dark;
        }
        modules := modules[row := modules[row][col := Some(dark)]];
        if bitIndex == 0 {
          byteIndex', bitIndex' := byteIndex + 1, 7;
        } else {
          bitIndex' := bitIndex - 1;
        }
      }
    }

    /** The `while (true)` loop over one pair of columns; `after` is the rest of the zigzag. */
    method MapColumns(row0: nat, up: bool, col: nat, data: seq<bv8>, pattern: nat, bitIndex0: nat, byteIndex0: nat,
                      ghost after: seq<Cell>)
      returns (row: int, bitIndex: nat, byteIndex: nat)
      requires Square(modules, |modules|) && 1 <= col < |modules| && bitIndex0 <= 7
      requires row0 == (if up then |modules| - 1 else 0) && AllInside(after, |modules|)
      modifies this
      ensures bitIndex <= 7 && Square(modules, old(|modules|)) && AllInside(Strip(row0, up, col, |modules|) + after, |modules|)
      ensures row == if up then 0 else |modules| - 1
      ensures Fill(modules, after, data, pattern, 8 * byteIndex + 7 - bitIndex)
           == Fill(old(modules), Strip(row0, up, col, |modules|) + after, data, pattern, 8 * byteIndex0 + 7 - bitIndex0)
    {
      hide Fill, Get, DataBit, Masked, Put, Strip;
      ghost var n, g0 := |modules|, modules;
      row, bitIndex, byteIndex := row0, bitIndex0, byteIndex0;
      var inc := if up then -1 else 1;
      StripInside(row0, up, col, n);
      ghost var all, k0 := Strip(row0, up, col, n) + after, 8 * byteIndex0 + 7 - bitIndex0;
      while true
        invariant 0 <= row < n && bitIndex <= 7 && Square(modules, n)
        invariant AllInside(Strip(row, up, col, n) + after, n)
        invariant Fill(modules, Strip(row, up, col, n) + after, data, pattern, 8 * byteIndex + 7 - bitIndex)
               == Fill(g0, all, data, pattern, k0)
        decreases if up then row else n - row
      {
        ghost var next := row + inc;
        ghost var rest := Strip(next, up, col, n) + after;
        StripInside(next, up, col, n);
        StripNext(row, up, col, n);
        assert Strip(row, up, col, n) + after == [(row, col)] + ([(row, col - 1)] + rest);
        FillStep(modules, (row, col - 1), rest, data, pattern, 0);
        FillStep(modules, (row, col), [(row, col - 1)] + rest, data, pattern, 8 * byteIndex + 7 - bitIndex);
        bitIndex, byteIndex := MapModule(row, col, data, pattern, bitIndex, byteIndex);
        FillStep(modules, (row, col - 1), rest, data, pattern, 8 * byteIndex + 7 - bitIndex);
        bitIndex, byteIndex := MapModule(row, col - 1, data, pattern, bitIndex, byteIndex);
        row := row + inc;
        if row < 0 || |modules| <= row {
          StripEnds(row, up, col, n);
          assert [] + after == after;
          row := row - inc;
          break;
        }
      }
    }

    /** Places the codewords; a bad mask pattern throws before anything is placed. */
    method MapData(data: seq<bv8>, pattern: nat) returns (ok: bool)
      requires Square(modules, |modules|) && |modules| > 0
      modifies this
      ensures ok <==> pattern < 8
      ensures Square(modules, old(|modules|)) && AllInside(Path(|modules|), |modules|)
      ensures ok ==> modules == Fill(old(modules), Path(|modules|), data, pattern, 0)
      ensures !ok ==> modules == old(modules)
    {
      hide Fill, Zigzag, Strip;
      ghost var n, g0 := |modules|, modules;
      ZigzagInside(n - 1, true, n);
      if pattern >= 8 { return false; }
      var inc := -1;
      var row := |modules| - 1;
      var bitIndex := 7;
      var byteIndex := 0;
      var col := |modules| - 1;
      while col > 0
        invariant -2 <= col < n && 0 <= bitIndex <= 7 && byteIndex >= 0 && Square(modules, n)
        invariant (inc == -1 || inc == 1) && row == (if inc == -1 then n - 1 else 0)
        invariant AllInside(Zigzag(col, inc == -1, n), n)
        invariant Fill(modules, Zigzag(col, inc == -1, n), data, pattern, 8 * byteIndex + 7 - bitIndex)
               == Fill(g0, Path(n), data, pattern, 0)
        decreases col + 2
      {
        ghost var up := inc == -1;
        ghost var before := Zigzag(col, up, n);
        ZigzagNext(col, up, n);
        if col == 6 { col := col - 1; }
        ZigzagInside(col - 2, !up, n);
        assert before == Strip(row, up, col, n) + Zigzag(col - 2, !up, n);
        row, bitIndex, byteIndex := MapColumns(row, inc == -1, col, data, pattern, bitIndex, byteIndex, Zigzag(col - 2, !up, n));
        inc := -inc;
        col := col - 2;
      }
      ZigzagEnds(col, inc == -1, n);
      FillEnds(modules, data, pattern, 8 * byteIndex + 7 - bitIndex);
      ok := true;
    }
  }
}
