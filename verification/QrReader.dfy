/**
 A reader of its own for what mapData places: the positions of the modules in closed form and the
 mask conditions of ISO/IEC 18004 (sections 7.7.3 and 7.8.2), and bits as numbers.
 */
module QrReader {
  import opened Bytes
  import opened Int32
  import opened QrBits
  import opened QrPlacement

  // ---- positions ---------------------------------------------------------------------------------

  /**
   Module w of the two-column pair c: pairs are counted from the right edge, passing over column 6;
   the first is read upwards from the bottom, the next downwards and so on; in every row the right
   module comes first.
   */
  function InPair(n: nat, c: nat, w: nat): Cell {
    var right := if n - 1 - 2 * c > 6 then n - 1 - 2 * c else n - 2 - 2 * c;
    (if c % 2 == 0 then n - 1 - w / 2 else w / 2, right - w % 2)
  }

  /** Module k of the symbol of n by n modules. */
  function CellAt(n: nat, k: nat): Cell
    requires n > 0
  {
    InPair(n, k / (2 * n), k % (2 * n))
  }

  lemma {:induction false} StripAt(row: int, up: bool, col: int, n: nat, w: nat)
    requires 0 <= row < n
    ensures var rows := if up then row + 1 else n - row;
            && |Strip(row, up, col, n)| == 2 * rows
            && (w < 2 * rows ==> Strip(row, up, col, n)[w] == (if up then row - w / 2 else row + w / 2, col - w % 2))
    decreases if up then row + 1 else n - row
  {
    var next := if up then row - 1 else row + 1;
    StripNext(row, up, col, n);
    if 0 <= next < n {
      StripAt(next, up, col, n, if w >= 2 then w - 2 else 0);
    } else {
      StripEnds(next, up, col, n);
    }
  }

  /** The column that the zigzag has reached before pair c. */
  function Reached(n: nat, c: nat): int {
    if n - 1 - 2 * c >= 6 then n - 1 - 2 * c else n - 2 - 2 * c
  }

  lemma PairNext(n: nat, c: nat)
    requires n % 2 == 1 && n >= 7 && 2 * c < n - 1
    ensures Zigzag(Reached(n, c), c % 2 == 0, n)
         == Strip(if c % 2 == 0 then n - 1 else 0, c % 2 == 0, InPair(n, c, 0).1, n) + Zigzag(Reached(n, c + 1), (c + 1) % 2 == 0, n)
    ensures Reached(n, c) > 0
  {
    hide Strip, Zigzag;
    assert n - 1 - 2 * c != 5 && n - 1 - 2 * c != 7;
    ZigzagNext(Reached(n, c), c % 2 == 0, n);
  }

  /** The modules of e pairs. */
  function PairSize(n: nat, e: nat): nat {
    if e == 0 then 0 else 2 * n + PairSize(n, e - 1)
  }

  lemma {:induction false} PairSizeIs(n: nat, e: nat)
    ensures PairSize(n, e) == 2 * n * e
  {
    if e > 0 {
      PairSizeIs(n, e - 1);
      assert 2 * n * e == 2 * n * (e - 1) + 2 * n;
    }
  }

  /** What is left of the zigzag at pair c, module by module. */
  lemma {:induction false} ZigzagAt(n: nat, c: nat, d: nat, w: nat)
    requires n % 2 == 1 && n >= 7 && c <= d && 2 * d < n - 1 && w < 2 * n
    ensures var z, k := Zigzag(Reached(n, c), c % 2 == 0, n), PairSize(n, d - c) + w; k < |z| && z[k] == InPair(n, d, w)
    decreases d - c
  {
    hide Strip, Zigzag, Reached;
    PairNext(n, c);
    var up := c % 2 == 0;
    var strip := Strip(if up then n - 1 else 0, up, InPair(n, c, 0).1, n);
    StripAt(if up then n - 1 else 0, up, InPair(n, c, 0).1, n, w);
    if c < d {
      ZigzagAt(n, c + 1, d, w);
      assert PairSize(n, d - c) + w == |strip| + (PairSize(n, d - (c + 1)) + w);
    }
  }

  lemma {:induction false} ZigzagSize(n: nat, c: nat, e: nat)
    requires n % 2 == 1 && n >= 7 && 2 * c + 2 * e == n - 1
    ensures |Zigzag(Reached(n, c), c % 2 == 0, n)| == PairSize(n, e)
    decreases e
  {
    hide Strip, Zigzag;
    if e == 0 {
      ZigzagEnds(Reached(n, c), c % 2 == 0, n);
    } else {
      PairNext(n, c);
      var up := c % 2 == 0;
      StripAt(if up then n - 1 else 0, up, InPair(n, c, 0).1, n, 0);
      ZigzagSize(n, c + 1, e - 1);
    }
  }

  lemma PathSize(n: nat)
    requires n % 2 == 1 && n >= 7
    ensures |Path(n)| == n * (n - 1)
  {
    hide Zigzag, PairSize;
    var e := (n - 1) / 2;
    ZigzagSize(n, 0, e);
    PairSizeIs(n, e);
    assert 2 * n * e == n * (2 * e);
  }

  lemma PathElement(n: nat, c: nat, w: nat)
    requires n % 2 == 1 && n >= 7 && 2 * c < n - 1 && w < 2 * n
    ensures PairSize(n, c) + w < |Path(n)| && Path(n)[PairSize(n, c) + w] == InPair(n, c, w)
  {
    hide Zigzag, PairSize, InPair;
    ZigzagAt(n, 0, c, w);
  }

  lemma PairBelow(n: nat, c: nat, w: nat, k: nat)
    requires n % 2 == 1 && c == k / (2 * n) && w == k % (2 * n) && k < n * (n - 1)
    ensures k == 2 * n * c + w && w < 2 * n && 2 * c < n - 1
  {
    assert k == (2 * n) * c + w;
    assert (2 * n) * c == (2 * c) * n && n * (n - 1) == (n - 1) * n;
    MulOrder(2 * c, n - 1, n);
  }

  /** Module k is module w of pair c, for the quotient c and the remainder w by the size of a pair. */
  lemma InItsPair(n: nat, k: nat) returns (c: nat, w: nat)
    requires n % 2 == 1 && k < n * (n - 1)
    ensures k == PairSize(n, c) + w && w < 2 * n && 2 * c < n - 1
    ensures CellAt(n, k) == InPair(n, c, w)
  {
    hide PairSize, InPair;
    QuotientIsNat(k, 2 * n);
    c, w := k / (2 * n), k % (2 * n);
    PairBelow(n, c, w, k);
    PairSizeIs(n, c);
  }

  lemma QuotientIsNat(k: nat, m: nat)
    requires m > 0
    ensures k / m >= 0 && k % m >= 0
  {
  }

  /** The zigzag of mapData in closed form. */
  lemma PathAt(n: nat, k: nat)
    requires n % 2 == 1 && n >= 7
    ensures |Path(n)| == n * (n - 1)
    ensures k < n * (n - 1) ==> Path(n)[k] == CellAt(n, k)
  {
    hide Path, PairSize, InPair, CellAt;
    PathSize(n);
    if k < n * (n - 1) {
      var c, w := InItsPair(n, k);
      PathElement(n, c, w);
    }
  }

  // ---- masks --------------------------------------------------------------------------------------

  /** The data mask patterns of ISO/IEC 18004, table 10, for row i and column j. */
  function MaskCondition(reference: nat, i: nat, j: nat): bool {
    match reference
    case 0 => (i + j) % 2 == 0
    case 1 => i % 2 == 0
    case 2 => j % 3 == 0
    case 3 => (i + j) % 3 == 0
    case 4 => (i / 2 + j / 3) % 2 == 0
    case 5 => i * j % 2 + i * j % 3 == 0
    case 6 => (i * j % 2 + i * j % 3) % 2 == 0
    case _ => ((i + j) % 2 + i * j % 3) % 2 == 0
  }

  lemma MasksAgree(pattern: nat, i: nat, j: nat)
    requires pattern < 8
    ensures Mask8(pattern, i, j) == MaskCondition(pattern, i, j)
  {
  }

  lemma Alternates(x: nat)
    ensures (x + 1) % 2 == 0 <==> x % 2 != 0
  {
  }

  lemma EveryThird(x: nat)
    ensures (x + 3) % 3 == x % 3
  {
  }

  /** Pattern 0 is set at the origin and changes with every step right or down; pattern 1 with every row. */
  lemma ChequerPatterns(i: nat, j: nat)
    ensures Mask8(0, 0, 0) && Mask8(0, i + 1, j) == Mask8(0, i, j + 1) == !Mask8(0, i, j)
    ensures Mask8(1, 0, j) && Mask8(1, i + 1, j) == !Mask8(1, i, j)
  {
    Alternates(i + j);
    Alternates(i);
  }

  /** Pattern 2 is set in every third column from the first, pattern 3 on every third diagonal. */
  lemma ThirdPatterns(i: nat, j: nat)
    ensures Mask8(2, i, 0) && !Mask8(2, i, 1) && !Mask8(2, i, 2) && Mask8(2, i, j + 3) == Mask8(2, i, j)
    ensures Mask8(3, 0, 0) && !Mask8(3, 0, 1) && !Mask8(3, 0, 2)
    ensures Mask8(3, i + 1, j) == Mask8(3, i, j + 1) && Mask8(3, i, j + 3) == Mask8(3, i, j)
  {
    EveryThird(j);
    EveryThird(i + j);
  }

  /** Pattern 4 is a chequer of blocks, two high and three wide. */
  lemma BlockPattern(i: nat, j: nat)
    ensures i < 2 && j < 3 ==> Mask8(4, i, j)
    ensures Mask8(4, i + 2, j) == Mask8(4, i, j + 3) == !Mask8(4, i, j)
  {
    assert (i + 2) / 2 == i / 2 + 1 && (j + 3) / 3 == j / 3 + 1;
    Alternates(i / 2 + j / 3);
  }

  /** The patterns of products, told by the product modulo 6 and, for the last, the sum's parity. */
  lemma ProductPatterns(i: nat, j: nat)
    ensures Mask8(5, i, j) <==> i * j % 6 == 0
    ensures Mask8(6, i, j) <==> i * j % 6 < 3
    ensures Mask8(7, i, j) <==> ((i + j) % 2 == 1 <==> i * j % 3 == 1)
  {
    ProductOf(i * j);
  }

  lemma ProductOf(p: nat)
    ensures p % 2 == p % 6 % 2 && p % 3 == p % 6 % 3
  {
  }

  // ---- reading --------------------------------------------------------------------------------------

  /** Bit k of the codewords as numbers: the bits of a byte from the highest down. */
  predicate BitIn(data: seq<bv8>, k: nat) {
    k / 8 < |data| && ByteNumber(data[k / 8]) / Pow2(7 - k % 8) % 2 == 1
  }

  function ByteNumber(b: bv8): nat {
    b as int
  }

  lemma LowestBit(b: bv8)
    ensures b & 1 != 0 <==> ByteNumber(b) % 2 == 1
  {
  }

  lemma SecondBit(b: bv8)
    ensures b & 2 != 0 <==> ByteNumber(b) / 2 % 2 == 1
  {
  }

  lemma ThirdBit(b: bv8)
    ensures b & 4 != 0 <==> ByteNumber(b) / 4 % 2 == 1
  {
  }

  lemma FourthBit(b: bv8)
    ensures b & 8 != 0 <==> ByteNumber(b) / 8 % 2 == 1
  {
  }

  lemma FifthBit(b: bv8)
    ensures b & 16 != 0 <==> ByteNumber(b) / 16 % 2 == 1
  {
  }

  lemma SixthBit(b: bv8)
    ensures b & 32 != 0 <==> ByteNumber(b) / 32 % 2 == 1
  {
  }

  lemma SeventhBit(b: bv8)
    ensures b & 64 != 0 <==> ByteNumber(b) / 64 % 2 == 1
  {
  }

  lemma HighestBit(b: bv8)
    ensures b & 128 != 0 <==> ByteNumber(b) / 128 % 2 == 1
  {
  }

  lemma SmallPowers()
    ensures Pow2(0) == 1 && Pow2(1) == 2 && Pow2(2) == 4 && Pow2(3) == 8
    ensures Pow2(4) == 16 && Pow2(5) == 32 && Pow2(6) == 64 && Pow2(7) == 128
  {
  }

  lemma BitNumber(b: bv8, k: nat)
    requires k < 8
    ensures BitOf(b, k) <==> ByteNumber(b) / Pow2(7 - k) % 2 == 1
  {
    hide Pow2, ByteNumber;
    SmallPowers();
    LowestBit(b);
    SecondBit(b);
    ThirdBit(b);
    FourthBit(b);
    FifthBit(b);
    SixthBit(b);
    SeventhBit(b);
    HighestBit(b);
  }

  /**
   The modules from k on, as a reader that knows which are reserved takes them: in order, with the
   mask's condition taken off, dark for 1.
   */
  function ReadSymbol(reserved: Grid, g: Grid, pattern: nat, k: nat): seq<bool>
    requires Square(reserved, |g|) && Square(g, |g|) && |g| >= 7 && |g| % 2 == 1
    decreases |g| * (|g| - 1) - k
  {
    if k >= |g| * (|g| - 1) then []
    else
      var (i, j) := CellAt(|g|, k);
      PathAt(|g|, k);
      InsidePath(|g|);
      var rest := ReadSymbol(reserved, g, pattern, k + 1);
      if reserved[i][j].None? then [(g[i][j] == Some(true)) != MaskCondition(pattern, i, j)] + rest else rest
  }

  lemma {:induction false} ReadersAgree(g: Grid, g': Grid, pattern: nat, k: nat)
    requires Square(g, |g|) && Square(g', |g|) && |g'| == |g| && |g| >= 7 && |g| % 2 == 1 && pattern < 8
    requires AllInside(Path(|g|), |g|) && k <= |Path(|g|)|
    ensures ReadSymbol(g, g', pattern, k) == ReadFree(g, g', Path(|g|)[k..], pattern)
    decreases |Path(|g|)| - k
  {
    hide Mask8, MaskCondition, Path, CellAt;
    var n, path := |g|, Path(|g|);
    PathAt(n, k);
    if k < |path| {
      ReadersAgree(g, g', pattern, k + 1);
      assert path[k..][0] == path[k] && path[k..][1..] == path[k + 1..];
      MasksAgree(pattern, path[k].0, path[k].1);
    }
  }

  /**
   What mapData places is read back by that reader: the free modules are the bits of the codewords,
   the highest of each byte first, and light when these run out.
   */
  lemma SymbolReadsBack(g: Grid, data: seq<bv8>, pattern: nat)
    requires Reserved6(g) && |g| % 2 == 1 && pattern < 8 && AllInside(Path(|g|), |g|)
    ensures var g' := Fill(g, Path(|g|), data, pattern, 0);
            |g'| == |g| && var read := ReadSymbol(g, g', pattern, 0); forall k | 0 <= k < |read| :: read[k] == BitIn(data, k)
  {
    hide ReadSymbol, ReadFree, Path;
    var n := |g|;
    var g' := Fill(g, Path(n), data, pattern, 0);
    PathVisitsOnce(n);
    FillReadsBack(g, Path(n), data, pattern, 0);
    ReadersAgree(g, g', pattern, 0);
    assert Path(n)[0..] == Path(n);
    var read := ReadSymbol(g, g', pattern, 0);
    forall k | 0 <= k < |read| ensures read[k] == BitIn(data, k) {
      assert read[k] == DataBit(data, k);
      if k / 8 < |data| { BitNumber(data[k / 8], k % 8); }
    }
  }
}
