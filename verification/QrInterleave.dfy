/** The interleaving of blocks in qrcode.js: column by column, shorter blocks skipped once exhausted. */
module QrInterleave {

  function Min(x: nat, y: nat): nat {
    if x < y then x else y
  }

  /** How many entries the first n columns hold. */
  function Cells(lens: seq<nat>, n: nat): nat {
    if |lens| == 0 then 0 else Cells(lens[..|lens| - 1], n) + Min(lens[|lens| - 1], n)
  }

  function Lengths<T>(b: seq<seq<T>>): (l: seq<nat>)
    ensures |l| == |b|
  {
    seq(|b|, k requires 0 <= k < |b| => |b[k]|)
  }

  /** Column i of the blocks. */
  function Column<T>(b: seq<seq<T>>, i: nat): seq<T> {
    if |b| == 0 then []
    else Column(b[..|b| - 1], i) + (if i < |b[|b| - 1]| then [b[|b| - 1][i]] else [])
  }

  function Columns<T>(b: seq<seq<T>>, n: nat): seq<T> {
    if n == 0 then [] else Columns(b, n - 1) + Column(b, n - 1)
  }

  function Longest(lens: seq<nat>): (n: nat)
    ensures forall k | 0 <= k < |lens| :: lens[k] <= n
  {
    if |lens| == 0 then 0
    else
      var m := Longest(lens[..|lens| - 1]);
      var l := lens[|lens| - 1];
      if l > m then l else m
  }

  function Interleave<T>(b: seq<seq<T>>): seq<T> {
    Columns(b, Longest(Lengths(b)))
  }

  function Total(lens: seq<nat>): nat {
    if |lens| == 0 then 0 else Total(lens[..|lens| - 1]) + lens[|lens| - 1]
  }

  // ---- sizes ------------------------------------------------------------------------------------

  lemma LengthsPrefix<T>(b: seq<seq<T>>)
    requires |b| > 0
    ensures Lengths(b)[..|b| - 1] == Lengths(b[..|b| - 1])
  {
  }

  lemma {:induction false} ColumnSize<T>(b: seq<seq<T>>, i: nat)
    ensures Cells(Lengths(b), i + 1) == Cells(Lengths(b), i) + |Column(b, i)|
  {
    if |b| > 0 {
      ColumnSize(b[..|b| - 1], i);
      LengthsPrefix(b);
    }
  }

  lemma {:induction false} ColumnsSize<T>(b: seq<seq<T>>, n: nat)
    ensures |Columns(b, n)| == Cells(Lengths(b), n)
  {
    if n == 0 {
      NoCells(Lengths(b));
    } else {
      ColumnsSize(b, n - 1);
      ColumnSize(b, n - 1);
    }
  }

  lemma {:induction false} NoCells(lens: seq<nat>)
    ensures Cells(lens, 0) == 0
  {
    if |lens| > 0 { NoCells(lens[..|lens| - 1]); }
  }

  lemma {:induction false} CellsAre(lens: seq<nat>, n: nat)
    ensures Cells(lens, n) <= Total(lens)
    ensures (forall k | 0 <= k < |lens| :: lens[k] <= n) ==> Cells(lens, n) == Total(lens)
  {
    if |lens| > 0 { CellsAre(lens[..|lens| - 1], n); }
  }

  lemma InterleaveSize<T>(b: seq<seq<T>>)
    ensures |Interleave(b)| == Total(Lengths(b))
  {
    var lens := Lengths(b);
    ColumnsSize(b, Longest(lens));
    CellsAre(lens, Longest(lens));
  }

  // ---- where an entry goes ---------------------------------------------------------------------------

  /** The place of entry i of block r: after the earlier columns and the earlier blocks of its own. */
  function Place(lens: seq<nat>, r: nat, i: nat): nat
    requires r <= |lens|
  {
    CellsGrow(lens[..r], i);
    Cells(lens, i) + (Cells(lens[..r], i + 1) - Cells(lens[..r], i))
  }

  lemma {:induction false} CellsGrow(lens: seq<nat>, n: nat)
    ensures Cells(lens, n) <= Cells(lens, n + 1)
  {
    if |lens| > 0 { CellsGrow(lens[..|lens| - 1], n); }
  }

  lemma {:induction false} InColumn<T>(b: seq<seq<T>>, r: nat, i: nat)
    requires r < |b| && i < |b[r]|
    ensures |Column(b[..r], i)| < |Column(b, i)| && Column(b, i)[|Column(b[..r], i)|] == b[r][i]
  {
    if r == |b| - 1 {
    } else {
      InColumn(b[..|b| - 1], r, i);
      assert b[..|b| - 1][..r] == b[..r];
    }
  }

  lemma {:induction false} InColumns<T>(b: seq<seq<T>>, n: nat, r: nat, i: nat)
    requires r < |b| && i < |b[r]| && i < n
    ensures Place(Lengths(b), r, i) < |Columns(b, n)|
    ensures Columns(b, n)[Place(Lengths(b), r, i)] == b[r][i]
  {
    hide Cells, Column;
    var lens := Lengths(b);
    if i == n - 1 {
      ColumnsSize(b, n - 1);
      assert lens[..r] == Lengths(b[..r]);
      ColumnSize(b[..r], i);
      InColumn(b, r, i);
    } else {
      InColumns(b, n - 1, r, i);
    }
  }

  predicate Readable<T>(s: seq<T>, lens: seq<nat>) {
    forall r, i | 0 <= r < |lens| && 0 <= i < lens[r] :: 0 <= Place(lens, r, i) < |s|
  }

  /** Reads the blocks back from the places. */
  function Deinterleave<T>(s: seq<T>, lens: seq<nat>): (b: seq<seq<T>>)
    requires Readable(s, lens)
  {
    seq(|lens|, r requires 0 <= r < |lens| => seq(lens[r], i requires 0 <= i < lens[r] => s[Place(lens, r, i)]))
  }

  /** Interleaving loses nothing, whatever the block sizes. */
  lemma InterleaveRoundTrip<T>(b: seq<seq<T>>)
    ensures Readable(Interleave(b), Lengths(b))
    ensures Deinterleave(Interleave(b), Lengths(b)) == b
  {
    var lens, s := Lengths(b), Interleave(b);
    forall r, i | 0 <= r < |b| && 0 <= i < |b[r]|
      ensures 0 <= Place(lens, r, i) < |s| && s[Place(lens, r, i)] == b[r][i]
    {
      assert lens[r] == |b[r]|;
      InColumns(b, Longest(lens), r, i);
    }
    var d := Deinterleave(s, lens);
    forall r | 0 <= r < |b| ensures d[r] == b[r] {
    }
  }

  // ---- blocks of one length --------------------------------------------------------------------------

  lemma {:induction false} EqualCells(lens: seq<nat>, m: nat, n: nat)
    requires forall k | 0 <= k < |lens| :: lens[k] == m
    ensures Cells(lens, n) == |lens| * (if m < n then m else n)
  {
    if |lens| > 0 { EqualCells(lens[..|lens| - 1], m, n); }
  }

  lemma EqualPlace(lens: seq<nat>, m: nat, r: nat, i: nat)
    requires (forall k | 0 <= k < |lens| :: lens[k] == m) && r < |lens| && i < m
    ensures Place(lens, r, i) == i * |lens| + r
  {
    hide Cells;
    EqualCells(lens, m, i);
    EqualCells(lens[..r], m, i);
    EqualCells(lens[..r], m, i + 1);
    OneMore(r, i, |lens|);
  }

  lemma OneMore(r: nat, i: nat, n: nat)
    ensures r * (i + 1) - r * i == r && n * i == i * n
  {
  }

  /** Among blocks of one length, entry i of block r stands at place i times their number plus r. */
  lemma EqualBlocks<T>(b: seq<seq<T>>, m: nat, r: nat, i: nat)
    requires (forall k | 0 <= k < |b| :: |b[k]| == m) && r < |b| && i < m
    ensures 0 <= i * |b| + r < |Interleave(b)| && Interleave(b)[i * |b| + r] == b[r][i]
  {
    hide Place, Columns;
    EqualPlace(Lengths(b), m, r, i);
    LongestHolds(Lengths(b), r);
    InColumns(b, Longest(Lengths(b)), r, i);
  }

  lemma LongestHolds(lens: seq<nat>, r: nat)
    requires r < |lens|
    ensures lens[r] <= Longest(lens)
  {
  }
}
