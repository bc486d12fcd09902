/** createData of qrcode.js: the segments, a terminator, padding to the capacity, and the codewords. */
module QrData {
  import opened Bytes
  import opened Int32
  import opened QrBits
  import opened QrSegments
  import opened QrMath
  import opened QrInterleave
  import opened QrBlocks

  const PAD0 := 0xEC
  const PAD1 := 0x11

  function Clear(n: nat): (s: seq<bool>)
    ensures |s| == n
  {
    seq(n, _ => false)
  }

  /** The terminator, where four bits are left for it. */
  function Terminated(bits: seq<bool>, capacity: nat): seq<bool> {
    if |bits| + 4 <= capacity then bits + Clear(4) else bits
  }

  function Aligned(bits: seq<bool>): (s: seq<bool>)
    ensures |s| % 8 == 0 && |bits| <= |s| < |bits| + 8
  {
    bits + Clear((8 - |bits| % 8) % 8)
  }

  /** The pad bytes, by turns, up to the capacity. */
  function Pads(n: nat, first: bool): (s: seq<bool>)
    ensures |s| == 8 * n
  {
    if n == 0 then [] else NumBits(if first then PAD0 else PAD1, 8) + Pads(n - 1, !first)
  }

  function Padded(bits: seq<bool>, capacity: nat): (s: seq<bool>)
    requires |bits| <= capacity && capacity % 8 == 0
    ensures |s| == capacity
  {
    var t := Aligned(Terminated(bits, capacity));
    AlignedFits(Terminated(bits, capacity), capacity);
    t + Pads((capacity - |t|) / 8, true)
  }

  lemma AlignedFits(bits: seq<bool>, capacity: nat)
    requires |bits| <= capacity && capacity % 8 == 0
    ensures |Aligned(bits)| <= capacity && (capacity - |Aligned(bits)|) % 8 == 0
  {
  }

  /** Padding leaves the bits in front, and what follows them ends the reading. */
  lemma PaddedEnds(bits: seq<bool>, capacity: nat)
    requires |bits| <= capacity && capacity % 8 == 0
    ensures Padded(bits, capacity) == bits + Padded(bits, capacity)[|bits|..]
    ensures Ends(Padded(bits, capacity)[|bits|..])
  {
    var p := Padded(bits, capacity);
    assert forall i | 0 <= i < |bits| :: p[i] == bits[i];
    if |bits| + 4 <= capacity {
      assert forall i | |bits| <= i < |bits| + 4 :: !p[i];
    }
  }

  // ---- padding in bytes --------------------------------------------------------------------------

  lemma PadBits()
    ensures NumBits(236, 8) == [true, true, true, false, true, true, false, false]
    ensures NumBits(17, 8) == [false, false, false, true, false, false, false, true]
  {
    assert Pow2(0) == 1 && Pow2(1) == 2 && Pow2(2) == 4 && Pow2(3) == 8;
    assert Pow2(4) == 16 && Pow2(5) == 32 && Pow2(6) == 64 && Pow2(7) == 128;
  }

  lemma ByteOfBits(b: bv8)
    ensures (BitOf(b, 0) && BitOf(b, 1) && BitOf(b, 2) && !BitOf(b, 3) && BitOf(b, 4) && BitOf(b, 5) && !BitOf(b, 6) && !BitOf(b, 7))
            ==> b == 0xEC
    ensures (!BitOf(b, 0) && !BitOf(b, 1) && !BitOf(b, 2) && BitOf(b, 3) && !BitOf(b, 4) && !BitOf(b, 5) && !BitOf(b, 6) && BitOf(b, 7))
            ==> b == 0x11
  {
  }

  lemma {:induction false} PadsAt(n: nat, first: bool, m: nat, i: nat)
    requires m < n && i < 8
    ensures Pads(n, first)[8 * m + i] == NumBits(if (m % 2 == 0) == first then 236 else 17, 8)[i]
  {
    hide NumBits;
    PadsNext(n, first);
    if m > 0 { PadsAt(n - 1, !first, m - 1, i); }
  }

  /**
   The buffer after the segments' bits: four zeros if they fit, zeros up to a whole byte, and then the
   bytes 236 and 17 by turns.
   */
  lemma PaddingInBytes(buffer: seq<bv8>, bits: seq<bool>)
    requires |bits| <= 8 * |buffer| && BitsOf(buffer, 8 * |buffer|) == Padded(bits, 8 * |buffer|)
    ensures var capacity := 8 * |buffer|;
            var first := ((if |bits| + 4 <= capacity then |bits| + 4 else |bits|) + 7) / 8;
            && (forall i | |bits| <= i < 8 * first && i < capacity :: !BitOf(buffer[i / 8], i % 8))
            && (forall m | first <= m < |buffer| :: buffer[m] == if (m - first) % 2 == 0 then 0xEC else 0x11)
  {
    hide NumBits, BitOf, Pads, BitsOf, Padded, Aligned, Terminated;
    var capacity := 8 * |buffer|;
    var t := Aligned(Terminated(bits, capacity));
    PaddedParts(bits, capacity);
    forall i | |bits| <= i < |t| && i < capacity ensures !BitOf(buffer[i / 8], i % 8) {
      BitAtIs(buffer, i);
    }
    forall m | |t| / 8 <= m < |buffer| ensures buffer[m] == if (m - |t| / 8) % 2 == 0 then 0xEC else 0x11 {
      PadByte(buffer, Padded(bits, capacity), t, (capacity - |t|) / 8, m);
    }
  }

  lemma PaddedParts(bits: seq<bool>, capacity: nat)
    requires |bits| <= capacity && capacity % 8 == 0
    ensures var t := Aligned(Terminated(bits, capacity));
            && |t| == 8 * (((if |bits| + 4 <= capacity then |bits| + 4 else |bits|) + 7) / 8)
            && |bits| <= |t| <= capacity
            && Padded(bits, capacity) == t + Pads((capacity - |t|) / 8, true)
            && forall i | |bits| <= i < |t| :: !t[i]
  {
    hide Pads;
    AlignedFits(Terminated(bits, capacity), capacity);
  }

  lemma BitAtIs(buffer: seq<bv8>, i: nat)
    requires i < 8 * |buffer|
    ensures BitsOf(buffer, 8 * |buffer|)[i] == BitOf(buffer[i / 8], i % 8)
  {
    hide BitOf;
  }

  lemma PadByte(buffer: seq<bv8>, all: seq<bool>, t: seq<bool>, n: nat, m: nat)
    requires BitsOf(buffer, 8 * |buffer|) == all == t + Pads(n, true) && |t| % 8 == 0 && |t| / 8 <= m < |buffer|
    ensures buffer[m] == if (m - |t| / 8) % 2 == 0 then 0xEC else 0x11
  {
    hide NumBits, BitOf, Pads, BitsOf;
    var k := m - |t| / 8;
    forall i | 0 <= i < 8 ensures BitOf(buffer[m], i) == NumBits(if k % 2 == 0 then 236 else 17, 8)[i] {
      BitAtIs(buffer, 8 * m + i);
      assert (8 * m + i) / 8 == m && (8 * m + i) % 8 == i;
      PadsAt(n, true, k, i);
      assert all[8 * m + i] == Pads(n, true)[8 * k + i];
    }
    PadBits();
    ByteOfBits(buffer[m]);
  }

  // ---- filling the buffer -------------------------------------------------------------------------

  /** Both padding loops, after the terminator. */
  method Pad(buffer: BitBuffer, totalDataCount: nat)
    requires buffer.Valid() && buffer.length <= 8 * totalDataCount
    modifies buffer
    ensures buffer.Valid() && buffer.Bits() == Padded(old(buffer.Bits()), 8 * totalDataCount)
  {
    hide NumBits, Aligned, Clear, Pads;
    ghost var capacity := 8 * totalDataCount;
    ghost var bits := buffer.Bits();
    if buffer.length + 4 <= totalDataCount * 8 {
      buffer.Put(0, 4);
      ZeroBits(4);
    }
    AlignedFits(Terminated(bits, capacity), capacity);
    Align(buffer, Terminated(bits, capacity));
    PadBytes(buffer, totalDataCount, Aligned(Terminated(bits, capacity)));
  }

  method Align(buffer: BitBuffer, ghost ended: seq<bool>)
    requires buffer.Valid() && buffer.Bits() == ended
    modifies buffer
    ensures buffer.Valid() && buffer.Bits() == Aligned(ended)
  {
    while buffer.length % 8 != 0
      invariant buffer.Valid() && |ended| <= buffer.length <= |Aligned(ended)|
      invariant buffer.Bits() == ended + Clear(buffer.length - |ended|)
      decreases |Aligned(ended)| - buffer.length
    {
      buffer.PutBit(false);
    }
  }

  lemma ZeroBits(n: nat)
    ensures NumBits(0, n) == Clear(n)
  {
    forall i | 0 <= i < n ensures !NumBits(0, n)[i] {
      DivRemUnique(0, Pow2(n - 1 - i), 0, 0);
    }
  }

  lemma PadsNext(n: nat, first: bool)
    requires n > 0
    ensures Pads(n, first) == NumBits(if first then PAD0 else PAD1, 8) + Pads(n - 1, !first)
  {
  }

  method PadBytes(buffer: BitBuffer, totalDataCount: nat, ghost even: seq<bool>)
    requires buffer.Valid() && buffer.Bits() == even && |even| % 8 == 0 && |even| <= 8 * totalDataCount
    modifies buffer
    ensures buffer.Valid() && buffer.Bits() == even + Pads((8 * totalDataCount - |even|) / 8, true)
  {
    hide NumBits, Pads;
    ghost var n: nat := (8 * totalDataCount - |even|) / 8;
    ghost var left: nat := n;
    NoPads();
    while true
      invariant buffer.Valid() && buffer.length + 8 * left == 8 * totalDataCount
      invariant even + Pads(n, true) == buffer.Bits() + Pads(left, true)
      decreases left
    {
      if buffer.length >= totalDataCount * 8 { break; }
      PadsNext(left, true);
      buffer.Put(PAD0, 8);
      left := left - 1;
      assert even + Pads(n, true) == buffer.Bits() + Pads(left, false);
      if buffer.length >= totalDataCount * 8 { break; }
      PadsNext(left, false);
      buffer.Put(PAD1, 8);
      left := left - 1;
    }
  }

  lemma NoPads()
    ensures Pads(0, true) == [] && Pads(0, false) == []
  {
  }

  datatype Outcome = Codewords(data: seq<bv8>) | Thrown(reason: Written) | Overflow | NoGenerator

  lemma LegalNext(segs: seq<Segment>, i: nat)
    requires i < |segs| && AllLegal(segs[..i]) && Legal(segs[i])
    ensures AllLegal(segs[..i + 1])
  {
    hide Legal;
  }

  /** All segments, as far as the first that throws: any of them does above version 40. */
  method WriteSegments(buffer: BitBuffer, segs: seq<Segment>, typeNumber: nat) returns (r: Written)
    requires buffer.Valid() && forall i | 0 <= i < |segs| :: Fits(Count(segs[i]))
    modifies buffer
    ensures buffer.Valid() && (r.BadVersion? <==> typeNumber > 40 && |segs| > 0)
    ensures !r.BadVersion? ==> (r.Done? <==> AllLegal(segs))
    ensures r.Done? && typeNumber <= 40 ==> buffer.Bits() == old(buffer.Bits()) + Stream(segs, typeNumber)
    ensures r.Done? && typeNumber > 40 ==> buffer.Bits() == old(buffer.Bits())
  {
    hide SegmentBits, Legal;
    for i := 0 to |segs|
      invariant buffer.Valid() && AllLegal(segs[..i]) && (typeNumber > 40 ==> i == 0 && buffer.Bits() == old(buffer.Bits()))
      invariant typeNumber <= 40 && AllLegal(segs[i..]) ==>
                  old(buffer.Bits()) + Stream(segs, typeNumber) == buffer.Bits() + Stream(segs[i..], typeNumber)
    {
      r := WriteSegment(buffer, segs[i], typeNumber);
      if !r.Done? {
        return;
      }
      LegalNext(segs, i);
      assert segs[i..][1..] == segs[i + 1..];
    }
    r := Done;
  }

  /** The buffer holds the padded stream exactly, and the codewords are its interleaved blocks with their check bytes. */
  ghost predicate Encodes(
    data: seq<bv8>, buffer: seq<bv8>, ec: seq<seq<bv8>>, version: Version, segs: seq<Segment>, blocks: seq<Block>)
    requires AllLegal(segs)
  {
    |Stream(segs, version)| <= 8 * |buffer| && |buffer| == DataTotal(blocks)
    && BitsOf(buffer, 8 * |buffer|) == Padded(Stream(segs, version), 8 * |buffer|)
    && AreCheckBytes(DataBlocks(buffer, blocks), ec, blocks)
    && data == Interleave(DataBlocks(buffer, blocks)) + Interleave(ec)
  }

  lemma EmptyStream(version: Version)
    ensures Stream([], version) == []
  {
  }

  /** A version to read the stream by; without segments, which alone throw above 40, any will do. */
  function VersionOf(typeNumber: nat): Version {
    if typeNumber <= 40 then typeNumber else 40
  }

  /**
   The codewords of a list of segments. It throws on an unknown version, an illegal character, an
   overflow, and where a generator does not exist; otherwise the codewords are those of the padded
   stream, which fills the data capacity exactly.
   */
  method CreateData(m: Tables, typeNumber: nat, segs: seq<Segment>, blocks: seq<Block>) returns (r: Outcome)
    requires m.Valid() && Sensible(blocks) && forall i | 0 <= i < |segs| :: Fits(Count(segs[i]))
    ensures r == Thrown(BadVersion) <==> typeNumber > 40 && |segs| > 0
    ensures r == Thrown(BadCharacter) <==> !AllLegal(segs) && typeNumber <= 40
    ensures r != Thrown(Done)
    ensures !r.Thrown? ==> (r.Overflow? <==> |Stream(segs, VersionOf(typeNumber))| > 8 * DataTotal(blocks))
    ensures (forall k | 0 <= k < |blocks| :: blocks[k].total - blocks[k].data <= 254) ==> !r.NoGenerator?
    ensures r.Codewords? ==> exists buffer, ec :: Encodes(r.data, buffer, ec, VersionOf(typeNumber), segs, blocks)
  {
    hide Stream, Padded, Interleave, DataBlocks, AreCheckBytes, BitsOf;
    var buffer := new BitBuffer();
    var written := WriteSegments(buffer, segs, typeNumber);
    if !written.Done? { return Thrown(written); }
    ghost var version := VersionOf(typeNumber);
    ghost var bits := Stream(segs, version);
    assert buffer.Bits() == bits by {
      assert [] + bits == bits;
      if typeNumber > 40 { EmptyStream(version); }
    }
    var totalDataCount := 0;
    for i := 0 to |blocks|
      invariant totalDataCount == DataTotal(blocks[..i])
    {
      assert blocks[..i + 1][..i] == blocks[..i];
      totalDataCount := totalDataCount + blocks[i].data;
    }
    assert blocks[..|blocks|] == blocks;
    if buffer.length > totalDataCount * 8 { return Overflow; }
    Pad(buffer, totalDataCount);
    var codewords := CreateBytes(m, buffer.buffer, blocks);
    if codewords.None? { return NoGenerator; }
    r := Codewords(codewords.value);
    ghost var b := buffer.buffer;
    assert |b| == totalDataCount && buffer.length == 8 * |b|;
    assert BitsOf(b, 8 * |b|) == buffer.Bits() == Padded(bits, 8 * |b|);
    ghost var ec :| AreCheckBytes(DataBlocks(b, blocks), ec, blocks)
                    && codewords.value == Interleave(DataBlocks(b, blocks)) + Interleave(ec);
    assert Encodes(codewords.value, b, ec, version, segs, blocks);
  }

  // ---- the round trip -----------------------------------------------------------------------------

  /**
   From the codewords back to the segments: de-interleaving gives the buffer for any block sizes,
   and the buffer's bits parse to exactly the segments that went in.
   */
  lemma CodewordsParseBack(
    version: Version, segs: seq<Segment>, blocks: seq<Block>, buffer: seq<bv8>, ec: seq<seq<bv8>>, data: seq<bv8>, max: nat)
    requires Sensible(blocks) && AllLegal(segs) && (forall i | 0 <= i < |segs| :: CountFits(segs[i], version)) && max >= |segs|
    requires Encodes(data, buffer, ec, version, segs, blocks)
    ensures |buffer| <= |data| && Readable(data[..|buffer|], DataLengths(blocks))
    ensures var read := Flatten(Deinterleave(data[..|buffer|], DataLengths(blocks)));
            read == buffer && ReadAll(BitsOf(read, 8 * |read|), version, max) == segs
  {
    hide Stream, Padded, Interleave, DataBlocks, AreCheckBytes, BitOf, Flatten, Deinterleave, Readable, ReadAll, Ends,
      DataLengths, CountFits, Legal, Sensible;
    CodewordsRoundTrip(buffer, blocks, ec, data);
    var bits := Stream(segs, version);
    PaddedEnds(bits, 8 * |buffer|);
    StreamRoundTrip(segs, version, Padded(bits, 8 * |buffer|)[|bits|..], max);
  }
}
