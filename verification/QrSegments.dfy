/** The data segments of qrcode.js: how numbers, alphanumeric text and bytes become bits, and back. */
module QrSegments {
  import opened Bytes
  import opened Int32
  import opened QrBits

  datatype Segment = Numeric(text: string) | AlphaNum(text: string) | Octets(octets: seq<byte>)

  function Mode(s: Segment): nat {
    match s
    case Numeric(_) => 1
    case AlphaNum(_) => 2
    case Octets(_) => 4
  }

  function Count(s: Segment): nat {
    if s.Octets? then |s.octets| else |s.text|
  }

  /** The symbol versions getLengthInBits knows; above 40 it throws. */
  type Version = v: nat | v <= 40

  /** getLengthInBits: the width of the count field. */
  function LengthBits(mode: nat, version: Version): (n: nat)
    ensures n <= 16
  {
    if 1 <= version < 10 then (if mode == 1 then 10 else if mode == 2 then 9 else 8)
    else if version < 27 then (if mode == 1 then 12 else if mode == 2 then 11 else 16)
    else (if mode == 1 then 14 else if mode == 2 then 13 else 16)
  }

  // ---- characters --------------------------------------------------------------------------------

  predicate IsDigit(c: char) {
    '0' <= c <= '9'
  }

  function DigitValue(c: char): (n: nat)
    requires IsDigit(c)
    ensures n < 10
  {
    c as int - '0' as int
  }

  function DigitChar(n: nat): char
    requires n < 10
  {
    '0' + n as char
  }

  lemma Digits()
    ensures [DigitChar(0), DigitChar(1), DigitChar(2), DigitChar(3), DigitChar(4),
             DigitChar(5), DigitChar(6), DigitChar(7), DigitChar(8), DigitChar(9)] == "0123456789"
  {
  }

  /** getCode; a character outside the table throws. */
  function Code(c: char): (r: Option<nat>)
    ensures r.Some? ==> r.value < 45
  {
    if '0' <= c <= '9' then Some(c as int - '0' as int)
    else if 'A' <= c <= 'Z' then Some(c as int - 'A' as int + 10)
    else if c == ' ' then Some(36) else if c == '$' then Some(37) else if c == '%' then Some(38)
    else if c == '*' then Some(39) else if c == '+' then Some(40) else if c == '-' then Some(41)
    else if c == '.' then Some(42) else if c == '/' then Some(43) else if c == ':' then Some(44)
    else None
  }

  /** The characters of the alphanumeric mode, in the order of their values (ISO/IEC 18004, table 5). */
  const ALPHABET := "0123456789" + "ABCDEFGHIJKLMNOPQRSTUVWXYZ" + " $%*+-./:"

  function CodeChar(n: nat): char
    requires n < 45
  {
    ALPHABET[n]
  }

  lemma DigitCodes(k: nat)
    requires k < 10
    ensures ALPHABET[k] == '0' + k as char
  {
    assert ALPHABET[k] == "0123456789"[k];
  }

  lemma LetterCodes(k: nat)
    requires k < 26
    ensures ALPHABET[10 + k] == 'A' + k as char
  {
    assert ALPHABET[10 + k] == "ABCDEFGHIJKLMNOPQRSTUVWXYZ"[k];
  }

  lemma CodeRoundTrip(c: char)
    requires Code(c).Some?
    ensures CodeChar(Code(c).value) == c
  {
    if '0' <= c <= '9' {
      DigitCodes(c as int - '0' as int);
    } else if 'A' <= c <= 'Z' {
      LetterCodes(c as int - 'A' as int);
    }
  }

  predicate Legal(s: Segment) {
    match s
    case Numeric(t) => forall i | 0 <= i < |t| :: IsDigit(t[i])
    case AlphaNum(t) => forall i | 0 <= i < |t| :: Code(t[i]).Some?
    case Octets(_) => true
  }

  lemma DigitIs(c: char)
    ensures IsDigit(c) <==> c in "0123456789"
  {
    var t := "0123456789";
    if IsDigit(c) { assert c == t[c as int - '0' as int]; }
  }

  lemma CodeIs(c: char)
    ensures Code(c).Some? <==> c in ALPHABET
  {
    if Code(c).Some? { CodeRoundTrip(c); }
    if n :| 0 <= n < 45 && ALPHABET[n] == c {
      if n < 10 { DigitCodes(n); } else if n < 36 { LetterCodes(n - 10); }
    }
  }

  /** What may be written: digits, the 45 characters of the alphanumeric mode, any bytes. */
  lemma LegalText(s: Segment)
    ensures Legal(s) <==>
              match s
              case Numeric(t) => forall c | c in t :: c in "0123456789"
              case AlphaNum(t) => forall c | c in t :: c in ALPHABET
              case Octets(_) => true
  {
    hide IsDigit, Code;
    match s
    case Numeric(t) => forall i | 0 <= i < |t| ensures IsDigit(t[i]) <==> t[i] in "0123456789" { DigitIs(t[i]); }
    case AlphaNum(t) => forall i | 0 <= i < |t| ensures Code(t[i]).Some? <==> t[i] in ALPHABET { CodeIs(t[i]); }
    case Octets(_) =>
  }

  // ---- payloads ----------------------------------------------------------------------------------

  function NumericBits(t: string): seq<bool>
    requires Legal(Numeric(t))
  {
    if |t| >= 3 then NumBits(100 * DigitValue(t[0]) + 10 * DigitValue(t[1]) + DigitValue(t[2]), 10) + NumericBits(t[3..])
    else if |t| == 2 then NumBits(10 * DigitValue(t[0]) + DigitValue(t[1]), 7)
    else if |t| == 1 then NumBits(DigitValue(t[0]), 4)
    else []
  }

  function AlphaBits(t: string): seq<bool>
    requires Legal(AlphaNum(t))
  {
    if |t| >= 2 then NumBits(45 * Code(t[0]).value + Code(t[1]).value, 11) + AlphaBits(t[2..])
    else if |t| == 1 then NumBits(Code(t[0]).value, 6)
    else []
  }

  function OctetBits(b: seq<byte>): seq<bool> {
    if |b| == 0 then [] else NumBits(b[0], 8) + OctetBits(b[1..])
  }

  function Payload(s: Segment): seq<bool>
    requires Legal(s)
  {
    match s
    case Numeric(t) => NumericBits(t)
    case AlphaNum(t) => AlphaBits(t)
    case Octets(b) => OctetBits(b)
  }

  function SegmentBits(s: Segment, version: Version): seq<bool>
    requires Legal(s)
  {
    NumBits(Mode(s), 4) + NumBits(Count(s), LengthBits(Mode(s), version)) + Payload(s)
  }

  predicate AllLegal(segs: seq<Segment>) {
    forall i | 0 <= i < |segs| :: Legal(segs[i])
  }

  function Stream(segs: seq<Segment>, version: Version): seq<bool>
    requires AllLegal(segs)
  {
    if |segs| == 0 then [] else SegmentBits(segs[0], version) + Stream(segs[1..], version)
  }

  // ---- the writers -------------------------------------------------------------------------------

  /** strToNum; none for a character that is not a digit. */
  method StrToNum(t: string) returns (num: Option<nat>)
    ensures num.Some? <==> Legal(Numeric(t))
    ensures num.Some? && |t| == 1 ==> num.value == DigitValue(t[0])
    ensures num.Some? && |t| == 2 ==> num.value == 10 * DigitValue(t[0]) + DigitValue(t[1])
    ensures num.Some? && |t| == 3 ==> num.value == 100 * DigitValue(t[0]) + 10 * DigitValue(t[1]) + DigitValue(t[2])
  {
    var n: nat := 0;
    for i := 0 to |t|
      invariant forall k | 0 <= k < i :: IsDigit(t[k])
      invariant i == 0 ==> n == 0
      invariant i == 1 ==> n == DigitValue(t[0])
      invariant i == 2 ==> n == 10 * DigitValue(t[0]) + DigitValue(t[1])
      invariant i == 3 ==> n == 100 * DigitValue(t[0]) + 10 * DigitValue(t[1]) + DigitValue(t[2])
    {
      if !IsDigit(t[i]) { return None; }
      n := n * 10 + DigitValue(t[i]);
    }
    num := Some(n);
  }

  lemma NumericNext(t: string, i: nat)
    requires i + 2 < |t|
    ensures Legal(Numeric(t[i..])) <==> Legal(Numeric(t[i..i + 3])) && Legal(Numeric(t[i + 3..]))
    ensures Legal(Numeric(t[i..])) ==>
      NumericBits(t[i..]) == NumBits(100 * DigitValue(t[i]) + 10 * DigitValue(t[i + 1]) + DigitValue(t[i + 2]), 10)
                             + NumericBits(t[i + 3..])
  {
    assert t[i..][3..] == t[i + 3..];
    assert t[i..] == t[i..i + 3] + t[i + 3..];
  }

  /** The one or two digits left over. */
  method WriteLastDigits(buffer: BitBuffer, t: string) returns (ok: bool)
    requires buffer.Valid() && |t| <= 2
    modifies buffer
    ensures buffer.Valid() && (ok <==> Legal(Numeric(t)))
    ensures ok ==> buffer.Bits() == old(buffer.Bits()) + NumericBits(t)
  {
    hide NumBits;
    if |t| > 0 {
      var num := StrToNum(t);
      if num.None? { return false; }
      if |t| == 1 {
        buffer.Put(num.value, 4);
      } else if |t| == 2 {
        buffer.Put(num.value, 7);
      }
    }
    ok := true;
  }

  method WriteNumeric(buffer: BitBuffer, t: string) returns (ok: bool)
    requires buffer.Valid()
    modifies buffer
    ensures buffer.Valid() && (ok <==> Legal(Numeric(t)))
    ensures ok ==> buffer.Bits() == old(buffer.Bits()) + NumericBits(t)
  {
    hide NumericBits, NumBits, Legal;
    var i := 0;
    assert t[0..] == t;
    while i + 2 < |t|
      invariant 0 <= i <= |t| && buffer.Valid()
      invariant Legal(Numeric(t)) <==> Legal(Numeric(t[i..]))
      invariant Legal(Numeric(t[i..])) ==> old(buffer.Bits()) + NumericBits(t) == buffer.Bits() + NumericBits(t[i..])
    {
      NumericNext(t, i);
      var num := StrToNum(t[i..i + 3]);
      if num.None? { return false; }
      buffer.Put(num.value, 10);
      i := i + 3;
    }
    ok := WriteLastDigits(buffer, t[i..]);
  }

  lemma AlphaNext(s: string, i: nat)
    requires i + 1 < |s|
    ensures Legal(AlphaNum(s[i..])) <==> Code(s[i]).Some? && Code(s[i + 1]).Some? && Legal(AlphaNum(s[i + 2..]))
    ensures Legal(AlphaNum(s[i..])) ==>
      AlphaBits(s[i..]) == NumBits(45 * Code(s[i]).value + Code(s[i + 1]).value, 11) + AlphaBits(s[i + 2..])
  {
    hide Code, NumBits;
    assert s[i..][2..] == s[i + 2..];
    assert s[i..] == [s[i], s[i + 1]] + s[i + 2..];
  }

  lemma AlphaLast(s: string, i: nat)
    requires i <= |s| <= i + 1
    ensures Legal(AlphaNum(s[i..])) <==> (i < |s| ==> Code(s[i]).Some?)
    ensures Legal(AlphaNum(s[i..])) ==> AlphaBits(s[i..]) == if i < |s| then NumBits(Code(s[i]).value, 6) else []
  {
    hide Code, NumBits;
  }

  method WriteAlphaNum(buffer: BitBuffer, s: string) returns (ok: bool)
    requires buffer.Valid()
    modifies buffer
    ensures buffer.Valid() && (ok <==> Legal(AlphaNum(s)))
    ensures ok ==> buffer.Bits() == old(buffer.Bits()) + AlphaBits(s)
  {
    hide Code, NumBits, AlphaBits, Legal;
    var i := 0;
    assert s[0..] == s;
    while i + 1 < |s|
      invariant 0 <= i <= |s| && buffer.Valid()
      invariant Legal(AlphaNum(s)) <==> Legal(AlphaNum(s[i..]))
      invariant Legal(AlphaNum(s[i..])) ==> old(buffer.Bits()) + AlphaBits(s) == buffer.Bits() + AlphaBits(s[i..])
    {
      AlphaNext(s, i);
      var high, low := Code(s[i]), Code(s[i + 1]);
      if high.None? || low.None? { return false; }
      buffer.Put(high.value * 45 + low.value, 11);
      i := i + 2;
    }
    AlphaLast(s, i);
    if i < |s| {
      var last := Code(s[i]);
      if last.None? { return false; }
      buffer.Put(last.value, 6);
    }
    ok := true;
  }

  method WriteOctets(buffer: BitBuffer, b: seq<byte>)
    requires buffer.Valid()
    modifies buffer
    ensures buffer.Valid() && buffer.Bits() == old(buffer.Bits()) + OctetBits(b)
  {
    for i := 0 to |b|
      invariant buffer.Valid() && old(buffer.Bits()) + OctetBits(b) == buffer.Bits() + OctetBits(b[i..])
    {
      assert b[i..][1..] == b[i + 1..];
      buffer.Put(b[i], 8);
    }
  }

  /** How the writing of segments ended; the last two are exceptions. */
  datatype Written = Done | BadCharacter | BadVersion

  method WritePayload(buffer: BitBuffer, s: Segment) returns (ok: bool)
    requires buffer.Valid()
    modifies buffer
    ensures buffer.Valid() && (ok <==> Legal(s))
    ensures ok ==> buffer.Bits() == old(buffer.Bits()) + Payload(s)
  {
    hide NumericBits, AlphaBits, OctetBits;
    match s {
      case Numeric(t) => ok := WriteNumeric(buffer, t);
      case AlphaNum(t) => ok := WriteAlphaNum(buffer, t);
      case Octets(b) =>
        WriteOctets(buffer, b);
        ok := true;
    }
  }

  /** Mode, count and payload of one segment. */
  method WriteSegment(buffer: BitBuffer, s: Segment, typeNumber: nat) returns (r: Written)
    requires buffer.Valid() && Fits(Count(s))
    modifies buffer
    ensures buffer.Valid() && (r.BadVersion? <==> typeNumber > 40)
    ensures typeNumber <= 40 ==> (r.Done? <==> Legal(s))
    ensures r.Done? ==> buffer.Bits() == old(buffer.Bits()) + SegmentBits(s, typeNumber)
  {
    hide Payload, NumBits, LengthBits, Legal;
    buffer.Put(Mode(s), 4);
    if typeNumber > 40 { return BadVersion; }
    buffer.Put(Count(s), LengthBits(Mode(s), typeNumber));
    var ok := WritePayload(buffer, s);
    r := if ok then Done else BadCharacter;
  }

  // ---- reading segments back ------------------------------------------------------------------------

  /** The next n bits as a number, and what follows. */
  function Take(bits: seq<bool>, n: nat): Option<(nat, seq<bool>)> {
    if |bits| < n then None else Some((FromBits(bits[..n]), bits[n..]))
  }

  lemma TakePut(num: nat, n: nat, rest: seq<bool>)
    requires num < Pow2(n)
    ensures Take(NumBits(num, n) + rest, n) == Some((num, rest))
  {
    NumBitsRoundTrip(num, n);
    var s := NumBits(num, n) + rest;
    assert s[..n] == NumBits(num, n) && s[n..] == rest;
  }

  function ReadNumeric(bits: seq<bool>, n: nat): Option<(string, seq<bool>)> {
    if n >= 3 then
      match Take(bits, 10)
      case None => None
      case Some((v, rest)) =>
        if v >= 1000 then None else
        match ReadNumeric(rest, n - 3)
        case None => None
        case Some((t, rest')) => Some(([DigitChar(v / 100), DigitChar(v / 10 % 10), DigitChar(v % 10)] + t, rest'))
    else if n == 2 then
      match Take(bits, 7)
      case None => None
      case Some((v, rest)) => if v >= 100 then None else Some(([DigitChar(v / 10), DigitChar(v % 10)], rest))
    else if n == 1 then
      match Take(bits, 4)
      case None => None
      case Some((v, rest)) => if v >= 10 then None else Some(([DigitChar(v)], rest))
    else Some(("", bits))
  }

  function ReadAlpha(bits: seq<bool>, n: nat): Option<(string, seq<bool>)> {
    if n >= 2 then
      match Take(bits, 11)
      case None => None
      case Some((v, rest)) =>
        if v >= 2025 then None else
        match ReadAlpha(rest, n - 2)
        case None => None
        case Some((t, rest')) => Some(([CodeChar(v / 45), CodeChar(v % 45)] + t, rest'))
    else if n == 1 then
      match Take(bits, 6)
      case None => None
      case Some((v, rest)) => if v >= 45 then None else Some(([CodeChar(v)], rest))
    else Some(("", bits))
  }

  function ReadOctets(bits: seq<bool>, n: nat): Option<(seq<byte>, seq<bool>)> {
    if n == 0 then Some(([], bits))
    else
      match Take(bits, 8)
      case None => None
      case Some((v, rest)) =>
        if v >= 256 then None else
        match ReadOctets(rest, n - 1)
        case None => None
        case Some((b, rest')) => Some(([v] + b, rest'))
  }

  function ReadPayload(mode: nat, bits: seq<bool>, n: nat): Option<(Segment, seq<bool>)> {
    if mode == 1 then
      match ReadNumeric(bits, n)
      case None => None
      case Some((t, rest)) => Some((Numeric(t), rest))
    else if mode == 2 then
      match ReadAlpha(bits, n)
      case None => None
      case Some((t, rest)) => Some((AlphaNum(t), rest))
    else if mode == 4 then
      match ReadOctets(bits, n)
      case None => None
      case Some((b, rest)) => Some((Octets(b), rest))
    else None
  }

  /** The reader's width of the count field, by mode and range of versions (ISO/IEC 18004, table 3). */
  function CountWidth(mode: nat, version: Version): nat {
    if 1 <= version <= 9 then (match mode case 1 => 10 case 2 => 9 case _ => 8)
    else if version <= 26 then (match mode case 1 => 12 case 2 => 11 case _ => 16)
    else (match mode case 1 => 14 case 2 => 13 case _ => 16)
  }

  lemma WidthsAgree(s: Segment, version: Version)
    ensures LengthBits(Mode(s), version) == CountWidth(Mode(s), version)
  {
  }

  /** One segment off the front; none at a terminator, at the end, or where the bits make no sense. */
  function ReadSegment(bits: seq<bool>, version: Version): Option<(Segment, seq<bool>)> {
    match Take(bits, 4)
    case None => None
    case Some((mode, rest)) =>
      if mode == 0 then None else
      match Take(rest, CountWidth(mode, version))
      case None => None
      case Some((n, rest')) => ReadPayload(mode, rest', n)
  }

  /** All segments up to the terminator, or to the end when not even a terminator fits; at most `max`. */
  function ReadAll(bits: seq<bool>, version: Version, max: nat): seq<Segment>
    decreases max
  {
    if max == 0 then []
    else
      match ReadSegment(bits, version)
      case None => []
      case Some((s, rest)) => [s] + ReadAll(rest, version, max - 1)
  }

  lemma FieldSizes()
    ensures Pow2(4) == 16 && Pow2(6) == 64 && Pow2(7) == 128 && Pow2(8) == 256 && Pow2(10) == 1024 && Pow2(11) == 2048
  {
    PowersOfTwo();
    assert Pow2(10) == 4 * Pow2(8) && Pow2(11) == 8 * Pow2(8);
    assert Pow2(4) == 16 && Pow2(6) == 64;
  }

  lemma TwoDigits(x: nat, y: nat, base: nat)
    requires y < base
    ensures (base * x + y) / base == x && (base * x + y) % base == y
  {
    DivRemUnique(base * x + y, base, x, y);
  }

  lemma ThreeDigits(x: nat, y: nat, z: nat)
    requires y < 10 && z < 10
    ensures var v := 100 * x + 10 * y + z; v / 100 == x && v / 10 % 10 == y && v % 10 == z
  {
  }

  lemma {:induction false} NumericRoundTrip(t: string, rest: seq<bool>)
    requires Legal(Numeric(t))
    ensures ReadNumeric(NumericBits(t) + rest, |t|) == Some((t, rest))
  {
    hide NumBits, Take, Pow2;
    FieldSizes();
    if |t| >= 3 {
      var v := 100 * DigitValue(t[0]) + 10 * DigitValue(t[1]) + DigitValue(t[2]);
      ThreeDigits(DigitValue(t[0]), DigitValue(t[1]), DigitValue(t[2]));
      assert NumericBits(t) + rest == NumBits(v, 10) + (NumericBits(t[3..]) + rest);
      TakePut(v, 10, NumericBits(t[3..]) + rest);
      NumericRoundTrip(t[3..], rest);
      assert t == [t[0], t[1], t[2]] + t[3..];
    } else if |t| == 2 {
      var v := 10 * DigitValue(t[0]) + DigitValue(t[1]);
      TwoDigits(DigitValue(t[0]), DigitValue(t[1]), 10);
      TakePut(v, 7, rest);
      assert t == [t[0], t[1]];
    } else if |t| == 1 {
      TakePut(DigitValue(t[0]), 4, rest);
      assert t == [t[0]];
    } else {
      assert NumericBits(t) + rest == rest;
    }
  }

  lemma {:induction false} AlphaRoundTrip(t: string, rest: seq<bool>)
    requires Legal(AlphaNum(t))
    ensures ReadAlpha(AlphaBits(t) + rest, |t|) == Some((t, rest))
  {
    hide NumBits, Take, Pow2, Code, CodeChar;
    FieldSizes();
    if |t| >= 2 {
      var v := 45 * Code(t[0]).value + Code(t[1]).value;
      TwoDigits(Code(t[0]).value, Code(t[1]).value, 45);
      CodeRoundTrip(t[0]);
      CodeRoundTrip(t[1]);
      assert AlphaBits(t) + rest == NumBits(v, 11) + (AlphaBits(t[2..]) + rest);
      TakePut(v, 11, AlphaBits(t[2..]) + rest);
      AlphaRoundTrip(t[2..], rest);
      assert t == [t[0], t[1]] + t[2..];
    } else if |t| == 1 {
      CodeRoundTrip(t[0]);
      TakePut(Code(t[0]).value, 6, rest);
      assert t == [t[0]];
    } else {
      assert AlphaBits(t) + rest == rest;
    }
  }

  lemma {:induction false} OctetsRoundTrip(b: seq<byte>, rest: seq<bool>)
    ensures ReadOctets(OctetBits(b) + rest, |b|) == Some((b, rest))
  {
    hide NumBits, Take, Pow2;
    FieldSizes();
    if |b| > 0 {
      assert OctetBits(b) + rest == NumBits(b[0], 8) + (OctetBits(b[1..]) + rest);
      TakePut(b[0], 8, OctetBits(b[1..]) + rest);
      OctetsRoundTrip(b[1..], rest);
      assert b == [b[0]] + b[1..];
    } else {
      assert OctetBits(b) + rest == rest;
    }
  }

  /** The segment's length fits its count field. */
  predicate CountFits(s: Segment, version: Version) {
    Count(s) < Pow2(CountWidth(Mode(s), version))
  }

  lemma SegmentRoundTrip(s: Segment, version: Version, rest: seq<bool>)
    requires Legal(s) && CountFits(s, version)
    ensures ReadSegment(SegmentBits(s, version) + rest, version) == Some((s, rest))
  {
    hide NumBits, Take, Pow2, NumericBits, AlphaBits, OctetBits, ReadNumeric, ReadAlpha, ReadOctets;
    FieldSizes();
    var width := CountWidth(Mode(s), version);
    WidthsAgree(s, version);
    assert SegmentBits(s, version) + rest == NumBits(Mode(s), 4) + (NumBits(Count(s), width) + (Payload(s) + rest));
    TakePut(Mode(s), 4, NumBits(Count(s), width) + (Payload(s) + rest));
    TakePut(Count(s), width, Payload(s) + rest);
    match s
    case Numeric(t) => NumericRoundTrip(t, rest);
    case AlphaNum(t) => AlphaRoundTrip(t, rest);
    case Octets(b) => OctetsRoundTrip(b, rest);
  }

  /** What may follow the segments: a terminator, or too few bits for one. */
  predicate Ends(tail: seq<bool>) {
    |tail| < 4 || !(tail[0] || tail[1] || tail[2] || tail[3])
  }

  lemma EndsReading(tail: seq<bool>, version: Version)
    requires Ends(tail)
    ensures ReadSegment(tail, version).None?
  {
    if |tail| >= 4 {
      var s := tail[..4];
      assert FromBits(s) == 2 * FromBits(s[..3]) && FromBits(s[..3]) == 2 * FromBits(s[..3][..2]);
      assert s[..3][..2] == [false, false] && FromBits([false, false]) == 2 * FromBits([false, false][..1]);
      assert [false, false][..1] == [false] && FromBits([false]) == 2 * FromBits([false][..0]);
    }
  }

  /** The segments are read back from any stream that begins with them and then ends. */
  lemma {:induction false} StreamRoundTrip(segs: seq<Segment>, version: Version, tail: seq<bool>, max: nat)
    requires AllLegal(segs) && Ends(tail) && max >= |segs|
    requires forall i | 0 <= i < |segs| :: CountFits(segs[i], version)
    ensures ReadAll(Stream(segs, version) + tail, version, max) == segs
  {
    hide SegmentBits, ReadSegment, CountFits, Legal, Ends;
    if |segs| == 0 {
      assert Stream(segs, version) + tail == tail;
      EndsReading(tail, version);
    } else {
      assert Stream(segs, version) + tail == SegmentBits(segs[0], version) + (Stream(segs[1..], version) + tail);
      SegmentRoundTrip(segs[0], version, Stream(segs[1..], version) + tail);
      StreamRoundTrip(segs[1..], version, tail, max - 1);
    }
  }
}
