/**
  The dashboard's UTF-8 encoder. Strings are sequences of 16-bit code units, as in JavaScript, and
  bytes and code points are bit vectors.
 */
module Utf8 {

  type Unit = bv16
  type Byte = bv8
  type CodePoint = bv32

  predicate IsSurrogate(c: Unit) {
    0xD800 <= c <= 0xDFFF
  }

  predicate NoSurrogates(units: seq<Unit>) {
    forall i :: 0 <= i < |units| ==> !IsSurrogate(units[i])
  }

  // ---------- Section 3 of RFC 3629 ----------

  predicate IsTail(b: Byte) {
    b & 0xC0 == 0x80
  }

  function Payload(b: Byte): CodePoint {
    (b & 0x3F) as CodePoint
  }

  // The rows of the table: marker bits, payload bits, and the range that makes the form the shortest.

  predicate OneByte(b0: Byte, cp: CodePoint) {
    b0 as CodePoint == cp && cp < 0x80
  }

  predicate TwoBytes(b0: Byte, b1: Byte, cp: CodePoint) {
    && b0 & 0xE0 == 0xC0 && IsTail(b1)
    && cp == ((b0 & 0x1F) as CodePoint << 6) | Payload(b1)
    && 0x80 <= cp < 0x800
  }

  predicate ThreeBytes(b0: Byte, b1: Byte, b2: Byte, cp: CodePoint) {
    && b0 & 0xF0 == 0xE0 && IsTail(b1) && IsTail(b2)
    && cp == ((b0 & 0x0F) as CodePoint << 12) | (Payload(b1) << 6) | Payload(b2)
    && 0x800 <= cp < 0x1_0000
  }

  predicate FourBytes(b0: Byte, b1: Byte, b2: Byte, b3: Byte, cp: CodePoint) {
    && b0 & 0xF8 == 0xF0 && IsTail(b1) && IsTail(b2) && IsTail(b3)
    && cp == ((b0 & 0x07) as CodePoint << 18) | (Payload(b1) << 12) | (Payload(b2) << 6) | Payload(b3)
    && 0x1_0000 <= cp < 0x11_0000
  }

  predicate Encodes(bytes: seq<Byte>, cp: CodePoint) {
    || (|bytes| == 1 && OneByte(bytes[0], cp))
    || (|bytes| == 2 && TwoBytes(bytes[0], bytes[1], cp))
    || (|bytes| == 3 && ThreeBytes(bytes[0], bytes[1], bytes[2], cp))
    || (|bytes| == 4 && FourBytes(bytes[0], bytes[1], bytes[2], bytes[3], cp))
  }

  /** The table determines the bytes: there is one encoding of each code point. */
  lemma EncodingIsUnique(a: seq<Byte>, b: seq<Byte>, cp: CodePoint)
    requires Encodes(a, cp) && Encodes(b, cp)
    ensures a == b
  {
    RowsAreDisjoint(a, cp);
    RowsAreDisjoint(b, cp);
    if |a| == 2 {
      TwoBytesAreUnique(a[0], a[1], b[0], b[1], cp);
    } else if |a| == 3 {
      ThreeBytesAreUnique(a[0], a[1], a[2], b[0], b[1], b[2], cp);
    } else if |a| == 4 {
      FourBytesAreUnique(a[0], a[1], a[2], a[3], b[0], b[1], b[2], b[3], cp);
    }
    hide TwoBytes, ThreeBytes, FourBytes;
  }

  lemma RowsAreDisjoint(a: seq<Byte>, cp: CodePoint)
    requires Encodes(a, cp)
    ensures |a| == if cp < 0x80 then 1 else if cp < 0x800 then 2 else if cp < 0x1_0000 then 3 else 4
  {
    hide IsTail, Payload;
  }

  lemma TwoBytesAreUnique(a0: Byte, a1: Byte, b0: Byte, b1: Byte, cp: CodePoint)
    requires TwoBytes(a0, a1, cp) && TwoBytes(b0, b1, cp)
    ensures a0 == b0 && a1 == b1
  {
  }

  lemma ThreeBytesAreUnique(a0: Byte, a1: Byte, a2: Byte, b0: Byte, b1: Byte, b2: Byte, cp: CodePoint)
    requires ThreeBytes(a0, a1, a2, cp) && ThreeBytes(b0, b1, b2, cp)
    ensures a0 == b0 && a1 == b1 && a2 == b2
  {
  }

  lemma FourBytesAreUnique(a0: Byte, a1: Byte, a2: Byte, a3: Byte, b0: Byte, b1: Byte, b2: Byte, b3: Byte, cp: CodePoint)
    requires FourBytes(a0, a1, a2, a3, cp) && FourBytes(b0, b1, b2, b3, cp)
    ensures a0 == b0 && a1 == b1 && a2 == b2 && a3 == b3
  {
  }

  function Tail(cp: CodePoint): (b: Byte)
    ensures IsTail(b) && Payload(b) == cp & 0x3F
  {
    (0x80 | (cp & 0x3F)) as Byte
  }

  function Lead2(cp: CodePoint): (b: Byte)
    requires cp < 0x800
    ensures cp >= 0x80 ==> TwoBytes(b, Tail(cp), cp)
  {
    (0xC0 | (cp >> 6)) as Byte
  }

  function Lead3(cp: CodePoint): (b: Byte)
    requires cp < 0x1_0000
    ensures cp >= 0x800 ==> ThreeBytes(b, Tail(cp >> 6), Tail(cp), cp)
  {
    (0xE0 | (cp >> 12)) as Byte
  }

  function Lead4(cp: CodePoint): (b: Byte)
    requires cp < 0x11_0000
    ensures cp >= 0x1_0000 ==> FourBytes(b, Tail(cp >> 12), Tail(cp >> 6), Tail(cp), cp)
  {
    (0xF0 | (cp >> 18)) as Byte
  }

  function Rfc3629(cp: CodePoint): (bytes: seq<Byte>)
    requires cp < 0x11_0000
    ensures Encodes(bytes, cp)
  {
    hide Tail, Lead2, Lead3, Lead4, TwoBytes, ThreeBytes, FourBytes;
    if cp < 0x80 then [cp as Byte]
    else if cp < 0x800 then [Lead2(cp), Tail(cp)]
    else if cp < 0x1_0000 then [Lead3(cp), Tail(cp >> 6), Tail(cp)]
    else [Lead4(cp), Tail(cp >> 12), Tail(cp >> 6), Tail(cp)]
  }

  /** Examples from section 7 of RFC 3629, one for each row of the table. */
  lemma SectionSevenExamples()
    ensures Rfc3629(0x41) == [0x41] && Rfc3629(0x391) == [0xCE, 0x91]
    ensures Rfc3629(0x2262) == [0xE2, 0x89, 0xA2] && Rfc3629(0xFEFF) == [0xEF, 0xBB, 0xBF]
    ensures Rfc3629(0x2_33B4) == [0xF0, 0xA3, 0x8E, 0xB4]
  {
  }

  // ---------- utf8Bytes ----------

  function AsCodePoint(c: Unit): (cp: CodePoint)
    ensures cp < 0x1_0000
  {
    c as CodePoint
  }

  /** Each code unit encoded as though it were a code point of its own. */
  function Utf8Bytes(units: seq<Unit>): seq<Byte> {
    if units == [] then [] else Rfc3629(AsCodePoint(units[0])) + Utf8Bytes(units[1..])
  }

  lemma BytesOfPass(c: Unit)
    ensures Tail(AsCodePoint(c)) == (0x80 | (c & 0x3F)) as Byte
    ensures Tail(AsCodePoint(c) >> 6) == (0x80 | ((c >> 6) & 0x3F)) as Byte
    ensures c < 0x800 ==> Lead2(AsCodePoint(c)) == (0xC0 | (c >> 6)) as Byte
    ensures Lead3(AsCodePoint(c)) == (0xE0 | (c >> 12)) as Byte
    ensures c < 0x80 ==> AsCodePoint(c) as Byte == c as Byte
    ensures c < 0x80 <==> AsCodePoint(c) < 0x80
    ensures c < 0x800 <==> AsCodePoint(c) < 0x800
  {
    hide TwoBytes, ThreeBytes, FourBytes, OneByte, Lead4;
  }

  /** The bytes of one pass of the loop. */
  lemma PassIsRfc(c: Unit)
    ensures c < 0x80 ==> Rfc3629(AsCodePoint(c)) == [c as Byte]
    ensures 0x80 <= c < 0x800 ==> Rfc3629(AsCodePoint(c)) == [(0xC0 | (c >> 6)) as Byte, (0x80 | (c & 0x3F)) as Byte]
    ensures 0x800 <= c ==>
              Rfc3629(AsCodePoint(c))
              == [(0xE0 | (c >> 12)) as Byte, (0x80 | ((c >> 6) & 0x3F)) as Byte, (0x80 | (c & 0x3F)) as Byte]
  {
    hide Tail, Lead2, Lead3, Lead4, AsCodePoint, Encodes;
    BytesOfPass(c);
  }

  /** One pass of the loop. */
  method EncodeUnit(c: Unit) returns (bytes: seq<Byte>)
    ensures bytes == Rfc3629(AsCodePoint(c))
  {
    hide Rfc3629, AsCodePoint;
    PassIsRfc(c);
    if c < 0x80 {
      return [c as Byte];
    } else if c < 0x800 {
      return [(0xC0 | (c >> 6)) as Byte, (0x80 | (c & 0x3F)) as Byte];
    } else {
      return [(0xE0 | (c >> 12)) as Byte, (0x80 | ((c >> 6) & 0x3F)) as Byte, (0x80 | (c & 0x3F)) as Byte];
    }
  }

  method EncodeUtf8(value: seq<Unit>) returns (bytes: seq<Byte>)
    ensures bytes == Utf8Bytes(value)
  {
    hide Rfc3629, AsCodePoint;
    bytes := [];
    for i := 0 to |value|
      invariant bytes + Utf8Bytes(value[i..]) == Utf8Bytes(value)
    {
      var unit := EncodeUnit(value[i]);
      bytes := bytes + unit;
      assert value[i..][1..] == value[i + 1..];
    }
  }

  // ---------- Exactly when it is UTF-8 ----------

  /** The code points that text is made of: surrogates are not among them. */
  type Scalar = cp: CodePoint | cp < 0xD800 || 0xE000 <= cp < 0x11_0000

  function HighSurrogate(cp: Scalar): (c: Unit)
    requires cp >= 0x1_0000
    ensures IsSurrogate(c)
  {
    0xD800 + ((cp - 0x1_0000) >> 10) as Unit
  }

  function LowSurrogate(cp: Scalar): (c: Unit)
    requires cp >= 0x1_0000
    ensures IsSurrogate(c)
  {
    0xDC00 + ((cp - 0x1_0000) & 0x3FF) as Unit
  }

  function AsUnit(cp: Scalar): (c: Unit)
    requires cp < 0x1_0000
    ensures !IsSurrogate(c) && AsCodePoint(c) == cp
  {
    cp as Unit
  }

  /** The code units of a text, with a surrogate pair for each code point past 0xFFFF. */
  function Utf16(text: seq<Scalar>): seq<Unit> {
    if text == [] then []
    else (if text[0] < 0x1_0000 then [AsUnit(text[0])] else [HighSurrogate(text[0]), LowSurrogate(text[0])])
         + Utf16(text[1..])
  }

  /** The RFC's encoding of a text. */
  function RfcText(text: seq<Scalar>): seq<Byte> {
    if text == [] then [] else Rfc3629(text[0]) + RfcText(text[1..])
  }

  /** Code points that take a surrogate pair. */
  function Pairs(text: seq<Scalar>): nat {
    if text == [] then 0 else (if text[0] < 0x1_0000 then 0 else 1) + Pairs(text[1..])
  }

  lemma SurrogateTakesThree(c: Unit)
    requires IsSurrogate(c)
    ensures |Rfc3629(AsCodePoint(c))| == 3
  {
  }

  /** What the encoder makes of one code point at the front of a text. */
  lemma FrontOfText(cp: Scalar, rest: seq<Unit>)
    ensures cp < 0x1_0000 ==> Utf8Bytes([AsUnit(cp)] + rest) == Rfc3629(cp) + Utf8Bytes(rest)
    ensures cp >= 0x1_0000 ==>
              |Utf8Bytes([HighSurrogate(cp), LowSurrogate(cp)] + rest)| == |Rfc3629(cp)| + 2 + |Utf8Bytes(rest)|
  {
    if cp < 0x1_0000 {
      assert ([AsUnit(cp)] + rest)[1..] == rest;
    } else {
      var (high, low) := (HighSurrogate(cp), LowSurrogate(cp));
      SurrogateTakesThree(high);
      SurrogateTakesThree(low);
      RowsAreDisjoint(Rfc3629(cp), cp);
      assert ([high, low] + rest)[1..] == [low] + rest;
      assert ([low] + rest)[1..] == rest;
    }
    hide Rfc3629, AsCodePoint, AsUnit, HighSurrogate, LowSurrogate, Encodes, IsSurrogate;
  }

  lemma {:induction false} PairsCostTwoBytes(text: seq<Scalar>)
    ensures |Utf8Bytes(Utf16(text))| == |RfcText(text)| + 2 * Pairs(text)
    ensures Pairs(text) == 0 ==> Utf8Bytes(Utf16(text)) == RfcText(text)
    ensures Pairs(text) == 0 <==> NoSurrogates(Utf16(text))
  {
    hide Rfc3629, AsCodePoint, AsUnit, HighSurrogate, LowSurrogate, IsSurrogate;
    if text != [] {
      var (cp, rest) := (text[0], text[1..]);
      PairsCostTwoBytes(rest);
      FrontOfText(cp, Utf16(rest));
      NoSurrogatesFront(cp, Utf16(rest));
      hide NoSurrogates, Utf8Bytes;
      if cp < 0x1_0000 {
        assert Utf16(text) == [AsUnit(cp)] + Utf16(rest);
      } else {
        assert Utf16(text) == [HighSurrogate(cp), LowSurrogate(cp)] + Utf16(rest);
      }
    }
  }

  lemma NoSurrogatesFront(cp: Scalar, rest: seq<Unit>)
    ensures cp < 0x1_0000 ==> (NoSurrogates([AsUnit(cp)] + rest) <==> NoSurrogates(rest))
    ensures cp >= 0x1_0000 ==> !NoSurrogates([HighSurrogate(cp), LowSurrogate(cp)] + rest)
  {
    hide IsSurrogate, AsUnit, HighSurrogate, LowSurrogate;
    if cp < 0x1_0000 {
      var units := [AsUnit(cp)] + rest;
      assert forall i :: 0 <= i < |rest| ==> rest[i] == units[i + 1];
    } else {
      assert ([HighSurrogate(cp), LowSurrogate(cp)] + rest)[0] == HighSurrogate(cp);
    }
  }

  /**
    The encoder yields the UTF-8 of a text exactly when the text has no surrogate pair; each pair makes
    it two bytes longer.
   */
  lemma Utf8Exactly(text: seq<Scalar>)
    ensures Utf8Bytes(Utf16(text)) == RfcText(text) <==> NoSurrogates(Utf16(text))
  {
    PairsCostTwoBytes(text);
  }

  function AsText(units: seq<Unit>): (text: seq<Scalar>)
    requires NoSurrogates(units)
  {
    if units == [] then []
    else
      assert !IsSurrogate(units[0]) && forall i :: 0 <= i < |units[1..]| ==> units[1..][i] == units[i + 1];
      [ScalarOf(units[0])] + AsText(units[1..])
  }

  function ScalarOf(c: Unit): (cp: Scalar)
    requires !IsSurrogate(c)
    ensures cp < 0x1_0000 && cp == AsCodePoint(c)
  {
    AsCodePoint(c)
  }

  lemma ScalarReadsBack(c: Unit)
    requires !IsSurrogate(c)
    ensures AsUnit(ScalarOf(c)) == c
  {
    assert (c as CodePoint) as Unit == c;
  }

  /** Every string without surrogates is such a text. */
  lemma {:induction false} NoSurrogatesIsText(units: seq<Unit>)
    requires NoSurrogates(units)
    ensures Utf16(AsText(units)) == units && Utf8Bytes(units) == RfcText(AsText(units))
  {
    hide Rfc3629, AsCodePoint, AsUnit, HighSurrogate, LowSurrogate, ScalarOf, IsSurrogate;
    if units != [] {
      assert NoSurrogates(units[1..]) by {
        assert forall i :: 0 <= i < |units[1..]| ==> units[1..][i] == units[i + 1];
      }
      NoSurrogatesIsText(units[1..]);
      var text := AsText(units);
      ScalarReadsBack(units[0]);
      assert text[1..] == AsText(units[1..]) && AsUnit(text[0]) == units[0];
    }
  }

  // ---------- Distinct strings have distinct bytes ----------

  function LengthFrom(b0: Byte): nat {
    if b0 < 0x80 then 1 else if b0 & 0xE0 == 0xC0 then 2 else 3
  }

  function UnitFrom(bytes: seq<Byte>): Unit
    requires |bytes| > 0 && |bytes| == LengthFrom(bytes[0])
  {
    if |bytes| == 1 then bytes[0] as Unit
    else if |bytes| == 2 then UnitFrom2(bytes[0], bytes[1])
    else UnitFrom3(bytes[0], bytes[1], bytes[2])
  }

  function UnitFrom2(b0: Byte, b1: Byte): Unit {
    ((b0 & 0x1F) as Unit << 6) | (b1 & 0x3F) as Unit
  }

  function UnitFrom3(b0: Byte, b1: Byte, b2: Byte): Unit {
    ((b0 & 0x0F) as Unit << 12) | ((b1 & 0x3F) as Unit << 6) | (b2 & 0x3F) as Unit
  }

  /** Reads back code units; the result on bytes that encode none does not matter. */
  function UnitsFrom(bytes: seq<Byte>): seq<Unit> {
    if bytes == [] || |bytes| < LengthFrom(bytes[0]) then []
    else [UnitFrom(bytes[..LengthFrom(bytes[0])])] + UnitsFrom(bytes[LengthFrom(bytes[0])..])
  }

  lemma UnitReadsBack(c: Unit)
    ensures var bytes := Rfc3629(AsCodePoint(c));
            |bytes| > 0 && |bytes| == LengthFrom(bytes[0]) && UnitFrom(bytes) == c
  {
    PassIsRfc(c);
    if c >= 0x800 {
      Unit3ReadsBack(c);
    } else if c >= 0x80 {
      Unit2ReadsBack(c);
    }
    hide Rfc3629, AsCodePoint, UnitFrom2, UnitFrom3;
  }

  lemma Unit2ReadsBack(c: Unit)
    requires 0x80 <= c < 0x800
    ensures var (b0, b1) := ((0xC0 | (c >> 6)) as Byte, (0x80 | (c & 0x3F)) as Byte);
            LengthFrom(b0) == 2 && UnitFrom2(b0, b1) == c
  {
  }

  lemma Unit3ReadsBack(c: Unit)
    requires 0x800 <= c
    ensures
      var (b0, b1, b2) := ((0xE0 | (c >> 12)) as Byte, (0x80 | ((c >> 6) & 0x3F)) as Byte, (0x80 | (c & 0x3F)) as Byte);
      LengthFrom(b0) == 3 && UnitFrom3(b0, b1, b2) == c
  {
  }

  lemma {:induction false} UnitsReadBack(units: seq<Unit>)
    ensures UnitsFrom(Utf8Bytes(units)) == units
  {
    hide Rfc3629, AsCodePoint, UnitFrom, LengthFrom;
    if units != [] {
      var (first, rest) := (Rfc3629(AsCodePoint(units[0])), Utf8Bytes(units[1..]));
      UnitReadsBack(units[0]);
      assert (first + rest)[0] == first[0];
      assert (first + rest)[..|first|] == first && (first + rest)[|first|..] == rest;
      UnitsReadBack(units[1..]);
    }
  }

  /** The encoder is injective on all sequences of code units, surrogates included. */
  lemma Utf8BytesInjective(a: seq<Unit>, b: seq<Unit>)
    ensures Utf8Bytes(a) == Utf8Bytes(b) <==> a == b
  {
    UnitsReadBack(a);
    UnitsReadBack(b);
  }
}
