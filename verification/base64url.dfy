/** Section 5 of RFC 4648 without padding: the dashboard's encoder and the server's decoder. */
module Base64Url {
  import opened Wrappers
  import opened Utf8

  type Sextet = s: bv8 | s < 64

  /** The table of section 5, which the encoder keeps as a string. */
  function Alphabet(place: nat): char
    requires place < 64
  {
    if place < 26 then ('A' as int + place) as char
    else if place < 52 then ('a' as int + place - 26) as char
    else if place < 62 then ('0' as int + place - 52) as char
    else if place == 62 then '-'
    else '_'
  }

  /** The place of a character in the table. */
  function Place(c: char): (place: Option<nat>)
    ensures place.Some? ==> place.value < 64 && Alphabet(place.value) == c
  {
    if 'A' <= c <= 'Z' then Some(c as int - 'A' as int)
    else if 'a' <= c <= 'z' then Some(c as int - 'a' as int + 26)
    else if '0' <= c <= '9' then Some(c as int - '0' as int + 52)
    else if c == '-' then Some(62)
    else if c == '_' then Some(63)
    else None
  }

  lemma PlaceOfAlphabet(place: nat)
    requires place < 64
    ensures Place(Alphabet(place)) == Some(place)
  {
  }

  /** The table is the encoder's string, character by character. */
  lemma AlphabetIsTable(place: nat)
    requires place < 64
    ensures Alphabet(place)
         == ("ABCDEFGH" + "IJKLMNOP" + "QRSTUVWX" + "YZabcdef" + "ghijklmn" + "opqrstuv" + "wxyz0123" + "456789-_")
              [place]
  {
    if place < 32 {
      assert place < 8 ==> Alphabet(place) == "ABCDEFGH"[place];
      assert 8 <= place < 16 ==> Alphabet(place) == "IJKLMNOP"[place - 8];
      assert 16 <= place < 24 ==> Alphabet(place) == "QRSTUVWX"[place - 16];
      assert 24 <= place ==> Alphabet(place) == "YZabcdef"[place - 24];
    } else {
      assert place < 40 ==> Alphabet(place) == "ghijklmn"[place - 32];
      assert 40 <= place < 48 ==> Alphabet(place) == "opqrstuv"[place - 40];
      assert 48 <= place < 56 ==> Alphabet(place) == "wxyz0123"[place - 48];
      assert 56 <= place ==> Alphabet(place) == "456789-_"[place - 56];
    }
  }

  /** The character for six bits. */
  function Digit(s: Sextet): (c: char)
    ensures Place(c).Some?
  {
    hide Alphabet, Place;
    PlaceOfAlphabet(s as int);
    Alphabet(s as int)
  }

  function Value(c: char): (v: Option<Sextet>) {
    if Place(c).Some? then Some(Place(c).value as bv8) else None
  }

  lemma ValueOfDigit(s: Sextet)
    ensures Value(Digit(s)) == Some(s)
  {
    hide Place, Alphabet;
    PlaceOfAlphabet(s as int);
    assert (s as int) as bv8 == s;
  }

  // ---------- The encoding: 24 bits at a time ----------

  /** Three bytes as one 24-bit group. */
  function Group(b0: Byte, b1: Byte, b2: Byte): bv24 {
    (b0 as bv24 << 16) | (b1 as bv24 << 8) | b2 as bv24
  }

  function First(g: bv24): Sextet {
    (g >> 18) as bv8
  }

  function Second(g: bv24): Sextet {
    ((g >> 12) & 0x3F) as bv8
  }

  function Third(g: bv24): Sextet {
    ((g >> 6) & 0x3F) as bv8
  }

  function Fourth(g: bv24): Sextet {
    (g & 0x3F) as bv8
  }

  /** A final group of one or two bytes is filled with zero bits and yields two or three characters. */
  function Encoded(bytes: seq<Byte>): string {
    if |bytes| == 0 then ""
    else if |bytes| == 1 then
      var g := Group(bytes[0], 0, 0); [Digit(First(g)), Digit(Second(g))]
    else if |bytes| == 2 then
      var g := Group(bytes[0], bytes[1], 0); [Digit(First(g)), Digit(Second(g)), Digit(Third(g))]
    else
      var g := Group(bytes[0], bytes[1], bytes[2]);
      [Digit(First(g)), Digit(Second(g)), Digit(Third(g)), Digit(Fourth(g))] + Encoded(bytes[3..])
  }

  // The encoder's shifts and masks.

  function Bits0(b0: Byte): Sextet {
    b0 >> 2
  }

  function Bits1(b0: Byte, b1: Byte): Sextet {
    ((b0 & 0x03) << 4) | (b1 >> 4)
  }

  function Bits2(b1: Byte, b2: Byte): Sextet {
    ((b1 & 0x0F) << 2) | (b2 >> 6)
  }

  function Bits3(b2: Byte): Sextet {
    b2 & 0x3F
  }

  /** They pick the sextets of the group. */
  lemma BitsAreSextets(b0: Byte, b1: Byte, b2: Byte)
    ensures var g := Group(b0, b1, b2);
            Bits0(b0) == First(g) && Bits1(b0, b1) == Second(g) && Bits2(b1, b2) == Third(g) && Bits3(b2) == Fourth(g)
  {
  }

  function OrZero(b: Option<Byte>): Byte {
    if b.None? then 0 else b.value
  }

  /** What one pass of the loop appends. */
  function PassOutput(b0: Byte, b1: Option<Byte>, b2: Option<Byte>): string {
    [Digit(Bits0(b0)), Digit(Bits1(b0, OrZero(b1)))]
    + if b1.None? then ""
      else [Digit(Bits2(b1.value, OrZero(b2)))] + if b2.None? then "" else [Digit(Bits3(b2.value))]
  }

  function At(bytes: seq<Byte>, i: nat): Option<Byte> {
    if i < |bytes| then Some(bytes[i]) else None
  }

  /** What the loop still has to append. */
  function Remaining(bytes: seq<Byte>, i: nat): string {
    if i < |bytes| then Encoded(bytes[i..]) else ""
  }

  lemma PassEncodesGroup(bytes: seq<Byte>, i: nat)
    requires i < |bytes|
    ensures Remaining(bytes, i)
         == PassOutput(bytes[i], At(bytes, i + 1), At(bytes, i + 2)) + Remaining(bytes, i + 3)
  {
    hide Digit, Group, First, Second, Third, Fourth, Bits0, Bits1, Bits2, Bits3;
    var rest := bytes[i..];
    BitsAreSextets(rest[0], OrZero(At(rest, 1)), OrZero(At(rest, 2)));
    if |rest| > 2 {
      assert rest[3..] == bytes[i + 3..];
    }
  }

  method Encode(value: seq<Unit>) returns (encoded: string)
    ensures encoded == Encoded(Utf8Bytes(value))
  {
    hide Encoded, Digit, Bits0, Bits1, Bits2, Bits3, Utf8Bytes, Remaining;
    var bytes := EncodeUtf8(value);
    encoded := "";
    var i := 0;
    RemainingEnds(bytes);
    while i < |bytes|
      invariant 0 <= i
      invariant encoded + Remaining(bytes, i) == Encoded(bytes)
    {
      var b0 := bytes[i];
      var b1 := if i + 1 < |bytes| then Some(bytes[i + 1]) else None;
      var b2 := if i + 2 < |bytes| then Some(bytes[i + 2]) else None;
      ghost var before := encoded;
      PassEncodesGroup(bytes, i);
      encoded := encoded + [Digit(Bits0(b0))];
      encoded := encoded + [Digit(Bits1(b0, OrZero(b1)))];
      if b1.None? {
        assert encoded == before + PassOutput(b0, b1, b2);
        break;
      }
      encoded := encoded + [Digit(Bits2(b1.value, OrZero(b2)))];
      if b2.None? {
        assert encoded == before + PassOutput(b0, b1, b2);
        break;
      }
      encoded := encoded + [Digit(Bits3(b2.value))];
      assert encoded == before + PassOutput(b0, b1, b2);
      i := i + 3;
    }
  }

  lemma RemainingEnds(bytes: seq<Byte>)
    ensures Remaining(bytes, 0) == Encoded(bytes)
    ensures forall i: nat :: |bytes| <= i ==> Remaining(bytes, i) == ""
  {
    assert bytes[0..] == bytes;
  }

  // ---------- The encoding, bit by bit ----------

  /** A bit of a byte, the most significant one first. */
  function BitOf(b: Byte, i: nat): bv8
    requires i < 8
  {
    if i == 0 then b >> 7
    else if i == 1 then (b >> 6) & 1
    else if i == 2 then (b >> 5) & 1
    else if i == 3 then (b >> 4) & 1
    else if i == 4 then (b >> 3) & 1
    else if i == 5 then (b >> 2) & 1
    else if i == 6 then (b >> 1) & 1
    else b & 1
  }

  /** A bit of a byte sequence, with zero bits after its end. */
  function Bit(bytes: seq<Byte>, j: nat): bv8 {
    if j / 8 < |bytes| then BitOf(bytes[j / 8], j % 8) else 0
  }

  function SixOf(b0: bv8, b1: bv8, b2: bv8, b3: bv8, b4: bv8, b5: bv8): bv8 {
    (b0 << 5) | (b1 << 4) | (b2 << 3) | (b3 << 2) | (b4 << 1) | b5
  }

  /** The six bits from a place on. */
  function SixBits(bytes: seq<Byte>, j: nat): bv8 {
    SixOf(Bit(bytes, j), Bit(bytes, j + 1), Bit(bytes, j + 2), Bit(bytes, j + 3), Bit(bytes, j + 4), Bit(bytes, j + 5))
  }

  /** The sextets of a group are its bits, six at a time. */
  lemma GroupBits(b0: Byte, b1: Byte, b2: Byte)
    ensures var g := Group(b0, b1, b2);
            && First(g) == SixOf(BitOf(b0, 0), BitOf(b0, 1), BitOf(b0, 2), BitOf(b0, 3), BitOf(b0, 4), BitOf(b0, 5))
            && Second(g) == SixOf(BitOf(b0, 6), BitOf(b0, 7), BitOf(b1, 0), BitOf(b1, 1), BitOf(b1, 2), BitOf(b1, 3))
            && Third(g) == SixOf(BitOf(b1, 4), BitOf(b1, 5), BitOf(b1, 6), BitOf(b1, 7), BitOf(b2, 0), BitOf(b2, 1))
            && Fourth(g) == SixOf(BitOf(b2, 2), BitOf(b2, 3), BitOf(b2, 4), BitOf(b2, 5), BitOf(b2, 6), BitOf(b2, 7))
  {
  }

  lemma NoBits(i: nat)
    requires i < 8
    ensures BitOf(0, i) == 0
  {
  }

  lemma BitByByte(bytes: seq<Byte>, i: nat, byte: nat)
    requires i < 8
    ensures Bit(bytes, 8 * byte + i) == BitOf(OrZero(At(bytes, byte)), i)
  {
    hide BitOf;
    NoBits(i);
    assert (8 * byte + i) / 8 == byte && (8 * byte + i) % 8 == i;
  }

  /** The eight bits of one byte of the sequence. */
  lemma ByteBits(bytes: seq<Byte>, byte: nat, start: nat)
    requires start == 8 * byte
    ensures var b := OrZero(At(bytes, byte));
            && Bit(bytes, start) == BitOf(b, 0) && Bit(bytes, start + 1) == BitOf(b, 1)
            && Bit(bytes, start + 2) == BitOf(b, 2) && Bit(bytes, start + 3) == BitOf(b, 3)
            && Bit(bytes, start + 4) == BitOf(b, 4) && Bit(bytes, start + 5) == BitOf(b, 5)
            && Bit(bytes, start + 6) == BitOf(b, 6) && Bit(bytes, start + 7) == BitOf(b, 7)
  {
    hide Bit, BitOf, OrZero, At;
    BitByByte(bytes, 0, byte);
    BitByByte(bytes, 1, byte);
    BitByByte(bytes, 2, byte);
    BitByByte(bytes, 3, byte);
    BitByByte(bytes, 4, byte);
    BitByByte(bytes, 5, byte);
    BitByByte(bytes, 6, byte);
    BitByByte(bytes, 7, byte);
  }

  /** The first sextets of a byte sequence. */
  lemma FirstSextets(bytes: seq<Byte>)
    ensures var g := Group(OrZero(At(bytes, 0)), OrZero(At(bytes, 1)), OrZero(At(bytes, 2)));
            && First(g) == SixBits(bytes, 0) && Second(g) == SixBits(bytes, 6)
            && Third(g) == SixBits(bytes, 12) && Fourth(g) == SixBits(bytes, 18)
  {
    hide Bit, BitOf, Group, First, Second, Third, Fourth, OrZero, At, SixOf;
    GroupBits(OrZero(At(bytes, 0)), OrZero(At(bytes, 1)), OrZero(At(bytes, 2)));
    ByteBits(bytes, 0, 0);
    ByteBits(bytes, 1, 8);
    ByteBits(bytes, 2, 16);
  }

  lemma BitsAfterGroup(bytes: seq<Byte>, j: nat)
    requires |bytes| >= 3
    ensures SixBits(bytes[3..], j) == SixBits(bytes, j + 24)
  {
    hide BitOf;
    forall k: nat ensures Bit(bytes[3..], k) == Bit(bytes, k + 24) {
      assert (k + 24) / 8 == k / 8 + 3 && (k + 24) % 8 == k % 8;
    }
    hide Bit;
    assert Bit(bytes[3..], j) == Bit(bytes, j + 24) && Bit(bytes[3..], j + 1) == Bit(bytes, j + 1 + 24);
    assert Bit(bytes[3..], j + 2) == Bit(bytes, j + 2 + 24) && Bit(bytes[3..], j + 3) == Bit(bytes, j + 3 + 24);
    assert Bit(bytes[3..], j + 4) == Bit(bytes, j + 4 + 24) && Bit(bytes[3..], j + 5) == Bit(bytes, j + 5 + 24);
  }

  lemma DigitIsTable(s: Sextet)
    ensures Digit(s)
         == ("ABCDEFGH" + "IJKLMNOP" + "QRSTUVWX" + "YZabcdef" + "ghijklmn" + "opqrstuv" + "wxyz0123" + "456789-_")
              [s as int]
  {
    AlphabetIsTable(s as int);
    hide Alphabet;
  }

  /** The k-th character of an encoding is the one for the k-th six bits. */
  lemma {:induction false} CharacterIsDigit(bytes: seq<Byte>, k: nat)
    requires k < |Encoded(bytes)|
    ensures SixBits(bytes, 6 * k) < 64 && Encoded(bytes)[k] == Digit(SixBits(bytes, 6 * k))
    decreases |bytes|
  {
    hide Digit, Group, First, Second, Third, Fourth, SixBits;
    FirstSextets(bytes);
    if |bytes| >= 3 && k >= 4 {
      CharacterIsDigit(bytes[3..], k - 4);
      BitsAfterGroup(bytes, 6 * (k - 4));
    } else {
      assert k == 0 || k == 1 || k == 2 || k == 3;
    }
  }

  /**
    What the encoder sends, without its own tables: the k-th character is the one at the place that the
    k-th six bits of the bytes give, zero bits following the last byte, in the alphabet of section 5.
   */
  lemma EncodedAt(bytes: seq<Byte>, k: nat)
    requires k < |Encoded(bytes)|
    ensures SixBits(bytes, 6 * k) < 64
    ensures Encoded(bytes)[k]
         == ("ABCDEFGH" + "IJKLMNOP" + "QRSTUVWX" + "YZabcdef" + "ghijklmn" + "opqrstuv" + "wxyz0123" + "456789-_")
              [SixBits(bytes, 6 * k) as int]
  {
    hide Encoded, Digit, SixBits;
    CharacterIsDigit(bytes, k);
    DigitIsTable(SixBits(bytes, 6 * k));
  }

  // ---------- The decoder ----------

  /** Characters outside the alphabet and a single leftover character are errors; stray bits are dropped. */
  function Decoded(s: string): Option<seq<Byte>> {
    if |s| == 0 then Some([])
    else if |s| == 1 then None
    else if Value(s[0]).None? || Value(s[1]).None? then None
    else
      var first := Byte0(Value(s[0]).value, Value(s[1]).value);
      if |s| == 2 then Some([first])
      else if Value(s[2]).None? then None
      else
        var second := Byte1(Value(s[1]).value, Value(s[2]).value);
        if |s| == 3 then Some([first, second])
        else if Value(s[3]).None? then None
        else
          var rest := Decoded(s[4..]);
          if rest.None? then None
          else Some([first, second, Byte2(Value(s[2]).value, Value(s[3]).value)] + rest.value)
  }

  function Byte0(s0: Sextet, s1: Sextet): Byte {
    (s0 << 2) | (s1 >> 4)
  }

  function Byte1(s1: Sextet, s2: Sextet): Byte {
    (s1 << 4) | (s2 >> 2)
  }

  function Byte2(s2: Sextet, s3: Sextet): Byte {
    (s2 << 6) | s3
  }

  lemma GroupReadsBack(b0: Byte, b1: Byte, b2: Byte)
    ensures var g := Group(b0, b1, b2);
            && Byte0(First(g), Second(g)) == b0
            && Byte1(Second(g), Third(g)) == b1
            && Byte2(Third(g), Fourth(g)) == b2
  {
  }

  /** The four digits of a group have the group's sextets as their values. */
  lemma GroupDigits(g: bv24)
    ensures Value(Digit(First(g))) == Some(First(g)) && Value(Digit(Second(g))) == Some(Second(g))
    ensures Value(Digit(Third(g))) == Some(Third(g)) && Value(Digit(Fourth(g))) == Some(Fourth(g))
  {
    hide Value, Digit, First, Second, Third, Fourth;
    ValueOfDigit(First(g));
    ValueOfDigit(Second(g));
    ValueOfDigit(Third(g));
    ValueOfDigit(Fourth(g));
  }

  lemma DecodedGroup(s0: Sextet, s1: Sextet, s2: Sextet, s3: Sextet, rest: string)
    requires Decoded(rest).Some?
    ensures Decoded([Digit(s0), Digit(s1), Digit(s2), Digit(s3)] + rest)
         == Some([Byte0(s0, s1), Byte1(s1, s2), Byte2(s2, s3)] + Decoded(rest).value)
  {
    hide Value, Digit, Byte0, Byte1, Byte2;
    ValueOfDigit(s0);
    ValueOfDigit(s1);
    ValueOfDigit(s2);
    ValueOfDigit(s3);
    assert ([Digit(s0), Digit(s1), Digit(s2), Digit(s3)] + rest)[4..] == rest;
  }

  lemma ShortGroups(b0: Byte, b1: Byte)
    ensures Decoded(Encoded([b0])) == Some([b0])
    ensures Decoded(Encoded([b0, b1])) == Some([b0, b1])
    ensures forall c :: c in Encoded([b0]) || c in Encoded([b0, b1]) ==> Place(c).Some?
  {
    hide Value, Digit, Group, First, Second, Third, Fourth, Byte0, Byte1, Byte2, Place;
    GroupDigits(Group(b0, 0, 0));
    GroupDigits(Group(b0, b1, 0));
    GroupReadsBack(b0, 0, 0);
    GroupReadsBack(b0, b1, 0);
  }

  /**
    Decoding undoes encoding on every byte sequence, the encoding of n bytes has (4n + 2) / 3
    characters, and all of them are in the alphabet.
   */
  lemma {:induction false} RoundTrip(bytes: seq<Byte>)
    ensures Decoded(Encoded(bytes)) == Some(bytes)
    ensures |Encoded(bytes)| == (4 * |bytes| + 2) / 3
    ensures forall c :: c in Encoded(bytes) ==> Place(c).Some?
  {
    hide Value, Digit, Group, First, Second, Third, Fourth, Byte0, Byte1, Byte2, Place;
    if bytes != [] {
      assert |bytes| == 1 ==> bytes == [bytes[0]];
      assert |bytes| == 2 ==> bytes == [bytes[0], bytes[1]];
      var b1 := if |bytes| > 1 then bytes[1] else 0;
      var b2 := if |bytes| > 2 then bytes[2] else 0;
      var g := Group(bytes[0], b1, b2);
      GroupDigits(g);
      GroupReadsBack(bytes[0], b1, b2);
      if |bytes| <= 2 {
        ShortGroups(bytes[0], b1);
      } else {
        var four := [Digit(First(g)), Digit(Second(g)), Digit(Third(g)), Digit(Fourth(g))];
        RoundTrip(bytes[3..]);
        DecodedGroup(First(g), Second(g), Third(g), Fourth(g), Encoded(bytes[3..]));
        assert (four + Encoded(bytes[3..]))[4..] == Encoded(bytes[3..]);
        assert bytes == [bytes[0], bytes[1], bytes[2]] + bytes[3..];
        assert Encoded(bytes) == four + Encoded(bytes[3..]);
      }
    }
  }

  lemma EncodedInjective(a: seq<Byte>, b: seq<Byte>)
    ensures Encoded(a) == Encoded(b) <==> a == b
  {
    RoundTrip(a);
    RoundTrip(b);
  }

  // ---------- What the decoder accepts ----------

  lemma PlaceIsTable(c: char)
    ensures Place(c).Some? <==>
            exists place: nat :: place < 64 &&
              c
              == ("ABCDEFGH" + "IJKLMNOP" + "QRSTUVWX" + "YZabcdef" + "ghijklmn" + "opqrstuv" + "wxyz0123" + "456789-_")
                   [place]
  {
    if Place(c).Some? {
      AlphabetIsTable(Place(c).value);
      hide Place, Alphabet;
    } else {
      forall place: nat | place < 64
        ensures c
             != ("ABCDEFGH" + "IJKLMNOP" + "QRSTUVWX" + "YZabcdef" + "ghijklmn" + "opqrstuv" + "wxyz0123" + "456789-_")
                  [place]
      {
        AlphabetIsTable(place);
        PlaceOfAlphabet(place);
        hide Place, Alphabet;
      }
    }
  }

  predicate InTable(s: string) {
    forall i :: 0 <= i < |s| ==> Place(s[i]).Some?
  }

  lemma InTableGroup(s: string)
    requires |s| >= 4
    ensures InTable(s) <==>
            Place(s[0]).Some? && Place(s[1]).Some? && Place(s[2]).Some? && Place(s[3]).Some? && InTable(s[4..])
  {
    hide Place;
    assert forall i :: 0 <= i < |s[4..]| ==> s[4..][i] == s[i + 4];
    assert forall i :: 4 <= i < |s| ==> s[i] == s[4..][i - 4];
  }

  lemma DecodedGroupExactly(s: string)
    requires |s| >= 4
    ensures Decoded(s).Some? <==>
            && Place(s[0]).Some? && Place(s[1]).Some? && Place(s[2]).Some? && Place(s[3]).Some?
            && Decoded(s[4..]).Some?
  {
    hide Byte0, Byte1, Byte2, Place;
  }

  lemma ShortDecodesExactly(s: string)
    requires |s| < 4
    ensures Decoded(s).Some? <==> |s| != 1 && InTable(s)
  {
    hide Byte0, Byte1, Byte2, Place;
  }

  /** A string decodes if and only if no single character is left over and all are in the table. */
  lemma {:induction false} DecodesExactly(s: string)
    ensures Decoded(s).Some? <==> |s| % 4 != 1 && InTable(s)
    decreases |s|
  {
    hide Decoded, InTable, Place;
    if |s| < 4 {
      ShortDecodesExactly(s);
    } else {
      DecodedGroupExactly(s);
      InTableGroup(s);
      DecodesExactly(s[4..]);
    }
  }

  lemma DigitOfValue(c: char)
    requires Value(c).Some?
    ensures Digit(Value(c).value) == c
  {
    hide Alphabet, Place;
    PlaceFitsByte(Place(c).value);
  }

  lemma PlaceFitsByte(place: nat)
    requires place < 64
    ensures (place as bv8) as int == place
  {
  }

  lemma SextetsReadBack(s0: Sextet, s1: Sextet, s2: Sextet, s3: Sextet)
    ensures var g := Group(Byte0(s0, s1), Byte1(s1, s2), Byte2(s2, s3));
            First(g) == s0 && Second(g) == s1 && Third(g) == s2 && Fourth(g) == s3
  {
  }

  lemma ShortSextetsReadBack(s0: Sextet, s1: Sextet, s2: Sextet)
    ensures First(Group(Byte0(s0, s1), 0, 0)) == s0
    ensures First(Group(Byte0(s0, s1), Byte1(s1, s2), 0)) == s0
    ensures Second(Group(Byte0(s0, s1), Byte1(s1, s2), 0)) == s1
  {
  }

  /** Encoding what was decoded gives the string back, but for stray bits of a last, incomplete group. */
  lemma {:induction false} DecodedReadsBack(s: string)
    requires Decoded(s).Some?
    ensures var e := Encoded(Decoded(s).value);
            |e| == |s| && (forall i :: 0 <= i < |s| - 1 ==> e[i] == s[i]) && (|s| % 4 == 0 ==> e == s)
    decreases |s|
  {
    hide Value, Digit, Group, First, Second, Third, Fourth, Byte0, Byte1, Byte2;
    if s != "" {
      DigitOfValue(s[0]);
      DigitOfValue(s[1]);
      var (v0, v1) := (Value(s[0]).value, Value(s[1]).value);
      if |s| >= 3 {
        DigitOfValue(s[2]);
        var v2 := Value(s[2]).value;
        if |s| >= 4 {
          DigitOfValue(s[3]);
          GroupReadsBackInString(s);
          DecodedReadsBack(s[4..]);
        } else {
          ShortSextetsReadBack(v0, v1, v2);
        }
      } else {
        ShortSextetsReadBack(v0, v1, 0);
      }
    }
  }

  lemma GroupReadsBackInString(s: string)
    requires |s| >= 4 && Decoded(s).Some?
    ensures Decoded(s[4..]).Some?
    ensures Encoded(Decoded(s).value) == s[..4] + Encoded(Decoded(s[4..]).value)
  {
    hide Value, Digit, Group, First, Second, Third, Fourth, Byte0, Byte1, Byte2;
    DigitOfValue(s[0]);
    DigitOfValue(s[1]);
    DigitOfValue(s[2]);
    DigitOfValue(s[3]);
    SextetsReadBack(Value(s[0]).value, Value(s[1]).value, Value(s[2]).value, Value(s[3]).value);
    var bytes := Decoded(s).value;
    assert bytes[3..] == Decoded(s[4..]).value;
    assert s[..4] == [s[0], s[1], s[2], s[3]];
  }
}
