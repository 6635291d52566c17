/**
  The bearer token on its way from the browser: a subprotocol value in a comma-separated header, or a
  cookie value. Tokens leave as JavaScript strings and arrive as bytes.
 */
module Tokens {
  import opened Utf8
  import opened Base64Url

  const PREFIX: string := "proxy-token-"

  // ---------- The browser's side ----------

  method BuildSubprotocols(token: seq<Unit>) returns (protocols: seq<string>)
    ensures protocols == if token == [] then [] else [Subprotocol(token)]
    ensures token != [] ==> protocols == ["proxy-token-" + Encoded(Utf8Bytes(token))]
  {
    if |token| == 0 {
      return [];
    }
    var encoded := Encode(token);
    return [PREFIX + encoded];
  }

  function Subprotocol(token: seq<Unit>): string {
    PREFIX + Encoded(Utf8Bytes(token))
  }

  /** Distinct tokens are announced as distinct subprotocols. */
  lemma SubprotocolInjective(a: seq<Unit>, b: seq<Unit>)
    ensures Subprotocol(a) == Subprotocol(b) <==> a == b
  {
    hide Encoded, Utf8Bytes;
    assert Subprotocol(a)[|PREFIX|..] == Encoded(Utf8Bytes(a));
    assert Subprotocol(b)[|PREFIX|..] == Encoded(Utf8Bytes(b));
    EncodedInjective(Utf8Bytes(a), Utf8Bytes(b));
    Utf8BytesInjective(a, b);
  }

  // ---------- Strings ----------

  /** Go's unicode.IsSpace. */
  predicate IsSpace(c: char) {
    || 9 <= c as int <= 13 || c as int == 0x20 || c as int == 0x85 || c as int == 0xA0 || c as int == 0x1680
    || 0x2000 <= c as int <= 0x200A || c as int == 0x2028 || c as int == 0x2029 || c as int == 0x202F
    || c as int == 0x205F || c as int == 0x3000
  }

  /** The white space of ASCII, and what lies beyond it. */
  lemma SpaceIsListed(c: char)
    ensures IsSpace(c) <==>
            c as int in {9, 10, 11, 12, 13, 0x20, 0x85, 0xA0, 0x1680, 0x2000, 0x2001, 0x2002, 0x2003, 0x2004, 0x2005,
                         0x2006, 0x2007, 0x2008, 0x2009, 0x200A, 0x2028, 0x2029, 0x202F, 0x205F, 0x3000}
  {
  }

  predicate AllSpace(s: string) {
    forall i :: 0 <= i < |s| ==> IsSpace(s[i])
  }

  function TrimLeft(s: string): string {
    if s != "" && IsSpace(s[0]) then TrimLeft(s[1..]) else s
  }

  function TrimRight(s: string): string {
    if s != "" && IsSpace(s[|s| - 1]) then TrimRight(s[..|s| - 1]) else s
  }

  function Trim(s: string): string {
    TrimRight(TrimLeft(s))
  }

  predicate HasPrefix(s: string, prefix: string) {
    prefix <= s
  }

  /** strings.Split for a separator of one character: one more entry than separators. */
  function Split(s: string, separator: char): (entries: seq<string>)
    ensures |entries| > 0
  {
    if s == "" then [""]
    else
      var rest := Split(s[1..], separator);
      if s[0] == separator then [""] + rest else [[s[0]] + rest[0]] + rest[1..]
  }

  function Join(entries: seq<string>, separator: char): string
    requires |entries| > 0
  {
    if |entries| == 1 then entries[0] else entries[0] + [separator] + Join(entries[1..], separator)
  }

  /** The entries stand in the joined string in their order, with the separator between them. */
  lemma {:induction false} JoinConcat(a: seq<string>, b: seq<string>, separator: char)
    requires |a| > 0 && |b| > 0
    ensures Join(a + b, separator) == Join(a, separator) + [separator] + Join(b, separator)
    ensures |a| == 1 ==> Join(a, separator) == a[0]
  {
    if |a| == 1 {
      assert (a + b)[1..] == b;
    } else {
      assert (a + b)[1..] == a[1..] + b;
      JoinConcat(a[1..], b, separator);
    }
  }

  lemma {:induction false} SplitOne(s: string, separator: char)
    requires separator !in s
    ensures Split(s, separator) == [s]
  {
    if s != "" {
      SplitOne(s[1..], separator);
      assert s == [s[0]] + s[1..];
    }
  }

  lemma {:induction false} SplitFirst(s: string, rest: string, separator: char)
    requires separator !in s
    ensures Split(s + [separator] + rest, separator) == [s] + Split(rest, separator)
  {
    var whole := s + [separator] + rest;
    if s == "" {
      assert whole[1..] == rest;
    } else {
      SplitFirst(s[1..], rest, separator);
      assert whole[1..] == s[1..] + [separator] + rest;
      assert s == [s[0]] + s[1..];
    }
  }

  /** Splitting undoes joining. */
  lemma {:induction false} SplitJoin(entries: seq<string>, separator: char)
    requires |entries| > 0 && forall i :: 0 <= i < |entries| ==> separator !in entries[i]
    ensures Split(Join(entries, separator), separator) == entries
  {
    if |entries| == 1 {
      SplitOne(entries[0], separator);
    } else {
      assert forall i :: 0 <= i < |entries[1..]| ==> entries[1..][i] == entries[i + 1];
      SplitJoin(entries[1..], separator);
      SplitFirst(entries[0], Join(entries[1..], separator), separator);
    }
  }

  lemma {:induction false} TrimLeftPads(left: string, s: string)
    requires AllSpace(left)
    ensures TrimLeft(left + s) == TrimLeft(s)
  {
    if left == "" {
      assert left + s == s;
    } else {
      assert (left + s)[1..] == left[1..] + s;
      TrimLeftPads(left[1..], s);
    }
  }

  lemma {:induction false} TrimRightPads(s: string, right: string)
    requires AllSpace(right)
    ensures TrimRight(s + right) == TrimRight(s)
  {
    if right == "" {
      assert s + right == s;
    } else {
      assert (s + right)[..|s + right| - 1] == s + right[..|right| - 1];
      TrimRightPads(s, right[..|right| - 1]);
    }
  }

  /** Trimming takes the padding off and stops at what is not white space. */
  lemma TrimPads(left: string, s: string, right: string)
    requires AllSpace(left) && AllSpace(right)
    requires s != "" && !IsSpace(s[0]) && !IsSpace(s[|s| - 1])
    ensures Trim(left + s + right) == s
  {
    hide IsSpace;
    assert left + s + right == left + (s + right);
    TrimLeftPads(left, s + right);
    assert (s + right)[0] == s[0];
    TrimRightPads(s, right);
  }

  // ---------- The server's side ----------

  /** The token of an entry with the prefix; an encoding error yields none. */
  function TokenOf(entry: string): seq<Byte>
    requires HasPrefix(entry, PREFIX)
  {
    var decoded := Decoded(entry[|PREFIX|..]);
    if decoded.None? then [] else decoded.value
  }

  /** The first trimmed entry with the prefix decides. */
  function Extracted(entries: seq<string>): seq<Byte> {
    if entries == [] then []
    else if HasPrefix(Trim(entries[0]), PREFIX) then TokenOf(Trim(entries[0]))
    else Extracted(entries[1..])
  }

  method ExtractSubprotocolToken(header: string) returns (token: seq<Byte>)
    ensures token == Extracted(Split(header, ','))
  {
    if header == "" {
      return [];
    }
    var entries := Split(header, ',');
    for i := 0 to |entries|
      invariant Extracted(entries[i..]) == Extracted(entries)
    {
      assert entries[i..][1..] == entries[i + 1..];
      var proto := Trim(entries[i]);
      if !HasPrefix(proto, PREFIX) {
        continue;
      }
      var decoded := Decoded(proto[|PREFIX|..]);
      if decoded.None? || |decoded.value| == 0 {
        return [];
      }
      return decoded.value;
    }
    return [];
  }

  lemma {:induction false} FirstPrefixedDecides(entries: seq<string>, k: nat)
    requires k < |entries| && HasPrefix(Trim(entries[k]), PREFIX)
    requires forall i :: 0 <= i < k ==> !HasPrefix(Trim(entries[i]), PREFIX)
    ensures Extracted(entries) == TokenOf(Trim(entries[k]))
    ensures var decoded := Decoded(Trim(entries[k])[12..]);
            Extracted(entries) == if decoded.Some? then decoded.value else []
  {
    hide Decoded, Trim;
    if k > 0 {
      FirstPrefixedDecides(entries[1..], k - 1);
    }
  }

  /** A subprotocol value has no comma, and neither end of it is white space. */
  lemma SubprotocolIsOneEntry(token: seq<Unit>)
    ensures ',' !in Subprotocol(token)
    ensures !IsSpace(Subprotocol(token)[0]) && !IsSpace(Subprotocol(token)[|Subprotocol(token)| - 1])
    ensures HasPrefix(Subprotocol(token), PREFIX) && TokenOf(Subprotocol(token)) == Utf8Bytes(token)
  {
    hide Encoded, Utf8Bytes, Decoded;
    var (s, encoded) := (Subprotocol(token), Encoded(Utf8Bytes(token)));
    RoundTrip(Utf8Bytes(token));
    assert s[|PREFIX|..] == encoded;
    assert Place(',').None?;
    assert forall c :: Place(c).Some? ==> !IsSpace(c);
    if encoded != "" {
      assert s[|s| - 1] == encoded[|encoded| - 1] && encoded[|encoded| - 1] in encoded;
    }
  }

  /**
    Token round trip: wherever the browser's value stands in a comma-separated list, with any white
    space around it, the server gets back exactly the token's bytes, as long as no entry before it has
    the prefix. For a token without surrogates those are its UTF-8.
   */
  lemma TokenRoundTrip(
    token: seq<Unit>, before: seq<string>, left: string, right: string, after: seq<string>)
    requires forall i :: 0 <= i < |before| ==> ',' !in before[i] && !HasPrefix(Trim(before[i]), PREFIX)
    requires forall i :: 0 <= i < |after| ==> ',' !in after[i]
    requires AllSpace(left) && AllSpace(right)
    ensures var header := Join(before + [left + Subprotocol(token) + right] + after, ',');
            && Extracted(Split(header, ',')) == Utf8Bytes(token)
            && (NoSurrogates(token) ==> Extracted(Split(header, ',')) == RfcText(AsText(token)))
  {
    hide Subprotocol, Trim, Split, Join, Extracted, TokenOf, Utf8Bytes, HasPrefix;
    var entry := left + Subprotocol(token) + right;
    var entries := before + [entry] + after;
    SubprotocolIsOneEntry(token);
    CommaIsNoSpace(left);
    CommaIsNoSpace(right);
    assert forall i :: 0 <= i < |entries| ==> ',' !in entries[i];
    SplitJoin(entries, ',');
    SubprotocolNotEmpty(token);
    TrimPads(left, Subprotocol(token), right);
    FirstPrefixedDecides(entries, |before|);
    if NoSurrogates(token) {
      NoSurrogatesIsText(token);
    }
  }

  lemma SubprotocolNotEmpty(token: seq<Unit>)
    ensures Subprotocol(token) != ""
  {
  }

  lemma CommaIsNoSpace(s: string)
    requires AllSpace(s)
    ensures ',' !in s
  {
  }

  /** With no prefixed entry there is no token. */
  lemma {:induction false} NoPrefixNoToken(entries: seq<string>)
    requires forall i :: 0 <= i < |entries| ==> !HasPrefix(Trim(entries[i]), PREFIX)
    ensures Extracted(entries) == []
  {
    if entries != [] {
      NoPrefixNoToken(entries[1..]);
    }
  }

  // ---------- The cookie ----------

  function EncodeCookie(token: seq<Byte>): string {
    Encoded(token)
  }

  function DecodeCookie(value: string): seq<Byte> {
    var decoded := Decoded(Trim(value));
    if decoded.None? then [] else decoded.value
  }

  lemma {:induction false} TrimOfSpace(s: string)
    requires AllSpace(s)
    ensures Trim(s) == ""
  {
    if s != "" {
      TrimOfSpace(s[1..]);
    }
  }

  /**
    The cookie carries any token, bytes that a raw cookie value would lose included, with any white space
    around it; a value that does not decode without that carries none.
   */
  lemma CookieRoundTrip(token: seq<Byte>, left: string, right: string)
    requires AllSpace(left) && AllSpace(right)
    ensures DecodeCookie(left + EncodeCookie(token) + right) == token
    ensures forall c :: c in EncodeCookie(token) ==> Place(c).Some?
    ensures forall value :: Decoded(Trim(value)).None? ==> DecodeCookie(value) == []
  {
    hide Encoded, Decoded, Trim, AllSpace;
    RoundTrip(token);
    var s := Encoded(token);
    assert forall c :: Place(c).Some? ==> !IsSpace(c);
    if s != "" {
      assert s[0] in s && s[|s| - 1] in s;
      TrimPads(left, s, right);
    } else {
      SpaceAround(left, right);
      TrimOfSpace(left + s + right);
    }
  }

  lemma SpaceAround(left: string, right: string)
    requires AllSpace(left) && AllSpace(right)
    ensures AllSpace(left + "" + right)
  {
  }
}
