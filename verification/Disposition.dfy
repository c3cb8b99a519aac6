/** The Content-Disposition header of a download, and a decoder for it.

    The quoted file name is an ASCII fallback; a name it cannot show also travels as the
    extended parameter of RFC 6266 (section 4.3), encoded as RFC 5987 (section 3.2.1) says. */
module Disposition {
  import opened Wrappers
  import opened Runes

  type Octet = x: int | 0 <= x < 256

  // ----- UTF-8 -----

  function EncodeRune(c: char): seq<Octet> {
    var x := c as int;
    if x < 0x80 then [x]
    else if x < 0x800 then [0xC0 + x / 64, 0x80 + x % 64]
    else if x < 0x10000 then [0xE0 + x / 4096, 0x80 + x / 64 % 64, 0x80 + x % 64]
    else [0xF0 + x / 262144, 0x80 + x / 4096 % 64, 0x80 + x / 64 % 64, 0x80 + x % 64]
  }

  function EncodeUtf8(s: string): seq<Octet> {
    if s == "" then [] else EncodeRune(s[0]) + EncodeUtf8(s[1..])
  }

  function RuneLength(lead: Octet): (n: nat)
    ensures n >= 1
  {
    if lead < 0xC0 then 1 else if lead < 0xE0 then 2 else if lead < 0xF0 then 3 else 4
  }

  function Tail(b: Octet): int {
    b - 0x80
  }

  function RuneNumber(b: seq<Octet>): int
    requires 1 <= |b| <= 4
  {
    match |b|
    case 1 => b[0]
    case 2 => (b[0] - 0xC0) * 64 + Tail(b[1])
    case 3 => (b[0] - 0xE0) * 4096 + Tail(b[1]) * 64 + Tail(b[2])
    case 4 => (b[0] - 0xF0) * 262144 + Tail(b[1]) * 4096 + Tail(b[2]) * 64 + Tail(b[3])
  }

  function DecodeUtf8(b: seq<Octet>): Option<string> {
    if b == [] then Some("")
    else
      var n := RuneLength(b[0]);
      if n > |b| then None else
      var x := RuneNumber(b[..n]);
      var rest := DecodeUtf8(b[n..]);
      if rest.Some? && (0 <= x < 0xD800 || 0xE000 <= x < 0x110000) then Some([x as char] + rest.value) else None
  }

  /** Six bits at a time. */
  lemma Sextets(x: nat)
    ensures x == x / 64 * 64 + x % 64
    ensures x == x / 4096 * 4096 + x / 64 % 64 * 64 + x % 64
    ensures x == x / 262144 * 262144 + x / 4096 % 64 * 4096 + x / 64 % 64 * 64 + x % 64
  {
    var y := x / 64;
    var z := y / 64;
    assert z == x / 4096;
    assert z / 64 == x / 262144;
    assert x == y * 64 + x % 64 && y == z * 64 + y % 64 && z == z / 64 * 64 + z % 64;
  }

  lemma RuneRoundTrip(c: char)
    ensures RuneLength(EncodeRune(c)[0]) == |EncodeRune(c)| <= 4
    ensures RuneNumber(EncodeRune(c)) == c as int
  {
    var x, b := c as int, EncodeRune(c);
    Sextets(x);
    if x < 0x80 {
      assert |b| == 1;
    } else if x < 0x800 {
      assert |b| == 2 && RuneNumber(b) == x / 64 * 64 + x % 64;
    } else if x < 0x10000 {
      assert |b| == 3 && RuneNumber(b) == x / 4096 * 4096 + x / 64 % 64 * 64 + x % 64;
    } else {
      assert |b| == 4 && RuneNumber(b) == x / 262144 * 262144 + x / 4096 % 64 * 4096 + x / 64 % 64 * 64 + x % 64;
    }
  }

  lemma {:induction false} Utf8RoundTrip(s: string)
    ensures DecodeUtf8(EncodeUtf8(s)) == Some(s)
  {
    if s != "" {
      RuneRoundTrip(s[0]);
      Utf8RoundTrip(s[1..]);
      var first, rest := EncodeRune(s[0]), EncodeUtf8(s[1..]);
      hide EncodeRune, RuneNumber, RuneLength;
      assert (first + rest)[..|first|] == first && (first + rest)[|first|..] == rest;
      assert (first + rest)[0] == first[0];
      assert [s[0]] + s[1..] == s;
    }
  }

  // ----- percent encoding -----

  predicate IsAttrChar(b: Octet) {
    var c := b as char;
    || 'a' <= c <= 'z' || 'A' <= c <= 'Z' || '0' <= c <= '9'
    || c in {'!', '#', '$', '&', '+', '-', '.', '^', '_', '`', '|', '~'}
  }

  const ATTR_MARKS: set<int> := {0x21, 0x23, 0x24, 0x26, 0x2B, 0x2D, 0x2E, 0x5E, 0x5F, 0x60, 0x7C, 0x7E}

  /** The letters and digits of ASCII, and twelve marks. */
  predicate IsListed(b: int) {
    0 <= b - 0x30 <= 9 || (0x40 < b < 0x80 && 1 <= b % 0x20 <= 26) || b in ATTR_MARKS
  }

  /** The attribute characters of RFC 5987, and no others, stand for themselves; any other octet is written as a percent
      sign and two upper-case hexadecimal digits. */
  lemma OctetsAreWritten(b: Octet)
    ensures IsListed(b) ==> PercentOctet(b) == [b as char]
    ensures !IsListed(b) ==>
      && |PercentOctet(b)| == 3 && PercentOctet(b)[0] == '%'
      && PercentOctet(b)[1] in "0123456789ABCDEF" && PercentOctet(b)[2] in "0123456789ABCDEF"
      && HexValue(PercentOctet(b)[1]) * 16 + HexValue(PercentOctet(b)[2]) == b
  {
    HexDigitsAreUpperCase(b / 16);
    HexDigitsAreUpperCase(b % 16);
    AttrCharsAreListed(b);
    hide HexDigit, IsAttrChar, IsListed;
  }

  lemma HexDigitsAreUpperCase(x: int)
    requires 0 <= x < 16
    ensures HexDigit(x) in "0123456789ABCDEF" && IsHexDigit(HexDigit(x)) && HexValue(HexDigit(x)) == x
  {
  }

  lemma AttrCharsAreListed(b: Octet)
    ensures IsAttrChar(b) <==> IsListed(b)
  {
  }

  const UPPER_HEX: string := "0123456789ABCDEF"

  function HexDigit(x: int): (c: char)
    requires 0 <= x < 16
    ensures IsHexDigit(c) && HexValue(c) == x
  {
    UPPER_HEX[x]
  }

  predicate IsHexDigit(c: char) {
    '0' <= c <= '9' || 'A' <= c <= 'F' || 'a' <= c <= 'f'
  }

  function HexValue(c: char): (x: int)
    requires IsHexDigit(c)
    ensures 0 <= x < 16
  {
    if '0' <= c <= '9' then c as int - '0' as int
    else if 'A' <= c <= 'F' then c as int - 'A' as int + 10
    else c as int - 'a' as int + 10
  }

  function PercentOctet(b: Octet): string {
    if IsAttrChar(b) then [b as char] else ['%', HexDigit(b / 16), HexDigit(b % 16)]
  }

  function PercentEncode(b: seq<Octet>): string {
    if b == [] then "" else PercentEncode(b[..|b| - 1]) + PercentOctet(b[|b| - 1])
  }

  method PercentEncodeFilename(name: seq<Octet>) returns (encoded: string)
    ensures encoded == PercentEncode(name)
  {
    encoded := "";
    for i := 0 to |name|
      invariant encoded == PercentEncode(name[..i])
    {
      assert name[..i + 1][..i] == name[..i];
      var b := name[i];
      if IsAttrChar(b) {
        encoded := encoded + [b as char];
        continue;
      }
      encoded := encoded + ['%'];
      encoded := encoded + [HexDigit(b / 16)];
      encoded := encoded + [HexDigit(b % 16)];
    }
    assert name[..|name|] == name;
  }

  /** The value-chars of RFC 5987: attribute characters and percent-encoded octets. */
  predicate ValueChars(s: string) {
    if s == "" then true
    else if s[0] == '%' then |s| >= 3 && IsHexDigit(s[1]) && IsHexDigit(s[2]) && ValueChars(s[3..])
    else s[0] < '\U{100}' && IsAttrChar(s[0] as int) && ValueChars(s[1..])
  }

  function PercentDecode(s: string): Option<seq<Octet>> {
    if s == "" then Some([])
    else if s[0] == '%' then
      if |s| >= 3 && IsHexDigit(s[1]) && IsHexDigit(s[2]) then
        var rest := PercentDecode(s[3..]);
        if rest.Some? then Some([HexValue(s[1]) * 16 + HexValue(s[2])] + rest.value) else None
      else None
    else if s[0] < '\U{100}' then
      var rest := PercentDecode(s[1..]);
      if rest.Some? then Some([s[0] as int] + rest.value) else None
    else None
  }

  lemma OctetFirst(b: Octet, s: string)
    requires PercentDecode(s).Some? && ValueChars(s)
    ensures ValueChars(PercentOctet(b) + s)
    ensures PercentDecode(PercentOctet(b) + s) == Some([b] + PercentDecode(s).value)
  {
    var whole := PercentOctet(b) + s;
    if IsAttrChar(b) {
      assert whole[1..] == s && whole[0] != '%';
    } else {
      assert whole[3..] == s;
    }
  }

  lemma {:induction false} EncodeThenDecode(b: seq<Octet>, s: string)
    requires PercentDecode(s).Some? && ValueChars(s)
    ensures ValueChars(PercentEncode(b) + s)
    ensures PercentDecode(PercentEncode(b) + s) == Some(b + PercentDecode(s).value)
  {
    if b == [] {
      assert PercentEncode(b) + s == s;
      assert b + PercentDecode(s).value == PercentDecode(s).value;
    } else {
      var front, last := b[..|b| - 1], b[|b| - 1];
      OctetFirst(last, s);
      EncodeThenDecode(front, PercentOctet(last) + s);
      assert PercentEncode(b) == PercentEncode(front) + PercentOctet(last);
      hide PercentEncode, PercentDecode, ValueChars, PercentOctet;
      AppendAgain(PercentEncode(front), PercentOctet(last), s);
      AppendAgain(front, [last], PercentDecode(s).value);
      assert b == front + [last];
    }
  }

  /** Decoding inverts encoding for every string of octets, and the encoding is in the grammar. */
  lemma PercentRoundTrip(b: seq<Octet>)
    ensures PercentDecode(PercentEncode(b)) == Some(b)
    ensures ValueChars(PercentEncode(b))
  {
    EncodeThenDecode(b, "");
    assert PercentEncode(b) + "" == PercentEncode(b);
    assert b + [] == b;
  }

  // ----- the header -----

  predicate IsControl(c: char) {
    c < ' ' || '\U{7F}' <= c <= '\U{9F}'
  }

  predicate Unsafe(c: char) {
    c == '"' || c == '\\' || IsControl(c)
  }

  function Strip(s: string): string {
    if s == "" then ""
    else Strip(s[..|s| - 1]) + if Unsafe(s[|s| - 1]) then "" else [s[|s| - 1]]
  }

  method StripDispositionUnsafeRunes(filename: string) returns (stripped: string)
    ensures stripped == Strip(filename)
  {
    stripped := "";
    for i := 0 to |filename|
      invariant stripped == Strip(filename[..i])
    {
      assert filename[..i + 1][..i] == filename[..i];
      if Unsafe(filename[i]) {
        continue;
      }
      stripped := stripped + [filename[i]];
    }
    assert filename[..|filename|] == filename;
  }

  predicate IsAscii(c: char) {
    c <= '\U{7F}'
  }

  function Underscored(name: string): string {
    seq(|name|, i requires 0 <= i < |name| => if IsAscii(name[i]) then name[i] else '_')
  }

  predicate OnlyUnderscores(s: string) {
    forall i | 0 <= i < |s| :: s[i] == '_'
  }

  function Fallback(name: string): string {
    if OnlyUnderscores(Underscored(name)) then "document" else Underscored(name)
  }

  method AsciiFilenameFallback(name: string) returns (fallback: string)
    ensures fallback == Fallback(name)
  {
    fallback := "";
    for i := 0 to |name|
      invariant fallback == Underscored(name)[..i]
    {
      if !IsAscii(name[i]) {
        fallback := fallback + ['_'];
        continue;
      }
      fallback := fallback + [name[i]];
    }
    if OnlyUnderscores(fallback) {
      fallback := "document";
    }
  }

  const OPENING: string := "attachment; filename=\""
  const EXTENDED: string := "; filename*=UTF-8''"

  /** The name a download is offered under. */
  function OfferedName(filename: string): string {
    if Strip(filename) == "" then "document" else Strip(filename)
  }

  function ExtendedPart(name: string): string {
    if Fallback(name) == name then "" else EXTENDED + PercentEncode(EncodeUtf8(name))
  }

  function Header(name: string): string {
    OPENING + Fallback(name) + "\"" + ExtendedPart(name)
  }

  method AttachmentDisposition(filename: string) returns (header: string)
    ensures header == Header(OfferedName(filename))
  {
    var name := StripDispositionUnsafeRunes(filename);
    if name == "" {
      name := "document";
    }
    var fallback := AsciiFilenameFallback(name);
    header := OPENING + fallback + "\"";
    if fallback == name {
      assert header == header + "";
      return;
    }
    var encoded := PercentEncodeFilename(EncodeUtf8(name));
    header := header + (EXTENDED + encoded);
  }

  /** The fallback keeps ASCII and shows an underscore for any other rune; nothing but underscores is no name. */
  lemma FallbackIs(name: string)
    ensures (forall i | 0 <= i < |name| :: name[i] as int >= 128 || name[i] == '_') ==> Fallback(name) == "document"
    ensures (exists i | 0 <= i < |name| :: name[i] as int < 128 && name[i] != '_') ==>
      && |Fallback(name)| == |name|
      && forall i | 0 <= i < |name| :: Fallback(name)[i] == if name[i] as int < 128 then name[i] else '_'
  {
    var shown := Underscored(name);
    assert forall i | 0 <= i < |name| :: shown[i] == if name[i] as int < 128 then name[i] else '_';
    hide Underscored;
  }

  /** The header of a name that the fallback shows, and of any other. */
  lemma HeaderIs(name: string)
    ensures Fallback(name) == name ==> Header(name) == "attachment; filename=\"" + name + "\""
    ensures Fallback(name) != name ==>
      Header(name) == "attachment; filename=\"" + Fallback(name) + "\"; filename*=UTF-8''"
                      + PercentEncode(EncodeUtf8(name))
  {
    hide PercentEncode, EncodeUtf8, Fallback;
    if Fallback(name) != name {
      AppendAgain(OPENING + Fallback(name), "\"", EXTENDED + PercentEncode(EncodeUtf8(name)));
      AppendAgain("\"", EXTENDED, PercentEncode(EncodeUtf8(name)));
      assert "\"" + EXTENDED == "\"; filename*=UTF-8''";
      AppendAgain(OPENING + Fallback(name), "\"; filename*=UTF-8''", PercentEncode(EncodeUtf8(name)));
    }
  }

  /** The unsafe runes: quote, backslash and the control characters of the first two code pages. */
  lemma UnsafeRunesAre(c: char)
    ensures Unsafe(c) <==> c == '\"' || c == '\\' || c as int == 127 || (c as int < 160 && c as int % 128 < 32)
  {
  }

  // ----- a client that prefers the extended parameter -----

  function FirstQuote(s: string): (k: nat)
    ensures k <= |s|
  {
    if s == "" || s[0] == '"' then 0 else 1 + FirstQuote(s[1..])
  }

  lemma {:induction false} QuoteAfter(s: string, rest: string)
    requires '"' !in s
    ensures FirstQuote(s + "\"" + rest) == |s|
  {
    if s != "" {
      assert (s + "\"" + rest)[1..] == s[1..] + "\"" + rest;
      QuoteAfter(s[1..], rest);
    }
  }

  /** What a client reads after the opening of the header. */
  function ReadNames(s: string): Option<string> {
    var k := FirstQuote(s);
    if k >= |s| then None else
    var quoted, rest := s[..k], s[k + 1..];
    if rest == "" then Some(quoted)
    else if EXTENDED <= rest then
      var octets := PercentDecode(rest[|EXTENDED|..]);
      if octets.Some? then DecodeUtf8(octets.value) else None
    else None
  }

  function ReadDisposition(header: string): Option<string> {
    if OPENING <= header then ReadNames(header[|OPENING|..]) else None
  }

  predicate Plain(c: char) {
    ' ' <= c <= '~' && c != '"' && c != '\\'
  }

  lemma {:induction false} StripLeavesSafeRunes(s: string)
    ensures forall i | 0 <= i < |Strip(s)| :: !Unsafe(Strip(s)[i])
    ensures |Strip(s)| <= |s|
  {
    hide Unsafe;
    if s != "" {
      StripLeavesSafeRunes(s[..|s| - 1]);
    }
  }

  lemma {:induction false} SafeNamesAreKept(s: string)
    requires forall i | 0 <= i < |s| :: !Unsafe(s[i])
    ensures Strip(s) == s
  {
    hide Unsafe;
    if s != "" {
      SafeNamesAreKept(s[..|s| - 1]);
    }
  }

  lemma StripIsIdentityIff(s: string)
    ensures Strip(s) == s <==> forall i | 0 <= i < |s| :: !Unsafe(s[i])
  {
    StripLeavesSafeRunes(s);
    hide Unsafe, Strip;
    if forall i | 0 <= i < |s| :: !Unsafe(s[i]) {
      SafeNamesAreKept(s);
    }
  }

  lemma OfferedNamesAreSafe(filename: string)
    ensures OfferedName(filename) != ""
    ensures forall i | 0 <= i < |OfferedName(filename)| :: !Unsafe(OfferedName(filename)[i])
  {
    StripLeavesSafeRunes(filename);
  }

  lemma FallbackIsPlain(name: string)
    requires forall i | 0 <= i < |name| :: !Unsafe(name[i])
    ensures forall i | 0 <= i < |Fallback(name)| :: Plain(Fallback(name)[i])
    ensures '"' !in Fallback(name)
  {
  }

  lemma {:induction false} PercentEncodeIsPlain(b: seq<Octet>)
    ensures forall i | 0 <= i < |PercentEncode(b)| :: Plain(PercentEncode(b)[i])
  {
    if b != [] {
      PercentEncodeIsPlain(b[..|b| - 1]);
      PercentOctetIsPlain(b[|b| - 1]);
      hide PercentOctet;
    }
  }

  lemma PercentOctetIsPlain(b: Octet)
    ensures forall i | 0 <= i < |PercentOctet(b)| :: Plain(PercentOctet(b)[i])
  {
  }

  lemma NamesAreRead(fallback: string, rest: string)
    requires '"' !in fallback
    ensures rest == "" ==> ReadNames(fallback + "\"" + rest) == Some(fallback)
    ensures rest != "" && EXTENDED <= rest ==>
              ReadNames(fallback + "\"" + rest) ==
              var octets := PercentDecode(rest[|EXTENDED|..]); if octets.Some? then DecodeUtf8(octets.value) else None
  {
    hide PercentDecode, DecodeUtf8, FirstQuote;
    var s := fallback + "\"" + rest;
    QuoteAfter(fallback, rest);
    assert s[..|fallback|] == fallback && s[|fallback| + 1..] == rest;
  }

  lemma SafeHeaderRoundTrip(name: string)
    requires forall i | 0 <= i < |name| :: !Unsafe(name[i])
    ensures ReadDisposition(Header(name)) == Some(name)
  {
    FallbackIsPlain(name);
    Utf8RoundTrip(name);
    PercentRoundTrip(EncodeUtf8(name));
    ExtendedPartIsRead(name);
    var fallback, rest := Fallback(name), ExtendedPart(name);
    AppendAgain(OPENING + fallback, "\"", rest);
    AppendAgain(OPENING, fallback, "\"" + rest);
    AppendAgain(fallback, "\"", rest);
    assert Header(name) == OPENING + (fallback + "\"" + rest);
    hide Header, ExtendedPart, Fallback, PercentEncode, PercentDecode, EncodeUtf8, DecodeUtf8, ReadNames;
    ReadsPastTheOpening(fallback + "\"" + rest);
    NamesAreRead(fallback, rest);
  }

  lemma AppendAgain<T>(a: seq<T>, b: seq<T>, c: seq<T>)
    ensures a + b + c == a + (b + c)
  {
  }

  lemma DropPrefix(a: string, b: string)
    ensures a <= a + b && (a + b)[|a|..] == b
  {
  }

  lemma ReadsPastTheOpening(s: string)
    ensures ReadDisposition(OPENING + s) == ReadNames(s)
  {
    hide ReadNames;
    DropPrefix(OPENING, s);
  }

  lemma ExtendedPartIsRead(name: string)
    requires DecodeUtf8(EncodeUtf8(name)) == Some(name)
    requires PercentDecode(PercentEncode(EncodeUtf8(name))) == Some(EncodeUtf8(name))
    ensures ExtendedPart(name) == "" ==> Fallback(name) == name
    ensures ExtendedPart(name) != "" ==>
              EXTENDED <= ExtendedPart(name)
                && PercentDecode(ExtendedPart(name)[|EXTENDED|..]) == Some(EncodeUtf8(name))
  {
    hide Fallback, PercentEncode, PercentDecode, EncodeUtf8, DecodeUtf8;
    DropPrefix(EXTENDED, PercentEncode(EncodeUtf8(name)));
  }

  /** A client recovers the offered name rune for rune; a name without unsafe runes is offered as it is. */
  lemma DispositionRoundTrip(filename: string)
    ensures ReadDisposition(Header(OfferedName(filename))) == Some(OfferedName(filename))
    ensures OfferedName(filename) == filename
      <==> filename != "" && forall i | 0 <= i < |filename| :: !Unsafe(filename[i])
  {
    OfferedNamesAreSafe(filename);
    SafeHeaderRoundTrip(OfferedName(filename));
    StripIsIdentityIff(filename);
    hide Header, ReadDisposition;
  }

  // ----- the header is clean -----

  predicate IsQuote(c: char) {
    c == '"'
  }

  lemma {:induction false} CountConcat(p: char -> bool, a: string, b: string, n: nat)
    requires n <= |b|
    ensures Rank(p, a + b, |a| + n) == Count(p, a) + Rank(p, b, n)
  {
    if n == 0 {
      RankPointwise(p, a + b, a, |a|);
    } else {
      CountConcat(p, a, b, n - 1);
    }
  }

  lemma {:induction false} NoneCounted(p: char -> bool, s: string, n: nat)
    requires n <= |s| && forall i | 0 <= i < |s| :: !p(s[i])
    ensures Rank(p, s, n) == 0
  {
    if n > 0 {
      NoneCounted(p, s, n - 1);
    }
  }

  ghost predicate PrintableAscii(s: string) {
    forall i | 0 <= i < |s| :: ' ' <= s[i] <= '~'
  }

  lemma OpeningHasOneQuote()
    ensures Count(IsQuote, OPENING) == 1 && PrintableAscii(OPENING)
  {
    var words := "attachment; filename=";
    NoneCounted(IsQuote, words, |words|);
    assert OPENING == words + "\"";
    CountConcat(IsQuote, words, "\"", 1);
    assert Rank(IsQuote, "\"", 1) == 1;
  }

  /** A text in front of a quote and a text after it, both without quotes. */
  lemma OneMoreQuote(before: string, a: string, b: string)
    requires '"' !in a && '"' !in b
    ensures Count(IsQuote, before + a + "\"" + b) == Count(IsQuote, before) + 1
  {
    NoneCounted(IsQuote, a, |a|);
    NoneCounted(IsQuote, b, |b|);
    CountConcat(IsQuote, before, a, |a|);
    CountConcat(IsQuote, before + a, "\"", 1);
    assert Rank(IsQuote, "\"", 1) == 1;
    CountConcat(IsQuote, before + a + "\"", b, |b|);
  }

  lemma JoinedPrintable(a: string, b: string, c: string)
    requires PrintableAscii(a) && PrintableAscii(b) && PrintableAscii(c)
    ensures PrintableAscii(a + b + "\"" + c)
  {
  }

  lemma ExtendedPartIsPlain(name: string)
    ensures PrintableAscii(ExtendedPart(name)) && '"' !in ExtendedPart(name)
  {
    PercentEncodeIsPlain(EncodeUtf8(name));
    hide PercentEncode, EncodeUtf8, Fallback;
  }

  /** For every file name the header is printable ASCII with exactly two quotes. */
  lemma HeaderIsClean(filename: string)
    ensures PrintableAscii(Header(OfferedName(filename)))
    ensures Count(IsQuote, Header(OfferedName(filename))) == 2
  {
    var name := OfferedName(filename);
    OfferedNamesAreSafe(filename);
    FallbackIsPlain(name);
    ExtendedPartIsPlain(name);
    OpeningHasOneQuote();
    assert Header(name) == OPENING + Fallback(name) + "\"" + ExtendedPart(name);
    assert PrintableAscii(Fallback(name));
    hide *;
    OneMoreQuote(OPENING, Fallback(name), ExtendedPart(name));
    JoinedPrintable(OPENING, Fallback(name), ExtendedPart(name));
  }

  /** The extended parameter is sent exactly for names the fallback cannot show. */
  lemma FallbackShowsTheNameIff(name: string)
    requires name != ""
    ensures Fallback(name) == name <==> (forall i | 0 <= i < |name| :: IsAscii(name[i])) && !OnlyUnderscores(name)
  {
    var shown := Underscored(name);
    if forall i | 0 <= i < |name| :: IsAscii(name[i]) {
      assert shown == name;
    }
    if name == "document" {
      assert shown[0] == 'd';
    }
    if shown == name {
      assert forall i | 0 <= i < |name| :: shown[i] == name[i];
    }
  }
}
