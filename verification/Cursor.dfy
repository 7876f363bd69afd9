/** The opaque page cursor: base64url (RFC 4648, section 5, unpadded) of `<ISO instant>|<uuid>`.
    Printing and parsing an instant are parameters; the text they produce is ASCII, so its UTF-8
    bytes are its characters. */
module Cursor {
  import opened Wrappers
  import opened Ids
  import opened Keyset
  import Money

  type Byte = b: int | 0 <= b < 256
  type Sextet = v: int | 0 <= v < 64

  // ---------- base64url ----------

  function Symbol(v: Sextet): char {
    if v < 26 then 'A' + v as char
    else if v < 52 then 'a' + (v - 26) as char
    else if v < 62 then '0' + (v - 52) as char
    else if v == 62 then '-' else '_'
  }

  /** The decoder knows the symbols of both alphabets. */
  function ValueOf(c: char): Option<Sextet> {
    if 'A' <= c <= 'Z' then Some(c as int - 'A' as int)
    else if 'a' <= c <= 'z' then Some(c as int - 'a' as int + 26)
    else if '0' <= c <= '9' then Some(c as int - '0' as int + 52)
    else if c == '-' || c == '+' then Some(62)
    else if c == '_' || c == '/' then Some(63)
    else None
  }

  function ToSextets(bytes: seq<Byte>): seq<Sextet> {
    if bytes == [] then []
    else if |bytes| == 1 then [bytes[0] / 4, bytes[0] % 4 * 16]
    else if |bytes| == 2 then [bytes[0] / 4, bytes[0] % 4 * 16 + bytes[1] / 16, bytes[1] % 16 * 4]
    else [bytes[0] / 4, bytes[0] % 4 * 16 + bytes[1] / 16, bytes[1] % 16 * 4 + bytes[2] / 64, bytes[2] % 64]
         + ToSextets(bytes[3..])
  }

  function FirstByte(a: int, b: Sextet): Byte
    requires 0 <= a < 64
  {
    a * 4 + b / 16
  }

  function SecondByte(b: int, c: Sextet): Byte
    requires 0 <= b < 64
  {
    b % 16 * 16 + c / 4
  }

  function ThirdByte(c: int, d: Sextet): Byte
    requires 0 <= c < 64
  {
    c % 4 * 64 + d
  }

  /** A single left-over symbol stands for nothing. */
  function FromSextets(s: seq<Sextet>): seq<Byte> {
    if |s| < 2 then []
    else if |s| == 2 then [FirstByte(s[0], s[1])]
    else if |s| == 3 then [FirstByte(s[0], s[1]), SecondByte(s[1], s[2])]
    else [FirstByte(s[0], s[1]), SecondByte(s[1], s[2]), ThirdByte(s[2], s[3])] + FromSextets(s[4..])
  }

  function Symbols(s: seq<Sextet>): string {
    if s == [] then "" else [Symbol(s[0])] + Symbols(s[1..])
  }

  /** Characters outside the alphabets are skipped. */
  function Values(text: string): seq<Sextet> {
    if text == "" then []
    else if ValueOf(text[0]).Some? then [ValueOf(text[0]).value] + Values(text[1..])
    else Values(text[1..])
  }

  function ToBase64Url(bytes: seq<Byte>): string { Symbols(ToSextets(bytes)) }
  function FromBase64Url(text: string): seq<Byte> { FromSextets(Values(text)) }

  lemma {:induction false} SymbolsAreValues(s: seq<Sextet>)
    ensures Values(Symbols(s)) == s
  {
    if s != [] {
      SymbolsAreValues(s[1..]);
      assert Symbols(s)[1..] == Symbols(s[1..]);
    }
  }

  lemma GroupRoundTrip(a: Byte, b: Byte, c: Byte)
    ensures FirstByte(a / 4, a % 4 * 16 + b / 16) == a
    ensures SecondByte(a % 4 * 16 + b / 16, b % 16 * 4 + c / 64) == b
    ensures ThirdByte(b % 16 * 4 + c / 64, c % 64) == c
  {
  }

  lemma {:induction false} GroupsRoundTrip(bytes: seq<Byte>)
    ensures FromSextets(ToSextets(bytes)) == bytes
  {
    hide FirstByte, SecondByte, ThirdByte;
    if |bytes| > 0 {
      GroupRoundTrip(bytes[0], if |bytes| > 1 then bytes[1] else 0, if |bytes| > 2 then bytes[2] else 0);
    }
    if |bytes| >= 3 {
      GroupsRoundTrip(bytes[3..]);
      assert ToSextets(bytes)[4..] == ToSextets(bytes[3..]);
      assert bytes == [bytes[0], bytes[1], bytes[2]] + bytes[3..];
    }
  }

  predicate UrlSafe(c: char) {
    'A' <= c <= 'Z' || 'a' <= c <= 'z' || '0' <= c <= '9' || c == '-' || c == '_'
  }

  /** base64url decodes what it encoded, for every byte string. */
  lemma Base64UrlRoundTrip(bytes: seq<Byte>)
    ensures FromBase64Url(ToBase64Url(bytes)) == bytes
    ensures forall c :: c in ToBase64Url(bytes) ==> UrlSafe(c)
  {
    SymbolsAreValues(ToSextets(bytes));
    GroupsRoundTrip(bytes);
    OnlySymbols(ToSextets(bytes));
  }

  lemma {:induction false} OnlySymbols(s: seq<Sextet>)
    ensures forall c :: c in Symbols(s) ==> UrlSafe(c)
  {
    if s != [] { OnlySymbols(s[1..]); }
  }

  // ---------- text ----------

  predicate Ascii(text: string) { forall i :: 0 <= i < |text| ==> text[i] as int < 128 }

  function Bytes(text: string): seq<Byte>
    requires Ascii(text)
  {
    seq(|text|, i requires 0 <= i < |text| => text[i] as int)
  }

  /** A byte above 127 stays an opaque character; none occurs in a UUID or is a bar. */
  function Text(bytes: seq<Byte>): string { seq(|bytes|, i requires 0 <= i < |bytes| => bytes[i] as char) }

  function Split(text: string): (parts: seq<string>)
    ensures |parts| >= 1
  {
    if text == "" then [""]
    else if text[0] == '|' then [""] + Split(text[1..])
    else var rest := Split(text[1..]); [[text[0]] + rest[0]] + rest[1..]
  }

  lemma {:induction false} SplitNone(text: string)
    requires '|' !in text
    ensures Split(text) == [text]
  {
    if text != "" {
      SplitNone(text[1..]);
      assert [text[0]] + text[1..] == text;
    }
  }

  lemma {:induction false} SplitOnce(a: string, b: string)
    requires '|' !in a && '|' !in b
    ensures Split(a + "|" + b) == [a, b]
  {
    var text := a + "|" + b;
    if a == "" {
      assert text[1..] == b;
      SplitNone(b);
    } else {
      assert text[1..] == a[1..] + "|" + b;
      SplitOnce(a[1..], b);
      assert [a[0]] + a[1..] == a;
    }
  }

  /** Two parts come from exactly one bar. */
  lemma {:induction false} SplitOnlyOnce(text: string)
    ensures |Split(text)| == 1 ==> Split(text) == [text] && '|' !in text
    ensures |Split(text)| == 2 ==>
              && text == Split(text)[0] + "|" + Split(text)[1]
              && '|' !in Split(text)[0] && '|' !in Split(text)[1]
  {
    if text != "" {
      SplitOnlyOnce(text[1..]);
      assert text == [text[0]] + text[1..];
    }
  }

  // ---------- cursors ----------

  /** Date.prototype.toISOString and the Date parser. */
  datatype Dates = Dates(iso: int -> string, parse: string -> Option<int>)

  /** The instants a Date can hold, in milliseconds. */
  predicate IsDate(t: int) { -8_640_000_000_000_000 <= t <= 8_640_000_000_000_000 }

  /** What is used of them: an instant survives its text, which is ASCII without a bar. */
  ghost predicate Faithful(d: Dates) {
    forall t :: IsDate(t) ==>
      d.parse(d.iso(t)) == Some(t) && Ascii(d.iso(t)) && '|' !in d.iso(t) && d.iso(t) != ""
  }

  function PlainText(t: int): string { if t < 0 then "-" + Money.DigitsOf(-t) else Money.DigitsOf(t) }

  function PlainNumber(s: string): Option<int> {
    if s != "" && s[0] == '-' && Money.AllDigits(s[1..]) then Some(0 - Money.Value(s[1..]))
    else if s != "" && Money.AllDigits(s) then Some(Money.Value(s))
    else None
  }

  /** The assumption can be met: plain decimal numbers already do. */
  lemma SomeDatesAreFaithful()
    ensures Faithful(Dates(PlainText, PlainNumber))
  {
    forall t: int
      ensures PlainNumber(PlainText(t)) == Some(t) && Ascii(PlainText(t)) && '|' !in PlainText(t) && PlainText(t) != ""
    {
      var n := if t < 0 then -t else t;
      Money.ValueOfDigits(n);
      assert Money.AllDigits(Money.DigitsOf(n));
      if t < 0 { assert PlainText(t)[1..] == Money.DigitsOf(n); }
    }
  }

  function EncodeCursor(anchor: Anchor, d: Dates): string
    requires Ascii(d.iso(anchor.createdAt) + "|" + UuidText(anchor.id))
  {
    ToBase64Url(Bytes(d.iso(anchor.createdAt) + "|" + UuidText(anchor.id)))
  }

  /** None for any malformed cursor; the caller answers 400. */
  function DecodeCursor(raw: string, d: Dates): Option<Anchor> {
    var parts := Split(Text(FromBase64Url(raw)));
    if |parts| != 2 || parts[0] == "" || !IsUuid(parts[1]) then None
    else match d.parse(parts[0])
      case Some(t) => Some(Anchor(t, DigitsOf(parts[1])))
      case None => None
  }

  lemma UuidIsAscii(text: string)
    requires IsUuid(text)
    ensures Ascii(text) && '|' !in text
  {
    forall i | 0 <= i < 36 ensures text[i] as int < 128 && text[i] != '|' {
      assert if HyphenAt(i) then text[i] == '-' else HexValue(text[i]).Some?;
    }
  }

  /** A cursor that was handed out decodes to the row it was taken from. */
  lemma CursorRoundTrip(anchor: Anchor, d: Dates)
    requires Faithful(d) && IsDate(anchor.createdAt) && anchor.id < Room(36)
    ensures Ascii(d.iso(anchor.createdAt) + "|" + UuidText(anchor.id))
    ensures DecodeCursor(EncodeCursor(anchor, d), d) == Some(anchor)
  {
    hide UuidText, IsUuid, DigitsOf, Room, Split, FromBase64Url, ToBase64Url;
    var iso, id := d.iso(anchor.createdAt), UuidText(anchor.id);
    var text := iso + "|" + id;
    UuidRoundTrip(anchor.id);
    UuidIsAscii(id);
    Base64UrlRoundTrip(Bytes(text));
    assert Text(Bytes(text)) == text;
    SplitOnce(iso, id);
  }

  /** Exactly the cursors whose decoded text is one instant, one bar and one UUID are accepted. */
  lemma AcceptedCursors(raw: string, d: Dates)
    ensures DecodeCursor(raw, d).Some? <==>
            exists iso, id ::
              && Text(FromBase64Url(raw)) == iso + "|" + id
              && '|' !in iso && iso != "" && IsUuid(id) && d.parse(iso).Some?
  {
    hide IsUuid, DigitsOf, FromBase64Url, Text;
    var text := Text(FromBase64Url(raw));
    SplitOnlyOnce(text);
    if iso, id :| text == iso + "|" + id && '|' !in iso && iso != "" && IsUuid(id) && d.parse(iso).Some? {
      UuidIsAscii(id);
      SplitOnce(iso, id);
    }
  }

  // ---------- the encoding, bit by bit ----------

  /** Table 2 of RFC 4648: A to Z, a to z, 0 to 9, hyphen, underscore. */
  lemma AlphabetOfRfc4648(v: Sextet)
    ensures v < 26 ==> Symbol(v) as int == 'A' as int + v
    ensures 26 <= v < 52 ==> Symbol(v) as int == 'a' as int + v - 26
    ensures 52 <= v < 62 ==> Symbol(v) as int == '0' as int + v - 52
    ensures Symbol(62) == '-' && Symbol(63) == '_'
  {
  }

  /** Three bytes are twenty-four bits, and so are the first four values they are encoded as; a shorter
      rest is filled up with zero bits. */
  lemma GroupsAreBits(bytes: seq<Byte>)
    requires bytes != []
    ensures var s := ToSextets(bytes);
            var a: int, b: int, c: int := bytes[0], if |bytes| > 1 then bytes[1] else 0, if |bytes| > 2 then bytes[2] else 0;
            && (if |bytes| <= 2 then |s| == |bytes| + 1 else s[4..] == ToSextets(bytes[3..]))
            && (s[0] as int) * 262144 + (s[1] as int) * 4096
               + (if |s| > 2 then (s[2] as int) * 64 else 0) + (if |s| > 3 then s[3] as int else 0)
               == a * 65536 + b * 256 + c
  {
    if |bytes| >= 3 { assert ToSextets(bytes)[4..] == ToSextets(bytes[3..]); }
  }
}
