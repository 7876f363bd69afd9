/** The canonical text whose hash tells a retry from a different request under one idempotency
    key. Text is a sequence of UTF-16 code units; strings are quoted as in section 7 of RFC 8259,
    with lone surrogates escaped. */
module Canonical {
  type CodeUnit = u: int | 0 <= u < 0x10000
  type Text = seq<CodeUnit>

  /** Fields keep their insertion order. */
  datatype Json =
    | Null
    | Bool(b: bool)
    | Num(n: int)
    | Str(s: Text)
    | Arr(items: seq<Json>)
    | Obj(fields: seq<Field>)
  datatype Field = Field(key: Text, value: Json)

  const QUOTE: CodeUnit := 34
  const BACKSLASH: CodeUnit := 92
  const COMMA: CodeUnit := 44
  const COLON: CodeUnit := 58
  const MINUS: CodeUnit := 45
  const LBRACKET: CodeUnit := 91
  const RBRACKET: CodeUnit := 93
  const LBRACE: CodeUnit := 123
  const RBRACE: CodeUnit := 125

  // ---------- sequences ----------

  lemma Reassociate(a: Text, b: Text, c: Text)
    ensures (a + b) + c == a + (b + c)
    ensures a != [] ==> ((a + b) + c)[0] == a[0]
  {
  }

  lemma After(u: CodeUnit, t: Text)
    ensures ([u] + t)[0] == u && ([u] + t)[1..] == t
  {
  }

  lemma Drop(a: Text, r: Text, s: Text)
    requires a + r == a + s
    ensures r == s
  {
    assert (a + r)[|a|..] == r && (a + s)[|a|..] == s;
  }

  lemma Cancel(a: Text, b: Text, r: Text)
    requires a + r == b + r
    ensures a == b
  {
    assert |a| == |b|;
    assert (a + r)[..|a|] == a && (b + r)[..|b|] == b;
  }

  // ---------- numbers ----------

  function Digits(n: nat): Text {
    if n < 10 then [48 + n] else Digits(n / 10) + [48 + n % 10]
  }

  function Decimal(n: int): Text { if n < 0 then [MINUS] + Digits(-n) else Digits(n) }

  predicate IsDigit(u: CodeUnit) { 48 <= u < 58 }

  predicate AllDigits(t: Text) { forall i :: 0 <= i < |t| ==> IsDigit(t[i]) }

  function DigitsValue(t: Text): int {
    if t == [] then 0 else DigitsValue(t[..|t| - 1]) * 10 + t[|t| - 1] - 48
  }

  lemma {:induction false} DigitsRead(n: nat)
    ensures Digits(n) != [] && AllDigits(Digits(n)) && DigitsValue(Digits(n)) == n
  {
    if n >= 10 {
      DigitsRead(n / 10);
      assert Digits(n)[..|Digits(n)| - 1] == Digits(n / 10);
    } else {
      assert [48 + n][..0] == [];
    }
  }

  /** What follows a value: nothing, a comma, or the end of an array or object. */
  predicate Closes(r: Text) { r == [] || r[0] == COMMA || r[0] == RBRACKET || r[0] == RBRACE }

  lemma DigitsEnd(a: Text, b: Text, r: Text, s: Text)
    requires AllDigits(a) && AllDigits(b) && Closes(r) && Closes(s) && a + r == b + s
    ensures a == b && r == s
  {
    assert forall i :: 0 <= i < |a| ==> (a + r)[i] == a[i];
    assert forall i :: 0 <= i < |b| ==> (b + s)[i] == b[i];
    assert r != [] ==> (a + r)[|a|] == r[0];
    assert s != [] ==> (b + s)[|b|] == s[0];
    assert |a| == |b|;
    assert (a + r)[|a|..] == r && (b + s)[|b|..] == s;
  }

  function Magnitude(n: int): nat { if n < 0 then -n else n }

  lemma DecimalFacts(n: int)
    ensures var a := Digits(Magnitude(n));
            && a != [] && AllDigits(a) && DigitsValue(a) == Magnitude(n)
            && Decimal(n) == (if n < 0 then [MINUS] else []) + a
            && (Decimal(n)[0] == MINUS <==> n < 0)
  {
    DigitsRead(Magnitude(n));
  }

  lemma NumbersEnd(m: int, n: int, r: Text, s: Text)
    requires Closes(r) && Closes(s) && Decimal(m) + r == Decimal(n) + s
    ensures m == n && r == s
  {
    hide Digits, DigitsValue, Closes, AllDigits, Decimal;
    var a, b := Digits(Magnitude(m)), Digits(Magnitude(n));
    DecimalFacts(m);
    DecimalFacts(n);
    assert (Decimal(m) + r)[0] == Decimal(m)[0] && (Decimal(n) + s)[0] == Decimal(n)[0];
    var k := if m < 0 then 1 else 0;
    assert (Decimal(m) + r)[k..] == a + r;
    assert (Decimal(n) + s)[k..] == b + s;
    DigitsEnd(a, b, r, s);
  }

  // ---------- strings ----------

  function HexDigit(d: int): CodeUnit
    requires 0 <= d < 16
  {
    if d < 10 then 48 + d else 87 + d
  }

  function HexOf(u: CodeUnit): int { if u < 58 then u - 48 else u - 87 }

  function UnicodeEscape(u: CodeUnit): Text {
    [BACKSLASH, 117, HexDigit(u / 16 / 16 / 16), HexDigit(u / 16 / 16 % 16), HexDigit(u / 16 % 16), HexDigit(u % 16)]
  }

  predicate High(u: CodeUnit) { 0xD800 <= u < 0xDC00 }
  predicate Low(u: CodeUnit) { 0xDC00 <= u < 0xE000 }

  /** One code unit that is not part of a surrogate pair. */
  function Escape(u: CodeUnit): Text {
    if u == QUOTE || u == BACKSLASH then [BACKSLASH, u]
    else if u == 8 then [BACKSLASH, 98]
    else if u == 12 then [BACKSLASH, 102]
    else if u == 10 then [BACKSLASH, 110]
    else if u == 13 then [BACKSLASH, 114]
    else if u == 9 then [BACKSLASH, 116]
    else if u < 32 || High(u) || Low(u) then UnicodeEscape(u)
    else [u]
  }

  predicate StartsWithPair(s: Text) { |s| >= 2 && High(s[0]) && Low(s[1]) }

  function Body(s: Text): Text {
    if s == [] then []
    else if StartsWithPair(s) then s[..2] + Body(s[2..])
    else Escape(s[0]) + Body(s[1..])
  }

  function Quoted(s: Text): Text { [QUOTE] + Body(s) + [QUOTE] }

  /** What a reader makes of a string body and what follows it. */
  function ReadBody(t: Text): (Text, Text)
    decreases |t|
  {
    if t == [] then ([], [])
    else if t[0] == QUOTE then ([], t[1..])
    else if t[0] != BACKSLASH then
      var (s, rest) := ReadBody(t[1..]); ([t[0]] + s, rest)
    else if |t| >= 6 && t[1] == 117 then
      var (s, rest) := ReadBody(t[6..]); ([HexValue(t[2], t[3], t[4], t[5])] + s, rest)
    else if |t| >= 2 then
      var (s, rest) := ReadBody(t[2..]); ([Unescaped(t[1])] + s, rest)
    else ([], [])
  }

  function Unescaped(u: CodeUnit): CodeUnit {
    if u == 98 then 8 else if u == 102 then 12 else if u == 110 then 10 else if u == 114 then 13
    else if u == 116 then 9 else u
  }

  function HexValue(a: CodeUnit, b: CodeUnit, c: CodeUnit, d: CodeUnit): CodeUnit {
    var value := ((HexOf(a) * 16 + HexOf(b)) * 16 + HexOf(c)) * 16 + HexOf(d);
    if 0 <= value < 0x10000 then value else 0
  }

  lemma HexRead(u: CodeUnit)
    ensures var e := UnicodeEscape(u); HexValue(e[2], e[3], e[4], e[5]) == u
  {
    assert forall d :: 0 <= d < 16 ==> HexOf(HexDigit(d)) == d;
    var q: int := u / 16;
    assert q / 16 / 16 * 16 + q / 16 % 16 == q / 16;
  }

  lemma ReadUnicodeEscape(u: CodeUnit, t: Text)
    ensures ReadBody(UnicodeEscape(u) + t) == ([u] + ReadBody(t).0, ReadBody(t).1)
  {
    hide HexValue, HexDigit;
    HexRead(u);
    var text := UnicodeEscape(u) + t;
    assert text[6..] == t;
    assert text[0] == BACKSLASH && text[1] == 117 && |text| >= 6;
  }

  lemma ReadShortEscape(u: CodeUnit, t: Text)
    requires u != 117
    ensures ReadBody([BACKSLASH, u] + t) == ([Unescaped(u)] + ReadBody(t).0, ReadBody(t).1)
  {
    assert ([BACKSLASH, u] + t)[2..] == t;
  }

  lemma ReadPlain(u: CodeUnit, t: Text)
    requires u != QUOTE && u != BACKSLASH
    ensures ReadBody([u] + t) == ([u] + ReadBody(t).0, ReadBody(t).1)
  {
    assert ([u] + t)[1..] == t;
  }

  lemma ReadEscape(u: CodeUnit, t: Text)
    ensures ReadBody(Escape(u) + t) == ([u] + ReadBody(t).0, ReadBody(t).1)
  {
    hide HexDigit, ReadBody, UnicodeEscape;
    var e := Escape(u);
    if e == UnicodeEscape(u) {
      ReadUnicodeEscape(u, t);
    } else if |e| == 2 {
      ReadShortEscape(e[1], t);
    } else {
      ReadPlain(u, t);
    }
  }

  lemma {:induction false} BodyReads(s: Text, r: Text)
    ensures ReadBody(Body(s) + ([QUOTE] + r)) == (s, r)
    decreases |s|
  {
    hide Escape;
    var end := [QUOTE] + r;
    if s == [] {
      assert Body(s) + end == end;
      After(QUOTE, r);
    } else if StartsWithPair(s) {
      BodyReads(s[2..], r);
      assert Body(s) == [s[0]] + ([s[1]] + Body(s[2..]));
      Reassociate([s[0]], [s[1]] + Body(s[2..]), end);
      Reassociate([s[1]], Body(s[2..]), end);
      ReadPlain(s[1], Body(s[2..]) + end);
      ReadPlain(s[0], [s[1]] + (Body(s[2..]) + end));
      assert s == [s[0]] + ([s[1]] + s[2..]);
    } else {
      BodyReads(s[1..], r);
      Reassociate(Escape(s[0]), Body(s[1..]), end);
      ReadEscape(s[0], Body(s[1..]) + end);
      assert s == [s[0]] + s[1..];
    }
  }

  lemma StringsEnd(s: Text, t: Text, r: Text, q: Text)
    requires Quoted(s) + r == Quoted(t) + q
    ensures s == t && r == q
  {
    hide Body, ReadBody;
    assert (Quoted(s) + r)[1..] == Body(s) + ([QUOTE] + r);
    assert (Quoted(t) + q)[1..] == Body(t) + ([QUOTE] + q);
    BodyReads(s, r);
    BodyReads(t, q);
  }

  // ---------- the canonical text ----------

  /** A key and the canonical text of its value. */
  datatype Entry = Entry(key: Text, text: Text)

  /** The order of Array.prototype.sort: by code units. */
  predicate Before(a: Text, b: Text) {
    if a == [] then b != []
    else b != [] && (a[0] < b[0] || (a[0] == b[0] && Before(a[1..], b[1..])))
  }

  function InsertEntry(es: seq<Entry>, e: Entry): seq<Entry> {
    if es == [] then [e]
    else if Before(es[0].key, e.key) then [es[0]] + InsertEntry(es[1..], e)
    else [e] + es
  }

  function SortEntries(es: seq<Entry>): seq<Entry> {
    if es == [] then [] else InsertEntry(SortEntries(es[1..]), es[0])
  }

  function Joined(es: seq<Entry>): Text {
    if es == [] then []
    else Quoted(es[0].key) + [COLON] + es[0].text + if |es| == 1 then [] else [COMMA] + Joined(es[1..])
  }

  function Stable(v: Json): Text {
    match v
    case Null => [110, 117, 108, 108]
    case Bool(b) => if b then [116, 114, 117, 101] else [102, 97, 108, 115, 101]
    case Num(n) => Decimal(n)
    case Str(s) => Quoted(s)
    case Arr(items) => [LBRACKET] + StableItems(items) + [RBRACKET]
    case Obj(fields) => [LBRACE] + Joined(SortEntries(Entries(fields))) + [RBRACE]
  }

  function StableItems(items: seq<Json>): Text {
    if items == [] then []
    else Stable(items[0]) + if |items| == 1 then [] else [COMMA] + StableItems(items[1..])
  }

  function Entries(fields: seq<Field>): (es: seq<Entry>)
    ensures |es| == |fields|
  {
    if fields == [] then [] else [Entry(fields[0].key, Stable(fields[0].value))] + Entries(fields[1..])
  }

  // ---------- equality up to key order ----------

  ghost predicate Same(v: Json, w: Json) {
    match v
    case Arr(xs) => w.Arr? && |xs| == |w.items| && forall i :: 0 <= i < |xs| ==> Same(xs[i], w.items[i])
    case Obj(fs) =>
      && w.Obj?
      && (forall f :: f in fs ==> HasPartner(f, w.fields))
      && (forall g :: g in w.fields ==> IsPartner(fs, g))
    case _ => v == w
  }

  ghost predicate HasPartner(f: Field, gs: seq<Field>) {
    exists g :: g in gs && f.key == g.key && Same(f.value, g.value)
  }

  ghost predicate IsPartner(fs: seq<Field>, g: Field) {
    exists f :: f in fs && f.key == g.key && Same(f.value, g.value)
  }

  /** Object keys are distinct, at every level. */
  ghost predicate WellFormed(v: Json) {
    match v
    case Arr(items) => forall i :: 0 <= i < |items| ==> WellFormed(items[i])
    case Obj(fields) =>
      && (forall i, j :: 0 <= i < j < |fields| ==> fields[i].key != fields[j].key)
      && (forall f :: f in fields ==> WellFormed(f.value))
    case _ => true
  }

  lemma {:induction false} EntriesMembers(fields: seq<Field>)
    ensures forall i :: 0 <= i < |fields| ==> Entries(fields)[i] == Entry(fields[i].key, Stable(fields[i].value))
  {
    if fields != [] {
      EntriesMembers(fields[1..]);
      forall i | 0 < i < |fields| ensures Entries(fields)[i] == Entry(fields[i].key, Stable(fields[i].value)) {
        assert fields[i] == fields[1..][i - 1];
      }
    }
  }

  lemma {:induction false} InsertPermutes(es: seq<Entry>, e: Entry)
    ensures multiset(InsertEntry(es, e)) == multiset(es) + multiset{e}
  {
    if es != [] {
      InsertPermutes(es[1..], e);
      assert es == [es[0]] + es[1..];
    }
  }

  lemma {:induction false} SortPermutes(es: seq<Entry>)
    ensures multiset(SortEntries(es)) == multiset(es)
  {
    if es != [] {
      SortPermutes(es[1..]);
      InsertPermutes(SortEntries(es[1..]), es[0]);
      assert es == [es[0]] + es[1..];
    }
  }

  // ---------- equal texts mean equal values ----------

  predicate HeadFits(v: Json, u: CodeUnit) {
    match v
    case Null => u == 110
    case Bool(b) => u == if b then 116 else 102
    case Num(_) => IsDigit(u) || u == MINUS
    case Str(_) => u == QUOTE
    case Arr(_) => u == LBRACKET
    case Obj(_) => u == LBRACE
  }

  lemma Head(v: Json)
    ensures Stable(v) != [] && HeadFits(v, Stable(v)[0])
  {
    if v.Num? { DigitsRead(Magnitude(v.n)); }
  }

  /** Texts that start alike belong to values of one kind. */
  lemma SameKind(v: Json, w: Json, r: Text, s: Text)
    requires Stable(v) + r == Stable(w) + s
    ensures match v
            case Null => w.Null?
            case Bool(b) => w == v
            case Num(_) => w.Num?
            case Str(_) => w.Str?
            case Arr(_) => w.Arr?
            case Obj(_) => w.Obj?
  {
    hide Stable;
    Head(v);
    Head(w);
    assert (Stable(v) + r)[0] == Stable(v)[0] && (Stable(w) + s)[0] == Stable(w)[0];
  }

  /** A value's text says where it ends, and which value it is up to key order. */
  lemma {:induction false} ValueEnds(v: Json, w: Json, r: Text, s: Text)
    requires Closes(r) && Closes(s) && Stable(v) + r == Stable(w) + s
    ensures r == s && Same(v, w)
    decreases v
  {
    hide Closes, Decimal, Quoted, Joined, SortEntries, Entries, StableItems;
    SameKind(v, w, r, s);
    match v
    case Null => Drop(Stable(v), r, s);
    case Bool(_) => Drop(Stable(v), r, s);
    case Num(m) => NumbersEnd(m, w.n, r, s);
    case Str(t) => StringsEnd(t, w.s, r, s);
    case Arr(xs) =>
      assert (Stable(v) + r)[1..] == StableItems(xs) + ([RBRACKET] + r);
      assert (Stable(w) + s)[1..] == StableItems(w.items) + ([RBRACKET] + s);
      ItemsEnd(xs, w.items, r, s);
    case Obj(fs) =>
      var es, hs := Sorted(fs), Sorted(w.fields);
      assert es[0..] == es && hs[0..] == hs;
      assert (Stable(v) + r)[1..] == Joined(es) + ([RBRACE] + r);
      assert (Stable(w) + s)[1..] == Joined(hs) + ([RBRACE] + s);
      EntriesEnd(fs, w.fields, 0, 0, r, s);
      FieldsMatch(fs, w.fields);
  }

  function ItemsTail(items: seq<Json>): Text
    requires items != []
  {
    if |items| == 1 then [] else [COMMA] + StableItems(items[1..])
  }

  lemma ItemsSplit(items: seq<Json>, p: Text)
    requires p != [] && p[0] == RBRACKET
    ensures items == [] ==> StableItems(items) + p == p
    ensures items != [] ==>
              var tail := ItemsTail(items) + p;
              && StableItems(items) + p == Stable(items[0]) + tail && (StableItems(items) + p)[0] != RBRACKET
              && tail[0] == (if |items| == 1 then RBRACKET else COMMA)
              && (|items| == 1 ==> tail == p)
              && (|items| > 1 ==> tail[1..] == StableItems(items[1..]) + p)
  {
    hide Stable;
    if items != [] {
      Head(items[0]);
      var v, tail := Stable(items[0]), ItemsTail(items);
      assert StableItems(items) == v + tail;
      Reassociate(v, tail, p);
      if |items| > 1 {
        Reassociate([COMMA], StableItems(items[1..]), p);
        After(COMMA, StableItems(items[1..]) + p);
      }
    }
  }

  lemma {:induction false} ItemsEnd(xs: seq<Json>, ys: seq<Json>, r: Text, s: Text)
    requires StableItems(xs) + ([RBRACKET] + r) == StableItems(ys) + ([RBRACKET] + s)
    ensures r == s && |xs| == |ys| && forall i :: 0 <= i < |xs| ==> Same(xs[i], ys[i])
    decreases xs
  {
    hide Stable, Same, StableItems, ItemsTail;
    var p, q := [RBRACKET] + r, [RBRACKET] + s;
    ItemsSplit(xs, p);
    ItemsSplit(ys, q);
    if xs == [] {
      Drop([RBRACKET], r, s);
    } else {
      ValueEnds(xs[0], ys[0], ItemsTail(xs) + p, ItemsTail(ys) + q);
      if |xs| == 1 {
        Drop([RBRACKET], r, s);
      } else {
        ItemsEnd(xs[1..], ys[1..], r, s);
        forall i | 0 <= i < |xs| ensures Same(xs[i], ys[i]) {
          if i > 0 { assert Same(xs[1..][i - 1], ys[1..][i - 1]); }
        }
      }
    }
  }

  function Sorted(fields: seq<Field>): seq<Entry> { SortEntries(Entries(fields)) }

  function EntryOf(f: Field): Entry { Entry(f.key, Stable(f.value)) }

  lemma EntryHasField(fields: seq<Field>, e: Entry) returns (f: Field)
    requires e in Sorted(fields)
    ensures f in fields && e == EntryOf(f)
  {
    hide Stable;
    EntriesMembers(fields);
    SortPermutes(Entries(fields));
    assert e in multiset(Entries(fields));
    var i :| 0 <= i < |fields| && Entries(fields)[i] == e;
    f := fields[i];
  }

  lemma FieldHasEntry(fields: seq<Field>, f: Field)
    requires f in fields
    ensures EntryOf(f) in Sorted(fields)
  {
    hide Stable;
    EntriesMembers(fields);
    SortPermutes(Entries(fields));
    var i :| 0 <= i < |fields| && fields[i] == f;
    assert Entries(fields)[i] in multiset(Entries(fields));
  }

  function EntriesTail(es: seq<Entry>): Text
    requires es != []
  {
    if |es| == 1 then [] else [COMMA] + Joined(es[1..])
  }

  lemma EntriesSplit(es: seq<Entry>, p: Text)
    requires p != [] && p[0] == RBRACE
    ensures es == [] ==> Joined(es) + p == p
    ensures es != [] ==>
              var tail := EntriesTail(es) + p;
              && Joined(es) + p == Quoted(es[0].key) + ([COLON] + (es[0].text + tail)) && (Joined(es) + p)[0] == QUOTE
              && tail[0] == (if |es| == 1 then RBRACE else COMMA)
              && (|es| == 1 ==> tail == p)
              && (|es| > 1 ==> tail[1..] == Joined(es[1..]) + p)
  {
    hide Quoted;
    if es != [] {
      var key, text, tail := Quoted(es[0].key), es[0].text, EntriesTail(es);
      QuotedHead(es[0].key);
      assert Joined(es) == ((key + [COLON]) + text) + tail;
      Reassociate((key + [COLON]) + text, tail, p);
      Reassociate(key + [COLON], text, tail + p);
      Reassociate(key, [COLON], text + (tail + p));
      if |es| > 1 {
        Reassociate([COMMA], Joined(es[1..]), p);
        After(COMMA, Joined(es[1..]) + p);
      }
    }
  }

  lemma {:induction false} EntriesEnd(fs: seq<Field>, gs: seq<Field>, i: nat, j: nat, r: Text, s: Text)
    requires i <= |Sorted(fs)| && j <= |Sorted(gs)|
    requires Joined(Sorted(fs)[i..]) + ([RBRACE] + r) == Joined(Sorted(gs)[j..]) + ([RBRACE] + s)
    ensures r == s && Sorted(fs)[i..] == Sorted(gs)[j..]
    decreases fs, |Sorted(fs)| - i
  {
    hide Stable, Quoted, Sorted, Joined, EntriesTail, Same;
    var p, q := [RBRACE] + r, [RBRACE] + s;
    var es, hs := Sorted(fs)[i..], Sorted(gs)[j..];
    EntriesSplit(es, p);
    EntriesSplit(hs, q);
    if es == [] {
      Drop([RBRACE], r, s);
    } else {
      var e, h := es[0], hs[0];
      var a, b := EntriesTail(es) + p, EntriesTail(hs) + q;
      StringsEnd(e.key, h.key, [COLON] + (e.text + a), [COLON] + (h.text + b));
      Drop([COLON], e.text + a, h.text + b);
      var f := EntryHasField(fs, e);
      var g := EntryHasField(gs, h);
      ValueEnds(f.value, g.value, a, b);
      Cancel(e.text, h.text, a);
      if |es| == 1 {
        Drop([RBRACE], r, s);
      } else {
        assert es[1..] == Sorted(fs)[i + 1..] && hs[1..] == Sorted(gs)[j + 1..];
        EntriesEnd(fs, gs, i + 1, j + 1, r, s);
        assert es == [e] + es[1..] && hs == [h] + hs[1..];
      }
    }
  }

  lemma QuotedHead(s: Text)
    ensures Quoted(s) != [] && Quoted(s)[0] == QUOTE
  {
  }

  lemma {:induction false} FieldsMatch(fs: seq<Field>, gs: seq<Field>)
    requires Sorted(fs) == Sorted(gs)
    ensures Same(Obj(fs), Obj(gs))
    decreases fs, 0
  {
    hide Stable, Sorted;
    forall f | f in fs ensures HasPartner(f, gs) {
      FieldHasEntry(fs, f);
      var g := EntryHasField(gs, EntryOf(f));
      ValueEnds(f.value, g.value, [], []);
    }
    forall g | g in gs ensures IsPartner(fs, g) {
      FieldHasEntry(gs, g);
      var f := EntryHasField(fs, EntryOf(g));
      ValueEnds(f.value, g.value, [], []);
    }
  }

  // ---------- equal values have equal texts ----------

  lemma {:induction false} BeforeIsTransitive(a: Text, b: Text, c: Text)
    requires Before(a, b) && Before(b, c)
    ensures Before(a, c)
  {
    if a != [] && a[0] == b[0] == c[0] { BeforeIsTransitive(a[1..], b[1..], c[1..]); }
  }

  lemma {:induction false} BeforeIsTotal(a: Text, b: Text)
    ensures Before(a, b) || Before(b, a) || a == b
    ensures !(Before(a, b) && Before(b, a)) && !Before(a, a)
  {
    if a != [] && b != [] && a[0] == b[0] {
      BeforeIsTotal(a[1..], b[1..]);
      assert a == [a[0]] + a[1..] && b == [b[0]] + b[1..];
    }
    if a != [] { BeforeIsTotal(a[1..], a[1..]); }
  }

  predicate Ordered(es: seq<Entry>) {
    forall i, j :: 0 <= i < j < |es| ==> Before(es[i].key, es[j].key)
  }

  lemma {:induction false} InsertKeepsOrder(es: seq<Entry>, e: Entry)
    requires Ordered(es) && forall i :: 0 <= i < |es| ==> es[i].key != e.key
    ensures Ordered(InsertEntry(es, e))
  {
    hide Before;
    if es == [] {
    } else if Before(es[0].key, e.key) {
      var rest := InsertEntry(es[1..], e);
      InsertKeepsOrder(es[1..], e);
      InsertPermutes(es[1..], e);
      forall j | 0 <= j < |rest| ensures Before(es[0].key, rest[j].key) {
        assert rest[j] in multiset(es[1..]) + multiset{e};
      }
      OrderedCons(es[0], rest);
    } else {
      BeforeIsTotal(es[0].key, e.key);
      forall j | 0 <= j < |es| ensures Before(e.key, es[j].key) {
        if j > 0 { BeforeIsTransitive(e.key, es[0].key, es[j].key); }
      }
      OrderedCons(e, es);
    }
  }

  lemma OrderedCons(e: Entry, es: seq<Entry>)
    requires Ordered(es) && forall j :: 0 <= j < |es| ==> Before(e.key, es[j].key)
    ensures Ordered([e] + es)
  {
    hide Before;
  }

  lemma {:induction false} SortOrders(es: seq<Entry>)
    requires forall i, j :: 0 <= i < j < |es| ==> es[i].key != es[j].key
    ensures Ordered(SortEntries(es))
  {
    hide InsertEntry, Before;
    if es != [] {
      var rest := SortEntries(es[1..]);
      SortOrders(es[1..]);
      SortPermutes(es[1..]);
      forall i | 0 <= i < |rest| ensures rest[i].key != es[0].key {
        assert rest[i] in multiset(es[1..]);
      }
      InsertKeepsOrder(rest, es[0]);
    }
  }

  /** Sorted by distinct keys, the entries come in one order only. */
  lemma {:induction false} OneOrder(a: seq<Entry>, b: seq<Entry>)
    requires Ordered(a) && Ordered(b) && forall e :: e in a <==> e in b
    ensures a == b
  {
    hide Before;
    assert b != [] ==> b[0] in a;
    if a != [] {
      assert a[0] in b && b != [] && b[0] in a;
      BeforeIsTotal(a[0].key, b[0].key);
      assert a[0] == b[0];
      forall e ensures e in a[1..] <==> e in b[1..] {
        NotInTail(a, e);
        NotInTail(b, e);
      }
      OneOrder(a[1..], b[1..]);
      assert a == [a[0]] + a[1..] && b == [b[0]] + b[1..];
    }
  }

  lemma NotInTail(a: seq<Entry>, e: Entry)
    requires Ordered(a) && a != []
    ensures e in a[1..] <==> e in a && e != a[0]
  {
    BeforeIsTotal(e.key, e.key);
    assert a == [a[0]] + a[1..];
  }

  lemma {:induction false} SameIsStable(v: Json, w: Json)
    requires WellFormed(v) && WellFormed(w) && Same(v, w)
    ensures Stable(v) == Stable(w)
    decreases v
  {
    match v
    case Arr(xs) => SameItems(xs, w.items);
    case Obj(fs) =>
      hide Joined, Same;
      SameFields(fs, w.fields);
    case _ =>
  }

  lemma {:induction false} SameItems(xs: seq<Json>, ys: seq<Json>)
    requires |xs| == |ys| && forall i :: 0 <= i < |xs| ==> WellFormed(xs[i]) && WellFormed(ys[i]) && Same(xs[i], ys[i])
    ensures StableItems(xs) == StableItems(ys)
    decreases xs
  {
    if xs != [] {
      SameIsStable(xs[0], ys[0]);
      SameItems(xs[1..], ys[1..]);
    }
  }

  lemma {:induction false} SameFields(fs: seq<Field>, gs: seq<Field>)
    requires WellFormed(Obj(fs)) && WellFormed(Obj(gs)) && Same(Obj(fs), Obj(gs))
    ensures Sorted(fs) == Sorted(gs)
    decreases fs
  {
    hide Stable, Sorted, Same, WellFormed;
    SortedFields(fs);
    SortedFields(gs);
    forall e ensures e in Sorted(fs) <==> e in Sorted(gs) {
      if e in Sorted(fs) {
        var f := EntryHasField(fs, e);
        var g := Partner(fs, gs, f);
        SameIsStable(f.value, g.value);
        FieldHasEntry(gs, g);
      }
      if e in Sorted(gs) {
        var g := EntryHasField(gs, e);
        var f := PartnerBack(fs, gs, g);
        SameIsStable(f.value, g.value);
        FieldHasEntry(fs, f);
      }
    }
    OneOrder(Sorted(fs), Sorted(gs));
  }

  lemma Partner(fs: seq<Field>, gs: seq<Field>, f: Field) returns (g: Field)
    requires WellFormed(Obj(fs)) && WellFormed(Obj(gs)) && Same(Obj(fs), Obj(gs)) && f in fs
    ensures g in gs && f.key == g.key && Same(f.value, g.value) && WellFormed(f.value) && WellFormed(g.value)
  {
    assert HasPartner(f, gs);
    g :| g in gs && f.key == g.key && Same(f.value, g.value);
  }

  lemma PartnerBack(fs: seq<Field>, gs: seq<Field>, g: Field) returns (f: Field)
    requires WellFormed(Obj(fs)) && WellFormed(Obj(gs)) && Same(Obj(fs), Obj(gs)) && g in gs
    ensures f in fs && f.key == g.key && Same(f.value, g.value) && WellFormed(f.value) && WellFormed(g.value)
  {
    assert IsPartner(fs, g);
    f :| f in fs && f.key == g.key && Same(f.value, g.value);
  }

  lemma SortedFields(fields: seq<Field>)
    requires WellFormed(Obj(fields))
    ensures Ordered(Sorted(fields))
  {
    EntriesMembers(fields);
    SortOrders(Entries(fields));
  }

  /** Two values have one canonical text exactly when they are equal up to the order of keys. */
  lemma CanonicalFormIsInjective(v: Json, w: Json)
    requires WellFormed(v) && WellFormed(w)
    ensures Stable(v) == Stable(w) <==> Same(v, w)
  {
    if Same(v, w) {
      SameIsStable(v, w);
    } else if Stable(v) == Stable(w) {
      ValueEnds(v, w, [], []);
      assert false;
    }
  }

  // ---------- the text, in the terms of its standard ----------

  /** `k` is where two texts first differ, or where the shorter ends; the first comes before. */
  predicate DiffersAt(a: Text, b: Text, k: nat) {
    && k <= |a| && k < |b| && (forall i :: 0 <= i < k ==> a[i] == b[i])
    && (k == |a| || a[k] < b[k])
  }

  /** The order of keys is lexicographic in code units. */
  lemma {:induction false} BeforeIsLexicographic(a: Text, b: Text)
    ensures Before(a, b) <==> exists k: nat :: DiffersAt(a, b, k)
  {
    if a != [] && b != [] && a[0] == b[0] {
      BeforeIsLexicographic(a[1..], b[1..]);
      if k: nat :| DiffersAt(a[1..], b[1..], k) {
        assert forall i :: 0 <= i < k + 1 ==> a[i] == if i == 0 then a[0] else a[1..][i - 1];
        assert forall i :: 0 <= i < k + 1 ==> b[i] == if i == 0 then b[0] else b[1..][i - 1];
        assert DiffersAt(a, b, k + 1);
      }
      if k: nat :| DiffersAt(a, b, k) {
        assert k > 0;
        assert DiffersAt(a[1..], b[1..], k - 1);
      }
    } else if Before(a, b) {
      assert DiffersAt(a, b, 0);
    }
  }

  /** The members of an object are printed in ascending order of their keys. */
  lemma KeysAscend(fields: seq<Field>, i: nat, j: nat)
    requires WellFormed(Obj(fields)) && i < j < |Sorted(fields)|
    ensures exists k: nat :: DiffersAt(Sorted(fields)[i].key, Sorted(fields)[j].key, k)
  {
    SortedFields(fields);
    BeforeIsLexicographic(Sorted(fields)[i].key, Sorted(fields)[j].key);
  }

  /** A few texts, spelled out. */
  lemma SpelledOut(s: Text, v: Json, w: Json)
    ensures Stable(Null) == ['n' as int, 'u' as int, 'l' as int, 'l' as int]
    ensures Stable(Bool(true)) == ['t' as int, 'r' as int, 'u' as int, 'e' as int]
    ensures Stable(Bool(false)) == ['f' as int, 'a' as int, 'l' as int, 's' as int, 'e' as int]
    ensures Stable(Str(s)) == ['"' as int] + Body(s) + ['"' as int]
    ensures Stable(Arr([])) == ['[' as int, ']' as int] && Stable(Obj([])) == ['{' as int, '}' as int]
    ensures Stable(Arr([v])) == ['[' as int] + Stable(v) + [']' as int]
    ensures Stable(Arr([v, w])) == ['[' as int] + (Stable(v) + ([',' as int] + Stable(w))) + [']' as int]
    ensures Stable(Obj([Field(s, v)])) == ['{' as int] + (Stable(Str(s)) + [':' as int] + Stable(v)) + ['}' as int]
  {
    hide Body, Decimal;
    assert [v, w][1..] == [w] && StableItems([w]) == Stable(w) && StableItems([v]) == Stable(v);
    assert StableItems([v, w]) == Stable(v) + ([COMMA] + StableItems([w]));
    var f := Field(s, v);
    assert Entries([f]) == [EntryOf(f)] by { assert [f][1..] == []; }
    assert SortEntries([EntryOf(f)]) == [EntryOf(f)] by { assert [EntryOf(f)][1..] == []; }
  }

  /** Section 7 of RFC 8259: a quote and a backslash behind a backslash, the five short escapes, four
      hexadecimal digits for the other control characters and for a lone surrogate, all else as it is. */
  lemma EscapesOfRfc8259(u: CodeUnit)
    ensures Escape('"' as int) == ['\\' as int, '"' as int] && Escape('\\' as int) == ['\\' as int, '\\' as int]
    ensures Escape(8) == ['\\' as int, 'b' as int] && Escape(9) == ['\\' as int, 't' as int]
    ensures Escape(10) == ['\\' as int, 'n' as int] && Escape(12) == ['\\' as int, 'f' as int]
    ensures Escape(13) == ['\\' as int, 'r' as int]
    ensures |Escape(u)| == 6 <==> (u < 32 && u != 8 && u != 9 && u != 10 && u != 12 && u != 13) || 0xD800 <= u < 0xE000
    ensures |Escape(u)| == 6 ==> Escape(u)[0] == '\\' as int && Escape(u)[1] == 'u' as int
    ensures |Escape(u)| == 1 ==> Escape(u) == [u]
  {
    hide HexDigit;
  }
}
