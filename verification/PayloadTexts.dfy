/** The three payload shapes whose canonical text is hashed. Strings are printed as UTF-16. The
    text of an instant is a parameter, assumed to tell different instants apart. */
module PayloadTexts {
  import opened Wrappers
  import opened Tables
  import opened Canonical

  // ---------- UTF-16 ----------

  function Utf16(s: string): Text {
    if s == "" then [] else Units(s[0]) + Utf16(s[1..])
  }

  /** A character beyond the basic plane is a surrogate pair. */
  function Units(c: char): Text {
    var u := c as int;
    if u < 0x10000 then [u] else [0xD800 + (u - 0x10000) / 0x400, 0xDC00 + (u - 0x10000) % 0x400]
  }

  /** Section 2.1 of RFC 2781: the two surrogates hold the upper and the lower ten bits. */
  lemma SurrogatesOfRfc2781(c: char)
    ensures c as int < 0x10000 ==> Units(c) == [c as int]
    ensures c as int >= 0x10000 ==>
              && |Units(c)| == 2 && 0xD800 <= Units(c)[0] < 0xDC00 <= Units(c)[1] < 0xE000
              && (Units(c)[0] as int - 0xD800) * 0x400 + (Units(c)[1] as int - 0xDC00) + 0x10000 == c as int
  {
  }

  lemma UnitsEnd(c: char, d: char, r: Text, s: Text)
    requires Units(c) + r == Units(d) + s
    ensures c == d && r == s
  {
    assert (Units(c) + r)[0] == Units(c)[0] && (Units(d) + s)[0] == Units(d)[0];
    assert |Units(c)| == 2 <==> 0xD800 <= Units(c)[0] < 0xDC00;
    assert |Units(d)| == 2 <==> 0xD800 <= Units(d)[0] < 0xDC00;
    if |Units(c)| == 2 {
      assert (Units(c) + r)[1] == Units(c)[1] && (Units(d) + s)[1] == Units(d)[1];
    }
    Drop(Units(c), r, s);
  }

  lemma {:induction false} Utf16IsInjective(a: string, b: string)
    requires Utf16(a) == Utf16(b)
    ensures a == b
  {
    if a != "" && b != "" {
      UnitsEnd(a[0], b[0], Utf16(a[1..]), Utf16(b[1..]));
      Utf16IsInjective(a[1..], b[1..]);
      assert a == [a[0]] + a[1..] && b == [b[0]] + b[1..];
    }
  }

  // ---------- the payloads ----------

  ghost predicate Injective(iso: int -> Text) {
    forall a, b :: iso(a) == iso(b) ==> a == b
  }

  /** The assumption can be met: plain decimal numbers already do. */
  lemma SomeInstantTextsAreInjective()
    ensures Injective(Decimal)
  {
    forall a: int, b: int | Decimal(a) == Decimal(b) ensures a == b {
      assert Decimal(a) + [] == Decimal(a) && Decimal(b) + [] == Decimal(b);
      NumbersEnd(a, b, [], []);
    }
  }

  /** A key of a payload object; keys are ASCII. */
  function Name(s: string): (t: Text)
    ensures |t| == |s| && forall i :: 0 <= i < |s| && s[i] as int < 0x10000 ==> t[i] == s[i] as int
  {
    seq(|s|, i requires 0 <= i < |s| => if s[i] as int < 0x10000 then s[i] as int else 0)
  }

  function NoteJson(note: Note): Json { if note.None? then Null else Str(Utf16(note.value)) }
  function InstantJson(t: Option<int>, iso: int -> Text): Json { if t.None? then Null else Str(iso(t.value)) }

  /** Ids go in as the client typed them; amounts travel as decimal strings. */
  function ToJson(p: Payload, iso: int -> Text): Json {
    match p
    case TransferPayload(receiver, amount, note) =>
      Obj([Field(Name("receiverUserId"), Str(Utf16(receiver))),
           Field(Name("amountMinor"), Str(Decimal(amount))),
           Field(Name("currency"), Str(Utf16("BDT"))),
           Field(Name("note"), NoteJson(note))])
    case CreatePayload(payer, amount, note, expiresAt) =>
      Obj([Field(Name("payerUserId"), Str(Utf16(payer))),
           Field(Name("amountMinor"), Str(Decimal(amount))),
           Field(Name("currency"), Str(Utf16("BDT"))),
           Field(Name("note"), NoteJson(note)),
           Field(Name("expiresAt"), InstantJson(expiresAt, iso))])
    case ResolvePayload(request) =>
      Obj([Field(Name("requestId"), Str(Utf16(request)))])
  }

  /** The keys' first letters tell them apart. */
  lemma PayloadIsWellFormed(p: Payload, iso: int -> Text)
    ensures WellFormed(ToJson(p, iso))
  {
    hide Utf16, Decimal;
    var fields := ToJson(p, iso).fields;
    forall i, j | 0 <= i < j < |fields| ensures fields[i].key != fields[j].key {
      assert fields[i].key[0] != fields[j].key[0];
    }
  }

  lemma SameValueUnderKey(fs: seq<Field>, gs: seq<Field>, i: nat, j: nat)
    requires Same(Obj(fs), Obj(gs)) && WellFormed(Obj(gs))
    requires i < |fs| && j < |gs| && fs[i].key == gs[j].key
    ensures Same(fs[i].value, gs[j].value)
  {
    hide WellFormed;
    assert HasPartner(fs[i], gs);
    var g :| g in gs && fs[i].key == g.key && Same(fs[i].value, g.value);
    var k :| 0 <= k < |gs| && gs[k] == g;
    DistinctKeys(gs, j, k);
  }

  lemma DistinctKeys(gs: seq<Field>, j: nat, k: nat)
    requires WellFormed(Obj(gs)) && j < |gs| && k < |gs| && gs[j].key == gs[k].key
    ensures j == k
  {
  }

  lemma KeyIsShared(fs: seq<Field>, gs: seq<Field>, i: nat) returns (j: nat)
    requires Same(Obj(fs), Obj(gs)) && i < |fs|
    ensures j < |gs| && fs[i].key == gs[j].key
  {
    assert HasPartner(fs[i], gs);
    var g :| g in gs && fs[i].key == g.key && Same(fs[i].value, g.value);
    j :| 0 <= j < |gs| && gs[j] == g;
  }

  lemma SameShape(p: Payload, q: Payload, iso: int -> Text)
    requires Same(ToJson(p, iso), ToJson(q, iso))
    ensures p.TransferPayload? == q.TransferPayload? && p.CreatePayload? == q.CreatePayload?
  {
    hide Same, Utf16, Decimal;
    var fs, gs := ToJson(p, iso).fields, ToJson(q, iso).fields;
    var j := KeyIsShared(fs, gs, 0);
    assert |fs[0].key| == |gs[j].key| && fs[0].key[0] == gs[j].key[0];
  }

  lemma SameString(a: Text, b: Text)
    requires Same(Str(a), Str(b))
    ensures a == b && a + [] == a
  {
  }

  lemma SameNote(a: Note, b: Note)
    requires Same(NoteJson(a), NoteJson(b))
    ensures a == b
  {
    if a.Some? && b.Some? { Utf16IsInjective(a.value, b.value); }
  }

  lemma SameInstant(a: Option<int>, b: Option<int>, iso: int -> Text)
    requires Injective(iso) && Same(InstantJson(a, iso), InstantJson(b, iso))
    ensures a == b
  {
    if a.Some? && b.Some? {
      var x, y := a.value, b.value;
      assert iso(x) == iso(y);
    }
  }

  lemma SamePayload(p: Payload, q: Payload, iso: int -> Text)
    requires Injective(iso)
    ensures Same(ToJson(p, iso), ToJson(q, iso)) ==> p == q
  {
    hide WellFormed, Utf16, Name, Decimal, Same, NoteJson, InstantJson;
    if Same(ToJson(p, iso), ToJson(q, iso)) {
      PayloadIsWellFormed(q, iso);
      SameShape(p, q, iso);
      var fs, gs := ToJson(p, iso).fields, ToJson(q, iso).fields;
      SameValueUnderKey(fs, gs, 0, 0);
      SameString(fs[0].value.s, gs[0].value.s);
      match p
      case ResolvePayload(request) => Utf16IsInjective(request, q.request);
      case TransferPayload(receiver, amount, note) =>
        Utf16IsInjective(receiver, q.receiver);
        SameMiddle(fs, gs, amount, q.amount, note, q.note);
      case CreatePayload(payer, amount, note, expiresAt) =>
        Utf16IsInjective(payer, q.payer);
        SameMiddle(fs, gs, amount, q.amount, note, q.note);
        SameValueUnderKey(fs, gs, 4, 4);
        SameInstant(expiresAt, q.expiresAt, iso);
    }
  }

  lemma SameMiddle(fs: seq<Field>, gs: seq<Field>, m: int, n: int, a: Note, b: Note)
    requires Same(Obj(fs), Obj(gs)) && WellFormed(Obj(gs)) && |fs| >= 4 && |gs| >= 4
    requires fs[1] == Field(fs[1].key, Str(Decimal(m))) && gs[1] == Field(fs[1].key, Str(Decimal(n)))
    requires fs[3] == Field(fs[3].key, NoteJson(a)) && gs[3] == Field(fs[3].key, NoteJson(b))
    ensures m == n && a == b
  {
    hide WellFormed, Utf16, Decimal, Same, NoteJson;
    SameValueUnderKey(fs, gs, 1, 1);
    SameString(Decimal(m), Decimal(n));
    NumbersEnd(m, n, [], []);
    SameValueUnderKey(fs, gs, 3, 3);
    SameNote(a, b);
  }

  /** Two payloads have one canonical text exactly when they are the same payload. */
  lemma PayloadTextsAreInjective(p: Payload, q: Payload, iso: int -> Text)
    requires Injective(iso)
    ensures Stable(ToJson(p, iso)) == Stable(ToJson(q, iso)) <==> p == q
  {
    hide Stable, WellFormed, Utf16, Decimal, Same;
    PayloadIsWellFormed(p, iso);
    PayloadIsWellFormed(q, iso);
    CanonicalFormIsInjective(ToJson(p, iso), ToJson(q, iso));
    SamePayload(p, q, iso);
  }
}
