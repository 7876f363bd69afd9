/** Money as text: the two printers, the parser, and that they agree. Amounts are integers in
    minor units; the arithmetic of the parser is on doubles. */
module Money {
  import opened Wrappers

  const MINOR_PER_MAJOR := 100
  const MAX_AMOUNT_MINOR: nat := 1_000_000_000_000
  const MAX_SAFE_INTEGER: nat := 0x1F_FFFF_FFFF_FFFF
  const TAKA := "\U{09F3}"

  // ---------- digits ----------

  predicate IsDigit(c: char) { '0' <= c <= '9' }

  predicate AllDigits(s: string) { forall i :: 0 <= i < |s| ==> IsDigit(s[i]) }

  function DigitChar(d: nat): (c: char)
    requires d < 10
    ensures IsDigit(c)
  {
    '0' + d as char
  }

  /** The decimal digits of `n`, without leading zeros. */
  function DigitsOf(n: nat): (s: string)
    ensures s != "" && AllDigits(s)
  {
    if n < 10 then [DigitChar(n)] else DigitsOf(n / 10) + [DigitChar(n % 10)]
  }

  /** The number a digit string denotes. */
  function Value(s: string): nat
    requires AllDigits(s)
  {
    if s == "" then 0 else Value(s[..|s| - 1]) * 10 + (s[|s| - 1] - '0') as nat
  }

  lemma {:induction false} ValueOfDigits(n: nat)
    ensures Value(DigitsOf(n)) == n
  {
    if n >= 10 {
      ValueOfDigits(n / 10);
      var s := DigitsOf(n);
      assert s[..|s| - 1] == DigitsOf(n / 10);
    } else {
      assert DigitsOf(n)[..0] == "";
    }
  }

  /** `padStart(width, '0')`. */
  function PadStart(s: string, width: nat): string
    decreases width - |s|
  {
    if |s| >= width then s else PadStart("0" + s, width)
  }

  /** `padEnd(2, '0')`. */
  function PadEnd2(s: string): string {
    if |s| >= 2 then s else if |s| == 1 then s + "0" else s + "00"
  }

  // ---------- the web printer ----------

  /** `toLocaleString('en-US')` of an integer: groups of three, from the right. */
  function Grouped(n: nat): string {
    if n < 1000 then DigitsOf(n) else Grouped(n / 1000) + "," + PadStart(DigitsOf(n % 1000), 3)
  }

  function FormatMinorAmount(amountMinor: int): string {
    var absolute := if amountMinor < 0 then -amountMinor else amountMinor;
    (if amountMinor < 0 then "-" else "")
    + Grouped(absolute / MINOR_PER_MAJOR) + "." + PadStart(DigitsOf(absolute % MINOR_PER_MAJOR), 2)
  }

  function FormatBdt(amountMinor: int): string {
    if amountMinor < 0 then "-" + TAKA + FormatMinorAmount(-amountMinor) else TAKA + FormatMinorAmount(amountMinor)
  }

  // ---------- the API printer ----------

  /** Where the expression \B(?=(\d{3})+(?!\d)) matches in a string of digits: inside the string,
      followed by some number of whole triples that no further digit follows. */
  predicate Boundary(s: string, i: nat) {
    0 < i < |s| && exists k :: 1 <= k <= |s| && TriplesEnd(s, i, k)
  }

  predicate TriplesEnd(s: string, i: nat, k: nat) {
    && i + 3 * k <= |s|
    && (forall j :: i <= j < i + 3 * k ==> IsDigit(s[j]))
    && !(i + 3 * k < |s| && IsDigit(s[i + 3 * k]))
  }

  /** `replace(boundary, ',')` on the first `n` characters. */
  function InsertCommas(s: string, n: nat): string
    requires n <= |s|
  {
    if n == 0 then "" else InsertCommas(s, n - 1) + (if Boundary(s, n - 1) then "," else "") + [s[n - 1]]
  }

  function FormatMinorUnits(amountMinor: int, currency: string): string {
    var absolute := if amountMinor < 0 then -amountMinor else amountMinor;
    var major := DigitsOf(absolute / MINOR_PER_MAJOR);
    (if amountMinor < 0 then "-" else "")
    + (if currency == "BDT" then TAKA else currency + " ")
    + InsertCommas(major, |major|) + "." + PadStart(DigitsOf(absolute % MINOR_PER_MAJOR), 2)
  }

  // ---------- the printers agree ----------

  lemma BoundaryIsEveryThird(s: string, i: nat)
    requires AllDigits(s)
    ensures Boundary(s, i) <==> 0 < i < |s| && (|s| - i) % 3 == 0
  {
    if 0 < i < |s| && (|s| - i) % 3 == 0 {
      assert TriplesEnd(s, i, (|s| - i) / 3);
    }
  }

  lemma PadThree(n: nat)
    requires n < 1000
    ensures PadStart(DigitsOf(n), 3) == [DigitChar(n / 100), DigitChar(n / 10 % 10), DigitChar(n % 10)]
  {
    if n < 10 {
      assert PadStart("0" + DigitsOf(n), 3) == "0" + ("0" + DigitsOf(n));
    } else if n < 100 {
      assert DigitsOf(n) == [DigitChar(n / 10), DigitChar(n % 10)];
    } else {
      assert DigitsOf(n / 10) == [DigitChar(n / 100), DigitChar(n / 10 % 10)];
    }
  }

  lemma Quotients(n: nat)
    ensures n / 100 == n / 10 / 10 && n / 1000 == n / 100 / 10
    ensures n % 1000 / 100 == n / 100 % 10 && n % 1000 / 10 % 10 == n / 10 % 10 && n % 1000 % 10 == n % 10
  {
    var q, r := n / 1000, n % 1000;
    assert n == 1000 * q + r;
    assert n / 10 == 100 * q + r / 10 && n / 100 == 10 * q + r / 100;
  }

  lemma LastThreeDigits(n: nat)
    requires n >= 1000
    ensures DigitsOf(n) == DigitsOf(n / 1000) + PadStart(DigitsOf(n % 1000), 3)
  {
    hide PadStart;
    PadThree(n % 1000);
    Quotients(n);
    AppendDigit(n);
    AppendDigit(n / 10);
    AppendDigit(n / 100);
  }

  lemma AppendDigit(n: nat)
    requires n >= 10
    ensures DigitsOf(n) == DigitsOf(n / 10) + [DigitChar(n % 10)]
  {
  }

  /** A commas-every-three prefix does not depend on a triple appended behind. */
  lemma {:induction false} CommasBeforeTriple(a: string, b: string, n: nat)
    requires AllDigits(a) && AllDigits(b) && |b| == 3 && n <= |a|
    ensures InsertCommas(a + b, n) == InsertCommas(a, n)
  {
    if n > 0 {
      CommasBeforeTriple(a, b, n - 1);
      BoundaryIsEveryThird(a, n - 1);
      BoundaryIsEveryThird(a + b, n - 1);
    }
  }

  lemma {:induction false} GroupingsAgree(n: nat)
    ensures InsertCommas(DigitsOf(n), |DigitsOf(n)|) == Grouped(n)
  {
    var s := DigitsOf(n);
    if n < 1000 {
      SmallNumbers(n);
      forall i | 0 <= i < |s| ensures !Boundary(s, i) { BoundaryIsEveryThird(s, i); }
      NoCommas(s, |s|);
    } else {
      var a, b := DigitsOf(n / 1000), PadStart(DigitsOf(n % 1000), 3);
      LastThreeDigits(n);
      PadThree(n % 1000);
      GroupingsAgree(n / 1000);
      CommasBeforeTriple(a, b, |a|);
      BoundaryIsEveryThird(s, |a|);
      BoundaryIsEveryThird(s, |a| + 1);
      BoundaryIsEveryThird(s, |a| + 2);
      assert s == a + b && |s| == |a| + 3;
      assert InsertCommas(s, |a| + 1) == Grouped(n / 1000) + "," + [b[0]];
      assert InsertCommas(s, |a| + 2) == Grouped(n / 1000) + "," + [b[0]] + [b[1]];
      assert InsertCommas(s, |a| + 3) == Grouped(n / 1000) + "," + [b[0]] + [b[1]] + [b[2]];
      assert b == [b[0]] + [b[1]] + [b[2]];
    }
  }

  lemma SmallNumbers(n: nat)
    requires n < 1000
    ensures |DigitsOf(n)| <= 3
  {
    if n >= 100 {
      AppendDigit(n);
      AppendDigit(n / 10);
      assert n / 10 / 10 < 10;
    } else if n >= 10 {
      AppendDigit(n);
    }
  }

  lemma {:induction false} NoCommas(s: string, n: nat)
    requires n <= |s| && forall i :: 0 <= i < n ==> !Boundary(s, i)
    ensures InsertCommas(s, n) == s[..n]
  {
    if n > 0 {
      NoCommas(s, n - 1);
      assert s[..n] == s[..n - 1] + [s[n - 1]];
    }
  }

  /** The notification text and the web page print every amount alike, negative ones included. */
  lemma PrintersAgree(n: int)
    ensures FormatMinorUnits(n, "BDT") == FormatBdt(n)
  {
    hide Grouped, DigitsOf, PadStart, InsertCommas;
    var absolute := if n < 0 then -n else n;
    GroupingsAgree(absolute / MINOR_PER_MAJOR);
  }

  // ---------- the parser ----------

  datatype ParseError = EnterAmount | NotValid | TooLarge | NotPositive | AboveMaximum

  predicate IsWhite(c: char) {
    c in " \t\n\r\U{000B}\U{000C}\U{00A0}\U{1680}\U{2028}\U{2029}\U{202F}\U{205F}\U{3000}\U{FEFF}"
    || '\U{2000}' <= c <= '\U{200A}'
  }

  function Trim(s: string): string {
    if s != "" && IsWhite(s[0]) then Trim(s[1..])
    else if s != "" && IsWhite(s[|s| - 1]) then Trim(s[..|s| - 1])
    else s
  }

  /** `replace(/,/g, '')`. */
  function DropCommas(s: string): string {
    if s == "" then ""
    else DropCommas(s[..|s| - 1]) + if s[|s| - 1] == ',' then "" else [s[|s| - 1]]
  }

  function Clean(raw: string): string { DropCommas(Trim(raw)) }

  /** The position of the first '.', or the length. */
  function DotAt(s: string): (d: nat)
    ensures d <= |s| && (d < |s| ==> s[d] == '.')
    ensures forall i :: 0 <= i < d ==> s[i] != '.'
  {
    if s == "" || s[0] == '.' then 0 else 1 + DotAt(s[1..])
  }

  function MajorPart(s: string): string { s[..DotAt(s)] }
  function MinorPart(s: string): string { if DotAt(s) < |s| then s[DotAt(s) + 1..] else "" }

  /** Matching ^\d*(\.\d{0,2})?$. */
  predicate Matches(s: string) {
    AllDigits(MajorPart(s)) && AllDigits(MinorPart(s)) && |MinorPart(s)| <= 2
  }

  /** `rd` is the rounding of double arithmetic on non-negative integers; a result beyond the
      range of doubles counts as any number above it. */
  function ParseBdtToMinor(rd: nat -> nat, raw: string): Result<nat, ParseError> {
    var cleaned := Clean(raw);
    if cleaned == "" then Err(EnterAmount)
    else if !Matches(cleaned) then Err(NotValid)
    else
      var majorPart, minorPart := MajorPart(cleaned), MinorPart(cleaned);
      if majorPart == "" && minorPart == "" then Err(EnterAmount)
      else
        assert AllDigits(PadEnd2(minorPart));
        var amount := rd(rd(rd(Value(majorPart)) * MINOR_PER_MAJOR) + Value(PadEnd2(minorPart)));
        if amount > MAX_SAFE_INTEGER then Err(TooLarge)
        else if amount <= 0 then Err(NotPositive)
        else if amount > MAX_AMOUNT_MINOR then Err(AboveMaximum)
        else Ok(amount)
  }

  /** What is used of double arithmetic: it keeps order, and is exact up to 2^53. */
  ghost predicate DoubleRounding(rd: nat -> nat) {
    && (forall a: nat, b: nat :: a <= b ==> rd(a) <= rd(b))
    && (forall a: nat :: a <= MAX_SAFE_INTEGER + 1 ==> rd(a) == a)
  }

  /** Rounding can never turn a wrong amount into an accepted one. */
  lemma RoundingIsHarmless(rd: nat -> nat, major: nat, minor: nat)
    requires DoubleRounding(rd)
    ensures var amount := rd(rd(rd(major) * MINOR_PER_MAJOR) + minor); var exact := major * MINOR_PER_MAJOR + minor;
            if exact <= MAX_SAFE_INTEGER then amount == exact else amount > MAX_SAFE_INTEGER
  {
    var limit := MAX_SAFE_INTEGER + 1;
    var exact := major * MINOR_PER_MAJOR + minor;
    if exact > MAX_SAFE_INTEGER {
      if major > limit {
        assert rd(limit) <= rd(major);
        assert rd(limit) <= rd(rd(major) * MINOR_PER_MAJOR);
      } else if major * MINOR_PER_MAJOR > limit {
        assert rd(limit) <= rd(major * MINOR_PER_MAJOR);
      }
      assert rd(rd(major) * MINOR_PER_MAJOR) + minor >= limit;
      assert rd(limit) <= rd(rd(rd(major) * MINOR_PER_MAJOR) + minor);
    }
  }

  // ---------- what the parser accepts ----------

  /** The grammar, stated by its parts: digits, optionally a point and at most two more digits. */
  ghost predicate InGrammar(s: string, major: string, minor: string) {
    AllDigits(major) && AllDigits(minor) && |minor| <= 2 && (s == major + "." + minor || (s == major && minor == ""))
  }

  /** The decimal number with these parts. */
  function Denoted(major: string, minor: string): real
    requires AllDigits(major) && AllDigits(minor) && |minor| <= 2
  {
    Value(major) as real
    + Value(minor) as real / (if |minor| == 0 then 1.0 else if |minor| == 1 then 10.0 else 100.0)
  }

  lemma PartsAreUnique(s: string, major: string, minor: string)
    requires InGrammar(s, major, minor)
    ensures Matches(s) && MajorPart(s) == major && MinorPart(s) == minor
  {
    assert forall i :: 0 <= i < |major| ==> s[i] == major[i];
    assert s == major + "." + minor ==> s[|major|] == '.';
    assert DotAt(s) == |major|;
  }

  lemma PartsMatch(s: string)
    requires Matches(s)
    ensures InGrammar(s, MajorPart(s), MinorPart(s))
  {
    if DotAt(s) < |s| {
      assert s == MajorPart(s) + "." + MinorPart(s);
    } else {
      assert s[..DotAt(s)] == s;
    }
  }

  lemma PaddingScales(minor: string)
    requires AllDigits(minor) && |minor| <= 2
    ensures AllDigits(PadEnd2(minor))
    ensures Value(PadEnd2(minor)) == Value(minor) * (if |minor| == 0 then 100 else if |minor| == 1 then 10 else 1)
  {
    var p := PadEnd2(minor);
    if |minor| < 2 { assert p[..|p| - 1] == if |minor| == 1 then minor else "0"; }
    if |minor| == 0 { assert "0"[..0] == "" && Value("0") == 0; }
  }

  /** The parser accepts exactly the texts whose cleaned form is in the grammar, has a digit and
      denotes an amount in range, and answers with 100 times the number denoted. */
  lemma ParserIsExact(rd: nat -> nat, raw: string, n: nat)
    requires DoubleRounding(rd)
    ensures ParseBdtToMinor(rd, raw) == Ok(n)
            <==> 1 <= n <= 1_000_000_000_000
                 && exists major, minor :: InGrammar(Clean(raw), major, minor) && (major != "" || minor != "")
                                           && n as real == 100.0 * Denoted(major, minor)
  {
    var s := Clean(raw);
    if Matches(s) {
      var a, b := MajorPart(s), MinorPart(s);
      PartsMatch(s);
      PaddingScales(b);
      RoundingIsHarmless(rd, Value(a), Value(PadEnd2(b)));
      var exact := Value(a) * 100 + Value(PadEnd2(b));
      assert exact as real == 100.0 * Denoted(a, b);
      forall major, minor | InGrammar(s, major, minor) ensures major == a && minor == b {
        PartsAreUnique(s, major, minor);
      }
      assert s == "" ==> a == "" && b == "";
    } else {
      forall major, minor ensures !InGrammar(s, major, minor) {
        if InGrammar(s, major, minor) { PartsAreUnique(s, major, minor); }
      }
    }
  }

  // ---------- the round trip ----------

  lemma {:induction false} DropCommasAppends(a: string, b: string)
    ensures DropCommas(a + b) == DropCommas(a) + DropCommas(b)
  {
    if b == "" {
      assert a + b == a;
    } else {
      DropCommasAppends(a, b[..|b| - 1]);
      assert (a + b)[..|a + b| - 1] == a + b[..|b| - 1];
    }
  }

  lemma {:induction false} NothingToDrop(s: string)
    requires forall i :: 0 <= i < |s| ==> s[i] != ','
    ensures DropCommas(s) == s
  {
    if s != "" { NothingToDrop(s[..|s| - 1]); }
  }

  lemma {:induction false} UngroupedDigits(n: nat)
    ensures DropCommas(Grouped(n)) == DigitsOf(n)
    ensures Grouped(n) != "" && IsDigit(Grouped(n)[0])
  {
    if n < 1000 {
      NothingToDrop(DigitsOf(n));
    } else {
      var a, b := Grouped(n / 1000), PadStart(DigitsOf(n % 1000), 3);
      UngroupedDigits(n / 1000);
      PadThree(n % 1000);
      NothingToDrop(b);
      DropCommasAppends(a + ",", b);
      DropCommasAppends(a, ",");
      assert DropCommas(",") == "" by { assert ","[..0] == ""; }
      LastThreeDigits(n);
    }
  }

  lemma PadTwo(n: nat)
    requires n < 100
    ensures PadStart(DigitsOf(n), 2) == [DigitChar(n / 10), DigitChar(n % 10)]
    ensures Value(PadStart(DigitsOf(n), 2)) == n
  {
    var p := [DigitChar(n / 10), DigitChar(n % 10)];
    if n < 10 {
      assert PadStart(DigitsOf(n), 2) == "0" + DigitsOf(n);
    } else {
      assert DigitsOf(n / 10) == [DigitChar(n / 10)];
    }
    assert p[..1] == [DigitChar(n / 10)] && [DigitChar(n / 10)][..0] == "";
    assert Value(p[..1]) == n / 10;
  }

  lemma NothingToTrim(s: string)
    requires s != "" && !IsWhite(s[0]) && !IsWhite(s[|s| - 1])
    ensures Trim(s) == s
  {
  }

  lemma DigitsAreNotWhite(c: char)
    requires IsDigit(c)
    ensures !IsWhite(c) && c != ','
  {
  }

  lemma PrintedParts(n: nat)
    ensures FormatMinorAmount(n) == Grouped(n / 100) + ("." + PadStart(DigitsOf(n % 100), 2))
  {
    hide Grouped, DigitsOf, PadStart;
    assert FormatMinorAmount(n) == "" + Grouped(n / 100) + "." + PadStart(DigitsOf(n % 100), 2);
  }

  lemma CleanOfPrinted(n: nat)
    ensures Clean(FormatMinorAmount(n)) == DigitsOf(n / 100) + "." + PadStart(DigitsOf(n % 100), 2)
  {
    hide Grouped, DigitsOf, PadStart, FormatMinorAmount, DropCommas, Trim, IsWhite, Value;
    var minor := PadStart(DigitsOf(n % 100), 2);
    var text := FormatMinorAmount(n);
    PrintedParts(n);
    UngroupedDigits(n / 100);
    PadTwo(n % 100);
    DigitsAreNotWhite(text[0]);
    DigitsAreNotWhite(minor[1]);
    assert text[|text| - 1] == minor[1];
    NothingToTrim(text);
    DigitsAreNotWhite(minor[0]);
    NothingToDrop("." + minor);
    DropCommasAppends(Grouped(n / 100), "." + minor);
    assert DigitsOf(n / 100) + ("." + minor) == DigitsOf(n / 100) + "." + minor;
  }

  lemma DenotedSum(a: nat, b: nat, major: string, minor: string)
    requires AllDigits(major) && AllDigits(minor) && |minor| == 2 && Value(major) == a && Value(minor) == b
    ensures 100.0 * Denoted(major, minor) == (a * 100 + b) as real
  {
    hide Value;
  }

  /** Printing and parsing are inverse on every amount the API accepts. */
  lemma RoundTrip(rd: nat -> nat, n: nat)
    requires DoubleRounding(rd) && 1 <= n <= MAX_AMOUNT_MINOR
    ensures ParseBdtToMinor(rd, FormatMinorAmount(n)) == Ok(n)
  {
    hide PadStart, DigitsOf, Clean, Grouped, FormatMinorAmount, ParseBdtToMinor, DoubleRounding, Denoted, Value;
    var major, minor := DigitsOf(n / 100), PadStart(DigitsOf(n % 100), 2);
    CleanOfPrinted(n);
    PadTwo(n % 100);
    ValueOfDigits(n / 100);
    DenotedSum(n / 100, n % 100, major, minor);
    assert InGrammar(Clean(FormatMinorAmount(n)), major, minor);
    ParserIsExact(rd, FormatMinorAmount(n), n);
  }

  // ---------- white space and commas ----------

  predicate AllWhite(s: string) { forall i :: 0 <= i < |s| ==> IsWhite(s[i]) }

  /** Nothing to trim at either end. */
  predicate Bare(s: string) { s == "" || (!IsWhite(s[0]) && !IsWhite(s[|s| - 1])) }

  lemma {:induction false} TrimPadded(p: string, m: string, q: string)
    requires AllWhite(p) && AllWhite(q) && Bare(m)
    ensures Trim(p + m + q) == m
    decreases |p| + |q|
  {
    hide IsWhite;
    var s := p + m + q;
    if p != "" {
      TrimPadded(p[1..], m, q);
      assert s[0] == p[0] && s[1..] == p[1..] + m + q;
    } else if q != "" && m == "" {
      TrimPadded("", m, q[1..]);
      assert s[0] == q[0] && s[1..] == "" + m + q[1..];
    } else if q != "" {
      TrimPadded("", m, q[..|q| - 1]);
      assert s[0] == m[0] && s[|s| - 1] == q[|q| - 1] && s[..|s| - 1] == "" + m + q[..|q| - 1];
    } else {
      assert s == m;
    }
  }

  lemma {:induction false} Unpad(s: string) returns (p: string, m: string, q: string)
    ensures s == p + m + q && AllWhite(p) && AllWhite(q) && Bare(m)
    ensures m == "" <==> AllWhite(s)
    decreases |s|
  {
    hide IsWhite;
    if s != "" && IsWhite(s[0]) {
      p, m, q := Unpad(s[1..]);
      p := [s[0]] + p;
      assert s == [s[0]] + s[1..];
    } else if s != "" && IsWhite(s[|s| - 1]) {
      p, m, q := Unpad(s[..|s| - 1]);
      q := q + [s[|s| - 1]];
      assert s == s[..|s| - 1] + [s[|s| - 1]];
    } else {
      p, m, q := "", s, "";
    }
  }

  /** White space around the text changes nothing; spaces, tabs and line breaks are white. */
  lemma WhiteSpaceAroundIsIgnored(rd: nat -> nat, before: string, raw: string, after: string)
    requires AllWhite(before) && AllWhite(after)
    ensures ParseBdtToMinor(rd, before + raw + after) == ParseBdtToMinor(rd, raw)
    ensures IsWhite(' ') && IsWhite('\t') && IsWhite('\n') && IsWhite('\r') && IsWhite('\U{00A0}')
  {
    hide Trim;
    var p, m, q := Unpad(raw);
    TrimPadded(p, m, q);
    TrimPadded(before + p, m, q + after);
    assert before + raw + after == (before + p) + m + (q + after);
  }

  /** The comma comes to stand between the text and white space that would have been trimmed. */
  predicate Separates(a: string, b: string) {
    || (AllWhite(a) && !AllWhite(b) && IsWhite(b[0]))
    || (AllWhite(b) && !AllWhite(a) && IsWhite(a[|a| - 1]))
  }

  lemma WhiteEndsAreNotValid(rd: nat -> nat, raw: string)
    requires var s := Clean(raw); s != "" && (IsWhite(s[0]) || IsWhite(s[|s| - 1]))
    ensures ParseBdtToMinor(rd, raw) == Err(NotValid)
  {
    hide Clean, IsWhite, IsDigit;
    var s := Clean(raw);
    forall c | IsWhite(c) ensures !IsDigit(c) && c != '.' { WhiteIsNoDigit(c); }
    if Matches(s) {
      PartsMatch(s);
      assert false;
    }
  }

  lemma WhiteIsNoDigit(c: char)
    requires IsWhite(c)
    ensures !IsDigit(c) && c != '.' && c != ','
  {
  }

  lemma {:induction false} WhiteHasNoCommas(w: string)
    requires AllWhite(w)
    ensures DropCommas(w) == w
  {
    forall i | 0 <= i < |w| ensures w[i] != ',' { WhiteIsNoDigit(w[i]); }
    NothingToDrop(w);
  }

  lemma CommaIsDropped(a: string, b: string)
    ensures DropCommas(a + "," + b) == DropCommas(a) + DropCommas(b)
    ensures DropCommas(a + b) == DropCommas(a) + DropCommas(b)
  {
    DropCommasAppends(a + ",", b);
    DropCommasAppends(a, ",");
    DropCommasAppends(a, b);
    assert DropCommas(",") == "" by { assert ","[..0] == ""; }
  }

  lemma CleanBetween(a: string, b: string)
    requires !AllWhite(a) && !AllWhite(b)
    ensures Clean(a + "," + b) == Clean(a + b)
  {
    hide IsWhite, Trim, DropCommas;
    var p, m, q := Unpad(a);
    var u, n, v := Unpad(b);
    var x, y := m + q, u + n;
    TrimPadded(p, x + y, v);
    TrimPadded(p, x + "," + y, v);
    assert a + b == p + (x + y) + v && a + "," + b == p + (x + "," + y) + v;
    CommaIsDropped(x, y);
  }

  lemma CleanBefore(a: string, b: string) returns (w: string)
    requires AllWhite(a) && !AllWhite(b)
    ensures AllWhite(w) && (w != "" <==> IsWhite(b[0]))
    ensures Clean(a + "," + b) == w + Clean(a + b)
  {
    hide IsWhite, Trim, DropCommas;
    var m, q;
    w, m, q := Unpad(b);
    CommaIsNotWhite();
    TrimPadded(a + w, m, q);
    TrimPadded(a, "," + w + m, q);
    assert a + b == (a + w) + m + q && a + "," + b == a + ("," + w + m) + q;
    CommaIsDropped("", w + m);
    DropCommasAppends(w, m);
    WhiteHasNoCommas(w);
    NothingToDrop("");
    assert "" + "," + (w + m) == "," + w + m;
    assert b[0] == (w + m + q)[0];
  }

  lemma CleanAfter(a: string, b: string) returns (w: string)
    requires AllWhite(b) && !AllWhite(a)
    ensures AllWhite(w) && (w != "" <==> IsWhite(a[|a| - 1]))
    ensures Clean(a + "," + b) == Clean(a + b) + w
  {
    hide IsWhite, Trim, DropCommas;
    var p, m;
    p, m, w := Unpad(a);
    CommaIsNotWhite();
    TrimPadded(p, m, w + b);
    TrimPadded(p, m + w + ",", b);
    assert a + b == p + m + (w + b) && a + "," + b == p + (m + w + ",") + b;
    CommaIsDropped(m + w, "");
    DropCommasAppends(m, w);
    WhiteHasNoCommas(w);
    NothingToDrop("");
    assert (m + w) + "," + "" == m + w + ",";
    assert a[|a| - 1] == (p + m + w)[|a| - 1];
  }

  lemma CommaIsNotWhite()
    ensures !IsWhite(',')
  {
  }

  lemma SameCleanSameResult(rd: nat -> nat, a: string, b: string)
    requires Clean(a) == Clean(b)
    ensures ParseBdtToMinor(rd, a) == ParseBdtToMinor(rd, b)
  {
  }

  /** A comma put anywhere changes nothing, except exactly where it separates the text from white space
      around it: then the result is that the text is not valid. */
  lemma CommasAreIgnored(rd: nat -> nat, a: string, b: string)
    ensures Separates(a, b) ==> ParseBdtToMinor(rd, a + "," + b) == Err(NotValid)
    ensures !Separates(a, b) ==> ParseBdtToMinor(rd, a + "," + b) == ParseBdtToMinor(rd, a + b)
  {
    hide IsWhite, Trim, DropCommas, Clean, ParseBdtToMinor;
    if AllWhite(a) && AllWhite(b) {
      CleanOfNothing(a, b);
      SameCleanSameResult(rd, a + "," + b, a + b);
    } else if AllWhite(a) {
      var w := CleanBefore(a, b);
      if w == "" {
        assert Clean(a + "," + b) == Clean(a + b);
        SameCleanSameResult(rd, a + "," + b, a + b);
      } else {
        assert IsWhite(Clean(a + "," + b)[0]);
        WhiteEndsAreNotValid(rd, a + "," + b);
      }
    } else if AllWhite(b) {
      var w := CleanAfter(a, b);
      if w == "" {
        assert Clean(a + "," + b) == Clean(a + b);
        SameCleanSameResult(rd, a + "," + b, a + b);
      } else {
        var s := Clean(a + "," + b);
        assert IsWhite(s[|s| - 1]);
        WhiteEndsAreNotValid(rd, a + "," + b);
      }
    } else {
      CleanBetween(a, b);
      SameCleanSameResult(rd, a + "," + b, a + b);
    }
  }

  lemma CleanOfNothing(a: string, b: string)
    requires AllWhite(a) && AllWhite(b)
    ensures Clean(a + "," + b) == Clean(a + b) == ""
  {
    hide IsWhite, Trim, DropCommas;
    CommaIsNotWhite();
    TrimPadded(a, ",", b);
    TrimPadded(a, "", b);
    assert a + b == a + "" + b;
    CommaIsDropped("", "");
    NothingToDrop("");
    assert "" + "," + "" == ",";
  }

  // ---------- the refusals ----------

  /** A text is called not valid exactly when its cleaned form is not in the grammar. */
  lemma NotValidIsNoGrammar(rd: nat -> nat, raw: string)
    ensures ParseBdtToMinor(rd, raw) == Err(NotValid) <==> forall a, b :: !InGrammar(Clean(raw), a, b)
  {
    hide Clean, Value, IsDigit;
    var s := Clean(raw);
    assert InGrammar("", "", "");
    if Matches(s) {
      PartsMatch(s);
    } else {
      forall a, b ensures !InGrammar(s, a, b) {
        if InGrammar(s, a, b) { PartsAreUnique(s, a, b); }
      }
    }
  }

  /** What is in the grammar is accepted, or refused for one of four reasons by what it denotes. */
  lemma ParserRefusals(rd: nat -> nat, raw: string, major: string, minor: string)
    requires DoubleRounding(rd) && InGrammar(Clean(raw), major, minor)
    ensures var cents := 100.0 * Denoted(major, minor);
            ParseBdtToMinor(rd, raw)
            == if major == "" && minor == "" then Err(EnterAmount)
               else if cents > 9_007_199_254_740_991.0 then Err(TooLarge)
               else if cents == 0.0 then Err(NotPositive)
               else if cents > 1_000_000_000_000.0 then Err(AboveMaximum)
               else Ok(Value(major) * 100 + Value(PadEnd2(minor)))
  {
    hide Clean, Value, IsDigit, AllDigits, DoubleRounding;
    PartsAreUnique(Clean(raw), major, minor);
    PaddingScales(minor);
    RoundingIsHarmless(rd, Value(major), Value(PadEnd2(minor)));
    var exact := Value(major) * 100 + Value(PadEnd2(minor));
    assert exact as real == 100.0 * Denoted(major, minor);
  }

  // ---------- signs ----------

  /** A negative amount is printed as the positive one behind a minus sign. */
  lemma SignsComeFirst(n: int)
    requires n > 0
    ensures FormatMinorAmount(-n) == "-" + FormatMinorAmount(n) && FormatBdt(-n) == "-" + FormatBdt(n)
    ensures FormatBdt(n) == "\U{09F3}" + FormatMinorAmount(n) && FormatMinorAmount(0) == "0.00"
  {
    hide FormatMinorAmount;
    MinusComesFirst(n);
    Associates("-", TAKA, FormatMinorAmount(n));
    PrintedZero();
  }

  lemma MinusComesFirst(n: int)
    requires n > 0
    ensures FormatMinorAmount(-n) == "-" + FormatMinorAmount(n)
  {
    hide Grouped, PadStart, DigitsOf;
    var a, b := Grouped(n / MINOR_PER_MAJOR), PadStart(DigitsOf(n % MINOR_PER_MAJOR), 2);
    assert FormatMinorAmount(n) == a + "." + b by { NothingInFront(a); }
    Associates("-", a, ".");
    Associates("-", a + ".", b);
  }

  lemma NothingInFront(a: string)
    ensures "" + a == a
  {
  }

  lemma Associates(a: string, b: string, c: string)
    ensures a + b + c == a + (b + c)
  {
  }

  lemma PrintedZero()
    ensures FormatMinorAmount(0) == "0.00"
  {
    assert DigitsOf(0) == "0" && PadStart("0", 2) == PadStart("0" + "0", 2);
  }

  /** The white space and the line terminators of ECMAScript, by code point. */
  lemma WhiteSpaceOfEcmaScript(c: char)
    ensures IsWhite(c)
            <==> var u := c as int;
                 9 <= u <= 13 || u == 32 || u == 160 || u == 5760 || 8192 <= u <= 8202 || u == 8232 || u == 8233
                 || u == 8239 || u == 8287 || u == 12288 || u == 65279
  {
  }
}
