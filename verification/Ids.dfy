/** UUIDs as text. The pattern admits digits of either case; the database compares values and prints
    lower case, so one id has many texts. */
module Ids {
  import opened Wrappers

  function HexValue(c: char): Option<nat> {
    if '0' <= c <= '9' then Some(c as int - '0' as int)
    else if 'a' <= c <= 'f' then Some(c as int - 'a' as int + 10)
    else if 'A' <= c <= 'F' then Some(c as int - 'A' as int + 10)
    else None
  }

  function HexDigit(v: nat): char
    requires v < 16
  {
    if v < 10 then '0' + v as char else 'a' + (v - 10) as char
  }

  predicate HyphenAt(i: nat) { i == 8 || i == 13 || i == 18 || i == 23 }

  /** The pattern 8-4-4-4-12 of hexadecimal digits, in either case. */
  predicate IsUuid(text: string) {
    |text| == 36 && forall i :: 0 <= i < 36 ==> if HyphenAt(i) then text[i] == '-' else HexValue(text[i]).Some?
  }

  /** The first `k` characters of the text of a UUID, whose digits hold `n`. */
  function UuidHead(n: nat, k: nat): string {
    if k == 0 then ""
    else if HyphenAt(k - 1) then UuidHead(n, k - 1) + "-"
    else UuidHead(n / 16, k - 1) + [HexDigit(n % 16)]
  }

  /** What the digits of a text hold. */
  function DigitsOf(text: string): nat {
    if text == "" then 0
    else
      var front, last := text[..|text| - 1], HexValue(text[|text| - 1]);
      if last.Some? then DigitsOf(front) * 16 + last.value else DigitsOf(front)
  }

  /** How many numbers fit into the first `k` characters. */
  function Room(k: nat): nat {
    if k == 0 then 1 else if HyphenAt(k - 1) then Room(k - 1) else 16 * Room(k - 1)
  }

  const UUID_LENGTH := 36

  /** How the database prints an id: in lower case. */
  function UuidText(n: nat): string { UuidHead(n, UUID_LENGTH) }

  lemma {:induction false} UuidHeadHolds(n: nat, k: nat)
    requires n < Room(k)
    ensures |UuidHead(n, k)| == k && DigitsOf(UuidHead(n, k)) == n
    ensures forall i :: 0 <= i < k ==>
              if HyphenAt(i) then UuidHead(n, k)[i] == '-' else HexValue(UuidHead(n, k)[i]).Some?
  {
    if k > 0 {
      var m := if HyphenAt(k - 1) then n else n / 16;
      UuidHeadHolds(m, k - 1);
      assert UuidHead(n, k)[..k - 1] == UuidHead(m, k - 1);
    }
  }

  /** Every id below Room(36), which is 2 to the power of 128, survives its text, and the text
      matches the pattern. */
  lemma UuidRoundTrip(n: nat)
    requires n < Room(36)
    ensures IsUuid(UuidText(n)) && DigitsOf(UuidText(n)) == n
  {
    UuidHeadHolds(n, 36);
  }

  lemma FourDigits(k: nat)
    requires !HyphenAt(k) && !HyphenAt(k + 1) && !HyphenAt(k + 2) && !HyphenAt(k + 3)
    ensures Room(k + 4) == 0x1_0000 * Room(k)
  {
    assert Room(k + 2) == 0x100 * Room(k);
  }

  lemma RoomForEveryUuid()
    ensures Room(36) == 0x1_0000_0000_0000_0000_0000_0000_0000_0000
  {
    FourDigits(0);
    FourDigits(4);
    FourDigits(9);
    FourDigits(14);
    FourDigits(19);
    FourDigits(24);
    FourDigits(28);
    FourDigits(32);
    assert Room(9) == Room(8) && Room(14) == Room(13) && Room(19) == Room(18) && Room(24) == Room(23);
  }

  // ---------- one id, many texts ----------

  function LowerChar(c: char): char { if 'A' <= c <= 'F' then 'a' + (c - 'A') else c }
  function UpperChar(c: char): char { if 'a' <= c <= 'f' then 'A' + (c - 'a') else c }

  function Lower(text: string): string { seq(|text|, i requires 0 <= i < |text| => LowerChar(text[i])) }
  function Upper(text: string): string { seq(|text|, i requires 0 <= i < |text| => UpperChar(text[i])) }

  predicate HasLetter(text: string) { exists i :: 0 <= i < |text| && 'a' <= text[i] <= 'f' }

  /** `text` begins like a UUID for `k` characters. */
  predicate UuidPrefix(text: string, k: nat) {
    k <= |text| && forall i :: 0 <= i < k ==> if HyphenAt(i) then text[i] == '-' else HexValue(text[i]).Some?
  }

  lemma {:induction false} SamePrefixes(a: string, b: string, k: nat)
    requires UuidPrefix(a, k) && UuidPrefix(b, k)
    ensures DigitsOf(a[..k]) == DigitsOf(b[..k]) <==> forall i :: 0 <= i < k ==> LowerChar(a[i]) == LowerChar(b[i])
  {
    hide DigitsOf, LowerChar, HexValue;
    if k > 0 {
      SamePrefixes(a, b, k - 1);
      LastDigit(a, k);
      LastDigit(b, k);
      SameDigits(a[k - 1], b[k - 1]);
    } else {
      assert a[..0] == b[..0];
    }
  }

  lemma LastDigit(text: string, k: nat)
    requires 0 < k && UuidPrefix(text, k)
    ensures HyphenAt(k - 1) ==> DigitsOf(text[..k]) == DigitsOf(text[..k - 1])
    ensures !HyphenAt(k - 1) ==> DigitsOf(text[..k]) == DigitsOf(text[..k - 1]) * 16 + HexValue(text[k - 1]).value
  {
    assert text[..k][..k - 1] == text[..k - 1];
  }

  lemma SameDigits(c: char, d: char)
    ensures HexValue(c).Some? && HexValue(d).Some? ==>
              HexValue(c).value < 16 && HexValue(d).value < 16 && (HexValue(c) == HexValue(d) <==> LowerChar(c) == LowerChar(d))
  {
  }

  /** Two texts stand for one id exactly when they differ at most in the case of their letters. */
  lemma SpellingsOfOneId(a: string, b: string)
    requires IsUuid(a) && IsUuid(b)
    ensures DigitsOf(a) == DigitsOf(b) <==> Lower(a) == Lower(b)
  {
    SamePrefixes(a, b, 36);
    assert a[..36] == a && b[..36] == b;
    if Lower(a) == Lower(b) {
      forall i | 0 <= i < 36 ensures LowerChar(a[i]) == LowerChar(b[i]) {
        assert Lower(a)[i] == Lower(b)[i];
      }
    }
  }

  lemma {:induction false} PrintedInLowerCase(n: nat, k: nat)
    ensures forall i :: 0 <= i < |UuidHead(n, k)| ==> LowerChar(UuidHead(n, k)[i]) == UuidHead(n, k)[i]
  {
    if k > 0 { PrintedInLowerCase(if HyphenAt(k - 1) then n else n / 16, k - 1); }
  }

  /** Typed in upper case an id is still that id; it is another text exactly when it has a letter. */
  lemma UpperCaseIsTheSameId(n: nat)
    requires n < Room(36)
    ensures IsUuid(Upper(UuidText(n))) && DigitsOf(Upper(UuidText(n))) == n
    ensures Upper(UuidText(n)) != UuidText(n) <==> HasLetter(UuidText(n))
  {
    hide Room, UuidHead, DigitsOf;
    var text, upper := UuidText(n), Upper(UuidText(n));
    UuidRoundTrip(n);
    assert IsUuid(upper) by {
      forall i | 0 <= i < 36 ensures if HyphenAt(i) then upper[i] == '-' else HexValue(upper[i]).Some? {
        assert if HyphenAt(i) then text[i] == '-' else HexValue(text[i]).Some?;
      }
    }
    assert Lower(upper) == Lower(text);
    SpellingsOfOneId(text, upper);
    if i :| 0 <= i < |text| && 'a' <= text[i] <= 'f' {
      assert upper[i] != text[i];
    }
    if !HasLetter(text) { assert upper == text; }
  }

  lemma LastDigitIsPrinted(n: nat)
    requires n < Room(36)
    ensures |UuidText(n)| == 36 && UuidText(n)[35] == HexDigit(n % 16)
  {
    UuidHeadHolds(n, UUID_LENGTH);
    assert UuidText(n) == UuidHead(n / 16, UUID_LENGTH - 1) + [HexDigit(n % 16)];
  }

  /** An id can be typed in another way than the database prints it exactly when its text has a
      letter. */
  lemma OtherSpellingsExist(n: nat)
    requires n < Room(36)
    ensures (exists t :: IsUuid(t) && DigitsOf(t) == n && t != UuidText(n)) <==> HasLetter(UuidText(n))
  {
    hide Room, UuidHead, DigitsOf;
    UuidRoundTrip(n);
    UpperCaseIsTheSameId(n);
    if t :| IsUuid(t) && DigitsOf(t) == n && t != UuidText(n) {
      var text := UuidText(n);
      SpellingsOfOneId(t, text);
      var i :| 0 <= i < 36 && t[i] != text[i];
      assert Lower(t)[i] == Lower(text)[i];
      PrintedText(n);
    }
  }

  lemma PrintedText(n: nat)
    ensures forall i :: 0 <= i < |UuidText(n)| ==> !('A' <= UuidText(n)[i] <= 'F')
  {
    PrintedInLowerCase(n, 36);
  }

  // ---------- the pattern, character by character ----------

  predicate Hexadecimal(c: char) { '0' <= c <= '9' || 'a' <= c <= 'f' || 'A' <= c <= 'F' }

  /** Thirty-six characters, hyphens at 8, 13, 18 and 23, hexadecimal digits everywhere else. */
  lemma UuidPattern(text: string)
    ensures IsUuid(text)
            <==> |text| == 36 && text[8] == text[13] == text[18] == text[23] == '-'
                 && forall i :: 0 <= i < 36 && i != 8 && i != 13 && i != 18 && i != 23 ==> Hexadecimal(text[i])
  {
    if |text| == 36 {
      assert HyphenAt(8) && HyphenAt(13) && HyphenAt(18) && HyphenAt(23);
      forall i | 0 <= i < 36 && !HyphenAt(i) ensures HexValue(text[i]).Some? <==> Hexadecimal(text[i]) {}
    }
  }
}
