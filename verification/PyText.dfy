/** The Python string operations the modelled code relies on: strip, lower, upper, decimal
    digits. Letters and blanks are the ASCII and Latin-1 ones. */
module PyText {

  predicate IsSpace(c: char) {
    '\U{9}' <= c <= '\U{d}' || '\U{1c}' <= c <= ' ' || c == '\U{85}' || c == '\U{a0}'
  }

  function LStrip(s: string): string {
    if s != [] && IsSpace(s[0]) then LStrip(s[1..]) else s
  }

  function RStrip(s: string): string {
    if s != [] && IsSpace(s[|s| - 1]) then RStrip(s[..|s| - 1]) else s
  }

  function Strip(s: string): string {
    RStrip(LStrip(s))
  }

  /** A text that `strip` leaves alone. */
  predicate Trimmed(s: string) {
    s != [] ==> !IsSpace(s[0]) && !IsSpace(s[|s| - 1])
  }

  lemma {:induction false} TrimmedStrips(s: string)
    requires Trimmed(s)
    ensures Strip(s) == s
  {
  }

  lemma {:induction false} RStripKeepsHead(s: string)
    requires s != [] && !IsSpace(s[0])
    ensures RStrip(s) != [] && RStrip(s)[0] == s[0] && Trimmed(RStrip(s))
  {
    if IsSpace(s[|s| - 1]) {
      RStripKeepsHead(s[..|s| - 1]);
    }
  }

  lemma {:induction false} LStripHead(s: string)
    ensures LStrip(s) != [] ==> !IsSpace(LStrip(s)[0])
  {
    if s != [] && IsSpace(s[0]) {
      LStripHead(s[1..]);
    }
  }

  /** Stripping twice is stripping once. */
  lemma {:induction false} StripTrims(s: string)
    ensures Trimmed(Strip(s)) && Strip(Strip(s)) == Strip(s)
  {
    LStripHead(s);
    if LStrip(s) != [] {
      RStripKeepsHead(LStrip(s));
    }
    TrimmedStrips(Strip(s));
  }

  predicate AllSpace(s: string) {
    forall i | 0 <= i < |s| :: IsSpace(s[i])
  }

  lemma {:induction false} LStripCuts(s: string) returns (a: string)
    ensures s == a + LStrip(s) && AllSpace(a)
  {
    a := "";
    if s != [] && IsSpace(s[0]) {
      var rest := LStripCuts(s[1..]);
      a := [s[0]] + rest;
    }
  }

  lemma {:induction false} RStripCuts(s: string) returns (b: string)
    ensures s == RStrip(s) + b && AllSpace(b)
  {
    b := "";
    if s != [] && IsSpace(s[|s| - 1]) {
      var rest := RStripCuts(s[..|s| - 1]);
      b := rest + [s[|s| - 1]];
      assert s == s[..|s| - 1] + [s[|s| - 1]];
    }
  }

  /** Stripping takes away blanks at the two ends, all of them, and nothing else. */
  lemma {:induction false} StripCuts(s: string) returns (a: string, b: string)
    ensures s == a + Strip(s) + b && AllSpace(a) && AllSpace(b) && Trimmed(Strip(s))
  {
    a := LStripCuts(s);
    b := RStripCuts(LStrip(s));
    StripTrims(s);
    assert a + (Strip(s) + b) == a + Strip(s) + b;
  }

  function LowerChar(c: char): char {
    if 'A' <= c <= 'Z' then (c as int + 32) as char else c
  }

  function UpperChar(c: char): char {
    if 'a' <= c <= 'z' then (c as int - 32) as char else c
  }

  function Lower(s: string): string {
    seq(|s|, i requires 0 <= i < |s| => LowerChar(s[i]))
  }

  function Upper(s: string): string {
    seq(|s|, i requires 0 <= i < |s| => UpperChar(s[i]))
  }

  predicate IsDigit(c: char) {
    '0' <= c <= '9'
  }

  /** `str.isdigit` on ASCII: at least one character and digits only. */
  predicate AllDigits(s: string) {
    s != [] && forall i | 0 <= i < |s| :: IsDigit(s[i])
  }

  /** `int(s)` for a string of digits. */
  function ParseNat(s: string): nat
    requires s == [] || AllDigits(s)
  {
    if s == [] then 0
    else ParseNat(s[..|s| - 1]) * 10 + (s[|s| - 1] as int - '0' as int)
  }

  /** `str(n)` for a natural number. */
  function ShowNat(n: nat): string {
    if n < 10 then [('0' as int + n) as char]
    else ShowNat(n / 10) + [('0' as int + n % 10) as char]
  }

  /** Reading back a printed number gives the number. */
  lemma {:induction false} ParseShowNat(n: nat)
    ensures AllDigits(ShowNat(n)) && ParseNat(ShowNat(n)) == n
  {
    if n < 10 {
      assert ShowNat(n)[..0] == [];
    } else {
      ParseShowNat(n / 10);
      assert ShowNat(n)[..|ShowNat(n)| - 1] == ShowNat(n / 10);
    }
  }

  lemma {:induction false} DigitsAreTrimmed(s: string)
    requires AllDigits(s)
    ensures Trimmed(s) && Strip(s) == s
  {
    TrimmedStrips(s);
  }

  predicate Contains(s: string, c: char) {
    exists i | 0 <= i < |s| :: s[i] == c
  }

  /** `needle in text` for strings. */
  predicate Occurs(needle: string, text: string) {
    exists i | 0 <= i <= |text| - |needle| :: OccursAt(needle, text, i)
  }

  predicate OccursAt(needle: string, text: string, i: nat)
    requires i + |needle| <= |text|
  {
    text[i..i + |needle|] == needle
  }
}
