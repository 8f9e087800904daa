/** What coercion makes of a value, type by type: the texts that stand for booleans, integers and
    moments, and the values that stand for other ones. */
module CoercionMeaning {
  import opened Prelude
  import opened PyText
  import opened PyValues
  import opened DatasetParameters

  function Zeros(k: nat): string {
    seq(k, _ => '0')
  }

  /** The text is the decimal numeral of n, perhaps after zeros. */
  ghost predicate Numeral(s: string, n: nat) {
    exists k: nat :: s == Zeros(k) + ShowNat(n)
  }

  /** A numeral, or a minus sign and a numeral. */
  ghost predicate IntegerText(s: string, n: int) {
    || (n >= 0 && Numeral(s, n))
    || (n <= 0 && s != [] && s[0] == '-' && Numeral(s[1..], -n))
  }

  /** The ISO text of a moment; a final `Z` is the offset zero. */
  predicate MomentText(lib: Library, s: string, date: int, clock: int) {
    lib.parseDateTime(if s != [] && s[|s| - 1] == 'Z' then s[..|s| - 1] + "+00:00" else s) == Some((date, clock))
  }

  ghost predicate StringOf(lib: Library, v: Value, out: Value) {
    if v.Str? then out == v else out == Str(lib.show(v))
  }

  ghost predicate IntegerOf(v: Value, out: Value) {
    && out.Int?
    && (v == out || (v.Float? && v.x == out.i as real) || (v.Str? && IntegerText(Strip(v.s), out.i)))
  }

  ghost predicate NumberOf(lib: Library, v: Value, out: Value) {
    || (out == v && (v.Int? || v.Float?))
    || (v.Str? && lib.parseFloat(Strip(v.s)).Some?
        && var x := lib.parseFloat(Strip(v.s)).value;
           if out.Int? then out.i as real == x else out == Float(x) && x != x.Floor as real)
  }

  ghost predicate BooleanOf(v: Value, out: Value) {
    && out.Bool?
    && (|| v == out || v == Int(if out.b then 1 else 0)
        || (v.Str? && Lower(Strip(v.s)) in if out.b then {"true", "1", "yes"} else {"false", "0", "no"}))
  }

  ghost predicate DateOf(lib: Library, v: Value, out: Value) {
    && out.Date?
    && match v
       case Date(d) => d == out.day
       case DateTime(d, _) => d == out.day
       case Str(s) =>
         || lib.parseDate(Strip(s)) == Some(out.day)
         || (lib.parseDate(Strip(s)).None? && exists clock :: MomentText(lib, Strip(s), out.day, clock))
       case _ => false
  }

  ghost predicate DateTimeOf(lib: Library, v: Value, out: Value) {
    && out.DateTime?
    && match v
       case Date(d) => d == out.date && out.clock == 0
       case DateTime(_, _) => v == out
       case Str(s) => MomentText(lib, Strip(s), out.date, out.clock)
       case _ => false
  }

  /** The value stands for `out` among the values of the type. */
  ghost predicate StandsFor(lib: Library, kind: ParamType, v: Value, out: Value) {
    if v == Null then out == Null
    else
      match kind
      case TString => StringOf(lib, v, out)
      case TInteger => IntegerOf(v, out)
      case TNumber => NumberOf(lib, v, out)
      case TBoolean => BooleanOf(v, out)
      case TDate => DateOf(lib, v, out)
      case TDateTime => DateTimeOf(lib, v, out)
  }

  // ----- Numerals -----

  lemma {:induction false} LeadingZero(s: string)
    requires AllDigits(s)
    ensures AllDigits("0" + s) && ParseNat("0" + s) == ParseNat(s)
    decreases |s|
  {
    var t := "0" + s;
    assert forall i | 0 < i < |t| :: t[i] == s[i - 1];
    if |s| == 1 {
      assert t[..1] == "0" && "0"[..0] == [] && s[..0] == [];
    } else {
      assert AllDigits(s[..|s| - 1]);
      LeadingZero(s[..|s| - 1]);
      assert t[..|t| - 1] == "0" + s[..|s| - 1];
    }
  }

  lemma {:induction false} NumeralReads(k: nat, n: nat)
    ensures AllDigits(Zeros(k) + ShowNat(n)) && ParseNat(Zeros(k) + ShowNat(n)) == n
    decreases k
  {
    ParseShowNat(n);
    if k == 0 {
      assert Zeros(0) + ShowNat(n) == ShowNat(n);
    } else {
      NumeralReads(k - 1, n);
      LeadingZero(Zeros(k - 1) + ShowNat(n));
      OneZeroMore(k, ShowNat(n));
    }
  }

  lemma {:induction false} OneZeroMore(k: nat, s: string)
    requires k > 0
    ensures Zeros(k) + s == "0" + (Zeros(k - 1) + s)
  {
  }

  lemma {:induction false} DigitShown(c: char)
    requires IsDigit(c)
    ensures ShowNat(c as int - '0' as int) == [c] && ParseNat([c]) == c as int - '0' as int
  {
    assert [c][..0] == [];
  }

  /** A numeral with one digit more. */
  lemma {:induction false} NumeralGrows(s: string, n: nat, c: char)
    requires Numeral(s, n) && IsDigit(c)
    ensures Numeral(s + [c], n * 10 + (c as int - '0' as int))
  {
    var k: nat :| s == Zeros(k) + ShowNat(n);
    var d := c as int - '0' as int;
    DigitShown(c);
    if n == 0 {
      assert s + [c] == Zeros(k + 1) + ShowNat(d);
    } else {
      assert (n * 10 + d) / 10 == n && (n * 10 + d) % 10 == d;
      assert s + [c] == Zeros(k) + ShowNat(n * 10 + d);
    }
  }

  lemma {:induction false} DigitsAreNumeral(s: string)
    requires AllDigits(s)
    ensures Numeral(s, ParseNat(s))
    decreases |s|
  {
    var init, c := s[..|s| - 1], s[|s| - 1];
    assert s == init + [c];
    if init == [] {
      DigitShown(c);
      assert s == Zeros(0) + ShowNat(c as int - '0' as int);
    } else {
      DigitsAreNumeral(init);
      NumeralGrows(init, ParseNat(init), c);
    }
  }

  /** The numerals are the texts of digits, read in base ten. */
  lemma {:induction false} NumeralExactly(s: string, n: nat)
    ensures Numeral(s, n) <==> AllDigits(s) && ParseNat(s) == n
  {
    if Numeral(s, n) {
      var k: nat :| s == Zeros(k) + ShowNat(n);
      NumeralReads(k, n);
    }
    if AllDigits(s) {
      DigitsAreNumeral(s);
    }
  }

  lemma {:induction false} SkipDashesExactly(s: string)
    ensures s != [] && s[0] == '-' ==> (SkipDashes(s) == s[1..] <==> s[1..] == [] || s[1] != '-')
    ensures s == [] || s[0] != '-' ==> SkipDashes(s) == s
    ensures |SkipDashes(s)| <= |s|
    decreases |s|
  {
    if s != [] && s[0] == '-' {
      SkipDashesExactly(s[1..]);
      if s[1..] != [] && s[1] == '-' {
        SkipDashesExactly(s[1..][1..]);
        assert SkipDashes(s[1..]) == SkipDashes(s[1..][1..]);
      }
    }
  }

  /** An integer is read from exactly the integer texts. */
  lemma {:induction false} IntegerTextExactly(s: string, n: int)
    ensures CoerceInteger(Str(s)) == Ok(Int(n)) <==> IntegerText(Strip(s), n)
  {
    var raw := Strip(s);
    SkipDashesExactly(raw);
    if n >= 0 {
      NumeralExactly(raw, n);
    }
    if n <= 0 && raw != [] {
      NumeralExactly(raw[1..], -n);
    }
  }

  // ----- Coercion -----

  lemma {:induction false} IntegerExactly(v: Value, out: Value)
    ensures CoerceInteger(v) == Ok(out) <==> IntegerOf(v, out)
  {
    if v.Str? && out.Int? {
      IntegerTextExactly(v.s, out.i);
    }
  }

  lemma {:induction false} NumberExactly(lib: Library, v: Value, out: Value)
    ensures CoerceNumber(lib, v) == Ok(out) <==> NumberOf(lib, v, out)
  {
    if v.Str? && lib.parseFloat(Strip(v.s)).Some? {
      var x := lib.parseFloat(Strip(v.s)).value;
      assert Integral(x) ==> x.Floor as real == x;
      assert out.Int? && out.i as real == x ==> x.Floor == out.i;
    }
  }

  lemma {:induction false} BooleanExactly(v: Value, out: Value)
    ensures CoerceBoolean(v) == Ok(out) <==> BooleanOf(v, out)
  {
    if v.Str? {
      BooleanWords(Lower(Strip(v.s)));
    }
  }

  lemma {:induction false} BooleanWords(word: string)
    ensures word in {"true", "1", "yes"} <==> word == "true" || word == "1" || word == "yes"
    ensures word in {"false", "0", "no"} <==> word == "false" || word == "0" || word == "no"
    ensures !(word in {"true", "1", "yes"} && word in {"false", "0", "no"})
  {
    assert "true"[0] == 't' && "1"[0] == '1' && "yes"[0] == 'y' && "false"[0] == 'f' && "0"[0] == '0' && "no"[0] == 'n';
  }

  lemma {:induction false} DateTimeExactly(lib: Library, v: Value, out: Value)
    ensures CoerceDateTime(lib, v) == Ok(out) <==> DateTimeOf(lib, v, out)
  {
  }

  lemma {:induction false} DateExactly(lib: Library, v: Value, out: Value)
    ensures CoerceDate(lib, v) == Ok(out) <==> DateOf(lib, v, out)
  {
    if v.Str? {
      TrimmedStrip(v.s);
      var moment := CoerceDateTime(lib, Str(Strip(v.s)));
      if moment.Ok? {
        DateTimeExactly(lib, Str(Strip(v.s)), moment.value);
        assert MomentText(lib, Strip(v.s), moment.value.date, moment.value.clock);
      }
      if clock :| out.Date? && MomentText(lib, Strip(v.s), out.day, clock) {
        DateTimeExactly(lib, Str(Strip(v.s)), DateTime(out.day, clock));
      }
    }
  }

  lemma {:induction false} TrimmedStrip(s: string)
    ensures Strip(Strip(s)) == Strip(s)
  {
    StripTrims(s);
  }

  /** A value is coerced to another exactly when it stands for it. */
  lemma {:induction false} CoercesExactly(lib: Library, kind: ParamType, v: Value, out: Value)
    ensures Coerce(lib, kind, v) == Ok(out) <==> StandsFor(lib, kind, v, out)
  {
    match kind
    case TString =>
    case TInteger => IntegerExactly(v, out);
    case TNumber => NumberExactly(lib, v, out);
    case TBoolean => BooleanExactly(v, out);
    case TDate => DateExactly(lib, v, out);
    case TDateTime => DateTimeExactly(lib, v, out);
  }
}
