/** The text operators of a perimeter compile to LIKE patterns whose operand is not escaped; when
    that is the test their names promise. */
module LikePatterns {
  import opened Prelude
  import opened PyText
  import opened PerimeterQuery

  /** What `contains`, `starts_with` and `ends_with` promise. */
  predicate Promised(anchor: Anchor, operand: string, text: string) {
    match anchor
    case Anywhere => Occurs(operand, text)
    case AtStart => operand <= text
    case AtEnd => |operand| <= |text| && text[|text| - |operand|..] == operand
  }

  predicate Special(d: Dialect, c: char) {
    c == '%' || c == '_' || (d.backslash && c == '\\') || (d.classes && c == '[')
  }

  /** The operand holds a character that LIKE does not take for itself. */
  predicate Wild(d: Dialect, operand: string) {
    exists i | 0 <= i < |operand| :: Special(d, operand[i])
  }

  lemma {:induction false} WildTail(d: Dialect, operand: string)
    requires operand != ""
    ensures Wild(d, operand) <==> Special(d, operand[0]) || Wild(d, operand[1..])
  {
    assert forall i | 0 < i < |operand| :: operand[i] == operand[1..][i - 1];
    if Wild(d, operand[1..]) {
      var i :| 0 <= i < |operand[1..]| && Special(d, operand[1..][i]);
      assert Special(d, operand[i + 1]);
    }
  }

  lemma {:induction false} PlainMatches(d: Dialect, pattern: string, text: string)
    requires !Wild(d, pattern)
    ensures Matches(d, pattern, text) <==> pattern == text
    decreases |pattern|
  {
    if pattern != "" {
      WildTail(d, pattern);
      if text != "" {
        PlainMatches(d, pattern[1..], text[1..]);
        assert pattern == [pattern[0]] + pattern[1..] && text == [text[0]] + text[1..];
      }
    }
  }

  lemma {:induction false} AnyTextMatches(d: Dialect, text: string)
    ensures Matches(d, "%", text)
    decreases |text|
  {
    assert "%"[1..] == "";
    if text != "" {
      AnyTextMatches(d, text[1..]);
    }
  }

  lemma {:induction false} PlainPrefixMatches(d: Dialect, operand: string, text: string)
    requires !Wild(d, operand)
    ensures Matches(d, operand + "%", text) <==> operand <= text
    decreases |operand|
  {
    if operand == "" {
      assert operand + "%" == "%";
      AnyTextMatches(d, text);
    } else {
      WildTail(d, operand);
      assert (operand + "%")[1..] == operand[1..] + "%";
      if text != "" {
        PlainPrefixMatches(d, operand[1..], text[1..]);
        assert operand <= text <==> operand[0] == text[0] && operand[1..] <= text[1..];
      }
    }
  }

  /** A leading `%` skips some of the text. */
  lemma {:induction false} PercentSkips(d: Dialect, pattern: string, text: string)
    ensures Matches(d, "%" + pattern, text) <==> exists i | 0 <= i <= |text| :: Matches(d, pattern, text[i..])
    decreases |text|
  {
    var whole := "%" + pattern;
    assert whole[1..] == pattern && text[0..] == text;
    if text != "" {
      PercentSkips(d, pattern, text[1..]);
      assert forall i | 0 <= i <= |text[1..]| :: text[1..][i..] == text[i + 1..];
      if exists i | 0 <= i <= |text| :: Matches(d, pattern, text[i..]) {
        var i :| 0 <= i <= |text| && Matches(d, pattern, text[i..]);
        if i > 0 {
          assert text[1..][i - 1..] == text[i..];
        }
      }
    }
  }

  lemma {:induction false} PlainPatternKeepsPromise(d: Dialect, anchor: Anchor, operand: string, text: string)
    requires !Wild(d, operand)
    ensures Matches(d, Pattern(anchor, operand), text) <==> Promised(anchor, operand, text)
  {
    match anchor
    case AtStart => PlainPrefixMatches(d, operand, text);
    case AtEnd =>
      PercentSkips(d, operand, text);
      forall i | 0 <= i <= |text| ensures Matches(d, operand, text[i..]) <==> operand == text[i..] {
        PlainMatches(d, operand, text[i..]);
      }
    case Anywhere =>
      assert Pattern(Anywhere, operand) == "%" + (operand + "%");
      PercentSkips(d, operand + "%", text);
      forall i | 0 <= i <= |text|
        ensures Matches(d, operand + "%", text[i..]) <==> i <= |text| - |operand| && OccursAt(operand, text, i)
      {
        PlainPrefixMatches(d, operand, text[i..]);
        if i <= |text| - |operand| {
          assert text[i..][..|operand|] == text[i..i + |operand|];
        }
      }
  }

  // ----- Wild operands -----

  /** A shortest text a pattern matches, if it matches any. */
  ghost function Shortest(d: Dialect, pattern: string): Option<string>
    decreases |pattern|
  {
    if pattern == "" then Some("")
    else if d.backslash && pattern[0] == '\\' then
      if |pattern| == 1 then None else Led(pattern[1], Shortest(d, pattern[2..]))
    else if pattern[0] == '%' then Shortest(d, pattern[1..])
    else if d.classes && pattern[0] == '[' then
      var close := 1 + CloseAt(pattern[1..]);
      if close < |pattern| && exists c :: d.member(pattern[1..close], c) then
        var c :| d.member(pattern[1..close], c);
        Led(c, Shortest(d, pattern[close + 1..]))
      else None
    else Led(if pattern[0] == '_' then 'x' else pattern[0], Shortest(d, pattern[1..]))
  }

  function Led(c: char, rest: Option<string>): Option<string> {
    if rest.None? then None else Some([c] + rest.value)
  }

  lemma {:induction false} ShortestMatches(d: Dialect, pattern: string)
    ensures Shortest(d, pattern).Some? ==> Matches(d, pattern, Shortest(d, pattern).value)
    decreases |pattern|
  {
    if pattern != "" && Shortest(d, pattern).Some? {
      var text := Shortest(d, pattern).value;
      if d.backslash && pattern[0] == '\\' {
        ShortestMatches(d, pattern[2..]);
        assert text[1..] == Shortest(d, pattern[2..]).value;
      } else if pattern[0] == '%' {
        ShortestMatches(d, pattern[1..]);
      } else if d.classes && pattern[0] == '[' {
        var close := 1 + CloseAt(pattern[1..]);
        ShortestMatches(d, pattern[close + 1..]);
        assert text[1..] == Shortest(d, pattern[close + 1..]).value;
      } else {
        ShortestMatches(d, pattern[1..]);
        assert text[1..] == Shortest(d, pattern[1..]).value;
      }
    }
  }

  lemma {:induction false} NoneMatch(d: Dialect, pattern: string, text: string)
    requires Shortest(d, pattern).None?
    ensures !Matches(d, pattern, text)
    decreases |pattern|, |text|
  {
    if d.backslash && pattern[0] == '\\' {
      if |pattern| > 1 && text != "" {
        NoneMatch(d, pattern[2..], text[1..]);
      }
    } else if pattern[0] == '%' {
      NoneMatch(d, pattern[1..], text);
      if text != "" {
        NoneMatch(d, pattern, text[1..]);
      }
    } else if d.classes && pattern[0] == '[' {
      var close := 1 + CloseAt(pattern[1..]);
      if close < |pattern| && text != "" && d.member(pattern[1..close], text[0]) {
        NoneMatch(d, pattern[close + 1..], text[1..]);
      }
    } else if text != "" {
      NoneMatch(d, pattern[1..], text[1..]);
    }
  }

  lemma {:induction false} CloseAppend(s: string, tail: string)
    requires tail == "" || tail == "%"
    ensures CloseAt(s + tail) < |s + tail| ==> CloseAt(s + tail) < |s|
  {
    if s == "" {
      assert s + tail == tail;
      assert "%"[1..] == "";
    } else {
      assert (s + tail)[1..] == s[1..] + tail;
      CloseAppend(s[1..], tail);
    }
  }

  /** What a pattern matches shortest is no longer than its operand, and another text if that is
      wild. */
  lemma {:induction false} ShortestDiffers(d: Dialect, operand: string, tail: string)
    requires (tail == "" || tail == "%") && Shortest(d, operand + tail).Some?
    ensures var text := Shortest(d, operand + tail).value;
            |text| <= |operand| && (Wild(d, operand) ==> text != operand)
    decreases |operand|
  {
    var p := operand + tail;
    if operand == "" {
      assert p == tail;
      assert "%"[1..] == "";
    } else {
      WildTail(d, operand);
      if d.backslash && operand[0] == '\\' {
        if |operand| == 1 {
          assert p[2..] == "" && p[1] == '%';
        } else {
          assert p[2..] == operand[2..] + tail;
          ShortestDiffers(d, operand[2..], tail);
        }
      } else if d.classes && operand[0] == '[' {
        var close := 1 + CloseAt(p[1..]);
        assert p[1..] == operand[1..] + tail;
        CloseAppend(operand[1..], tail);
        assert p[close + 1..] == operand[close + 1..] + tail;
        ShortestDiffers(d, operand[close + 1..], tail);
      } else {
        assert p[1..] == operand[1..] + tail;
        ShortestDiffers(d, operand[1..], tail);
      }
    }
  }

  lemma {:induction false} NoLongerMeansSame(anchor: Anchor, operand: string, text: string)
    requires |text| <= |operand|
    ensures Promised(anchor, operand, text) <==> operand == text
  {
    if anchor == Anywhere {
      if Occurs(operand, text) {
        var i :| 0 <= i <= |text| - |operand| && OccursAt(operand, text, i);
        assert text[i..i + |operand|] == text;
      }
      if operand == text {
        assert text[0..0 + |operand|] == operand;
        assert OccursAt(operand, text, 0);
      }
    }
  }

  /** The pattern after a leading `%`, if it has one. */
  function Anchored(anchor: Anchor, operand: string): string {
    operand + if anchor == AtEnd then "" else "%"
  }

  lemma {:induction false} PatternMatches(d: Dialect, anchor: Anchor, operand: string, text: string)
    ensures Matches(d, Anchored(anchor, operand), text) ==> Matches(d, Pattern(anchor, operand), text)
    ensures Shortest(d, Anchored(anchor, operand)).None? ==> !Matches(d, Pattern(anchor, operand), text)
  {
    var p := Anchored(anchor, operand);
    if anchor != AtStart {
      assert operand + "" == operand;
      assert Pattern(anchor, operand) == "%" + p;
      PercentSkips(d, p, text);
      assert text[0..] == text;
    }
    if Shortest(d, p).None? {
      forall i | 0 <= i <= |text| ensures !Matches(d, p, text[i..]) {
        NoneMatch(d, p, text[i..]);
      }
      assert text[0..] == text;
    }
  }

  lemma {:induction false} WildBreaksPromise(d: Dialect, anchor: Anchor, operand: string) returns (text: string)
    requires Wild(d, operand)
    ensures !(Matches(d, Pattern(anchor, operand), text) <==> Promised(anchor, operand, text))
  {
    var p := Anchored(anchor, operand);
    if Shortest(d, p).Some? {
      text := Shortest(d, p).value;
      ShortestMatches(d, p);
      ShortestDiffers(d, operand, if anchor == AtEnd then "" else "%");
    } else {
      text := operand;
    }
    PatternMatches(d, anchor, operand, text);
    NoLongerMeansSame(anchor, operand, text);
  }

  /** In any dialect, a text operator means what it says on every text exactly when its operand has
      no character that LIKE does not take for itself. */
  lemma {:induction false} TextOperatorExactly(d: Dialect, anchor: Anchor, operand: string)
    ensures (forall text :: Matches(d, Pattern(anchor, operand), text) <==> Promised(anchor, operand, text))
            <==> !Wild(d, operand)
  {
    if Wild(d, operand) {
      var text := WildBreaksPromise(d, anchor, operand);
    } else {
      forall text ensures Matches(d, Pattern(anchor, operand), text) <==> Promised(anchor, operand, text) {
        PlainPatternKeepsPromise(d, anchor, operand, text);
      }
    }
  }
}
