/** The two independent parsers of context paths such as `$.local.constants.rows[3].id`: the
    writer's (run_context.py), which cuts at every dot and keeps all tokens as text, and the
    reader's (run_context_resolver.py), which is bracket-aware and yields integers for indices. */
module PathTokens {
  import opened Prelude
  import opened PyText

  /** A step of a path as the reader understands it. */
  datatype Step = Name(name: string) | Index(index: nat)

  /** One dot-separated part of a canonical path: a property and the list indices after it. */
  datatype Segment = Segment(name: string, indices: seq<nat>)

  /** A property name both parsers take literally. */
  predicate PlainName(s: string) {
    && s != []
    && Trimmed(s)
    && !AllDigits(s)
    && (forall i | 0 <= i < |s| :: s[i] != '.' && s[i] != '[' && s[i] != ']')
  }

  predicate Canonical(path: seq<Segment>) {
    path != [] && forall i | 0 <= i < |path| :: PlainName(path[i].name)
  }

  function ShowIndices(indices: seq<nat>): string {
    if indices == [] then []
    else "[" + ShowNat(indices[0]) + "]" + ShowIndices(indices[1..])
  }

  function ShowSegment(segment: Segment): string {
    segment.name + ShowIndices(segment.indices)
  }

  function ShowSegments(path: seq<Segment>): string
    requires path != []
  {
    if |path| == 1 then ShowSegment(path[0])
    else ShowSegment(path[0]) + "." + ShowSegments(path[1..])
  }

  /** The path as a test author writes it. */
  function ShowPath(path: seq<Segment>): string
    requires path != []
  {
    "$." + ShowSegments(path)
  }

  function IndexSteps(indices: seq<nat>): seq<Step> {
    if indices == [] then [] else [Index(indices[0])] + IndexSteps(indices[1..])
  }

  function Steps(path: seq<Segment>): seq<Step> {
    if path == [] then []
    else [Name(path[0].name)] + IndexSteps(path[0].indices) + Steps(path[1..])
  }

  /** The writer's textual token for a step. */
  function Token(step: Step): string {
    match step
    case Name(s) => s
    case Index(n) => ShowNat(n)
  }

  function Tokens(steps: seq<Step>): (r: seq<string>)
    ensures |r| == |steps|
  {
    if steps == [] then [] else [Token(steps[0])] + Tokens(steps[1..])
  }

  lemma {:induction false} TokensAppend(a: seq<Step>, b: seq<Step>)
    ensures Tokens(a + b) == Tokens(a) + Tokens(b)
  {
    if a == [] {
      assert a + b == b;
    } else {
      assert (a + b)[1..] == a[1..] + b;
      TokensAppend(a[1..], b);
    }
  }

  function NonEmpty(parts: seq<string>): seq<string> {
    if parts == [] then []
    else (if parts[0] == [] then [] else [parts[0]]) + NonEmpty(parts[1..])
  }

  lemma {:induction false} NonEmptyKeepsAll(parts: seq<string>)
    requires forall i | 0 <= i < |parts| :: parts[i] != []
    ensures NonEmpty(parts) == parts
    decreases |parts|
  {
    if parts != [] {
      NonEmptyKeepsAll(parts[1..]);
    }
  }

  /** `s.find(c)`. */
  function Find(s: string, c: char): (i: int)
    ensures -1 <= i < |s|
  {
    if s == [] then -1
    else if s[0] == c then 0
    else
      var i := Find(s[1..], c);
      if i < 0 then -1 else i + 1
  }

  /** The first occurrence, or -1 where there is none. */
  lemma {:induction false} FindIsFirst(s: string, c: char)
    ensures Find(s, c) == -1 ==> !Contains(s, c)
    ensures Find(s, c) >= 0 ==> s[Find(s, c)] == c
    ensures forall k | 0 <= k < Find(s, c) :: s[k] != c
    decreases |s|
  {
    if s != [] && s[0] != c {
      FindIsFirst(s[1..], c);
      assert forall k | 1 <= k < |s| :: s[k] == s[1..][k - 1];
    }
  }

  lemma {:induction false} FindFirst(a: string, c: char, b: string)
    requires !Contains(a, c)
    ensures Find(a + [c] + b, c) == |a|
  {
    var s := a + [c] + b;
    assert s[|a|] == c && forall k | 0 <= k < |a| :: s[k] == a[k];
    FindIsFirst(s, c);
  }

  lemma {:induction false} FindNone(s: string, c: char)
    requires !Contains(s, c)
    ensures Find(s, c) == -1
  {
    FindIsFirst(s, c);
  }

  // ----- The writer's parser -----

  /** `_normalize_target_path`; None where it raises. */
  function NormalizeTarget(path: string): Option<string> {
    var s := Strip(path);
    if s == [] then None
    else if "$." <= s then Some(s[2..])
    else if "$" <= s then Some(if "." <= s[1..] then s[2..] else s[1..])
    else Some(s)
  }

  /** `s.split(".")`. */
  function SplitDots(s: string): seq<string>
    decreases |s|
  {
    var i := Find(s, '.');
    if i < 0 then [s] else [s[..i]] + SplitDots(s[i + 1..])
  }

  datatype Scan = Scan(result: seq<string>, buffer: string, indexMode: bool)

  function ScanChar(st: Scan, c: char): Scan {
    if c == '[' then
      Scan(if st.buffer != [] then st.result + [st.buffer] else st.result, [], true)
    else if c == ']' then
      var token := Strip(st.buffer);
      Scan(if token != [] then st.result + [token] else st.result, [], false)
    else
      st.(buffer := st.buffer + [c])
  }

  function ScanAll(st: Scan, s: string): Scan
    decreases |s|
  {
    if s == [] then st else ScanAll(ScanChar(st, s[0]), s[1..])
  }

  function Close(st: Scan): seq<string> {
    if st.buffer == [] then st.result
    else st.result + [if st.indexMode then Strip(st.buffer) else st.buffer]
  }

  /** What the writer's `_segment_tokens` returns. */
  function WriterSegmentTokens(segment: string): seq<string> {
    NonEmpty(Close(ScanAll(Scan([], [], false), Strip(segment))))
  }

  function ConcatMapWriter(parts: seq<string>): seq<string> {
    if parts == [] then [] else WriterSegmentTokens(parts[0]) + ConcatMapWriter(parts[1..])
  }

  /** What `_path_tokens` returns; None where it raises. */
  function WriterTokens(path: string): Option<seq<string>> {
    match NormalizeTarget(path)
    case None => None
    case Some(s) => Some(ConcatMapWriter(NonEmpty(SplitDots(s))))
  }

  method SegmentTokens(segment: string) returns (tokens: seq<string>)
    ensures tokens == WriterSegmentTokens(segment)
  {
    var source := Strip(segment);
    if source == [] {
      return [];
    }
    var result: seq<string>, buffer: string, indexMode := [], [], false;
    for i := 0 to |source|
      invariant ScanAll(Scan(result, buffer, indexMode), source[i..])
             == ScanAll(Scan([], [], false), source)
    {
      var c := source[i];
      if c == '[' {
        if buffer != [] {
          result := result + [buffer];
          buffer := [];
        }
        indexMode := true;
      } else if c == ']' {
        var token := Strip(buffer);
        if token != [] {
          result := result + [token];
        }
        buffer := [];
        indexMode := false;
      } else {
        buffer := buffer + [c];
      }
    }
    if buffer != [] {
      result := result + [if !indexMode then buffer else Strip(buffer)];
    }
    tokens := NonEmpty(result);
  }

  lemma {:induction false} ConcatMapStep(all: seq<string>, parts: seq<string>, i: nat)
    requires i < |parts|
    ensures all + ConcatMapWriter(parts[i..])
         == all + WriterSegmentTokens(parts[i]) + ConcatMapWriter(parts[i + 1..])
  {
    var more, rest := WriterSegmentTokens(parts[i]), ConcatMapWriter(parts[i + 1..]);
    assert parts[i..][0] == parts[i] && parts[i..][1..] == parts[i + 1..];
    assert all + (more + rest) == all + more + rest;
  }

  method PathTokensOf(path: string) returns (tokens: Option<seq<string>>)
    ensures tokens == WriterTokens(path)
  {
    var normalized := NormalizeTarget(path);
    if normalized.None? {
      return None;
    }
    var parts := NonEmpty(SplitDots(normalized.value));
    var all: seq<string> := [];
    for i := 0 to |parts|
      invariant all + ConcatMapWriter(parts[i..]) == ConcatMapWriter(parts)
    {
      var more := SegmentTokens(parts[i]);
      ConcatMapStep(all, parts, i);
      all := all + more;
    }
    assert all + [] == all;
    tokens := Some(all);
  }

  // ----- The reader's parser -----

  datatype Splitter = Splitter(parts: seq<string>, buffer: string, level: nat)

  function SplitChar(st: Splitter, c: char): Splitter {
    if c == '.' && st.level == 0 then Splitter(st.parts + [st.buffer], [], 0)
    else
      var level :=
        if c == '[' then st.level + 1
        else if c == ']' && st.level > 0 then st.level - 1
        else st.level;
      Splitter(st.parts, st.buffer + [c], level)
  }

  function SplitAll(st: Splitter, s: string): Splitter
    decreases |s|
  {
    if s == [] then st else SplitAll(SplitChar(st, s[0]), s[1..])
  }

  /** What the reader's `_split_path` returns. */
  function ReaderParts(path: string): seq<string> {
    var st := SplitAll(Splitter([], [], 0), path);
    NonEmpty(st.parts + [st.buffer])
  }

  /** What the reader's `_segment_tokens` returns; None where it raises. */
  function ReaderSegmentTokens(segment: string): Option<seq<Step>>
    decreases |segment|
  {
    if segment == [] then Some([])
    else if segment[0] == '[' then
      var closing := Find(segment, ']');
      if closing < 0 then None
      else
        var index := Strip(segment[1..closing]);
        if !AllDigits(index) then None
        else
          Prefixed([Index(ParseNat(index))], ReaderSegmentTokens(segment[closing + 1..]))
    else
      var opening := Find(segment, '[');
      if opening < 0 then Some([Name(segment)])
      else
        Prefixed([Name(segment[..opening])], ReaderSegmentTokens(segment[opening..]))
  }

  function ConcatMapReader(parts: seq<string>): Option<seq<Step>> {
    if parts == [] then Some([])
    else
      match (ReaderSegmentTokens(parts[0]), ConcatMapReader(parts[1..]))
      case (Some(a), Some(b)) => Some(a + b)
      case _ => None
  }

  /** All steps the reader walks for a reference `$.<path>`; None where a segment is malformed. */
  function ReaderSteps(rawPath: string): Option<seq<Step>> {
    ConcatMapReader(ReaderParts(rawPath))
  }

  method SplitPath(path: string) returns (parts: seq<string>)
    ensures parts == ReaderParts(path)
  {
    parts := [];
    var buffer: string, level: nat := [], 0;
    for i := 0 to |path|
      invariant SplitAll(Splitter(parts, buffer, level), path[i..])
             == SplitAll(Splitter([], [], 0), path)
    {
      var c := path[i];
      if c == '.' && level == 0 {
        parts := parts + [buffer];
        buffer := [];
      } else {
        if c == '[' {
          level := level + 1;
        } else if c == ']' {
          level := if level > 0 then level - 1 else 0;
        }
        buffer := buffer + [c];
      }
    }
    parts := NonEmpty(parts + [buffer]);
  }

  function Prefixed(found: seq<Step>, rest: Option<seq<Step>>): Option<seq<Step>> {
    match rest
    case None => None
    case Some(steps) => Some(found + steps)
  }

  lemma {:induction false} PrefixedStep(found: seq<Step>, step: Step, rest: Option<seq<Step>>)
    ensures Prefixed(found, Prefixed([step], rest)) == Prefixed(found + [step], rest)
  {
    if rest.Some? {
      assert found + ([step] + rest.value) == found + [step] + rest.value;
    }
  }

  method ReferenceTokens(segment: string) returns (tokens: Option<seq<Step>>)
    ensures tokens == ReaderSegmentTokens(segment)
  {
    var found: seq<Step> := [];
    var remaining := segment;
    assert forall steps: seq<Step> :: [] + steps == steps;
    while remaining != []
      invariant ReaderSegmentTokens(segment) == Prefixed(found, ReaderSegmentTokens(remaining))
      decreases |remaining|
    {
      if remaining[0] == '[' {
        var closing := Find(remaining, ']');
        if closing < 0 {
          return None;
        }
        var index := Strip(remaining[1..closing]);
        if !AllDigits(index) {
          return None;
        }
        PrefixedStep(found, Index(ParseNat(index)), ReaderSegmentTokens(remaining[closing + 1..]));
        found := found + [Index(ParseNat(index))];
        remaining := remaining[closing + 1..];
      } else {
        var opening := Find(remaining, '[');
        if opening < 0 {
          return Some(found + [Name(remaining)]);
        }
        PrefixedStep(found, Name(remaining[..opening]), ReaderSegmentTokens(remaining[opening..]));
        found := found + [Name(remaining[..opening])];
        remaining := remaining[opening..];
      }
    }
    assert found + [] == found;
    tokens := Some(found);
  }

  // ----- Both parsers invert the printer -----

  predicate BracketFree(s: string) {
    forall i | 0 <= i < |s| :: s[i] != '[' && s[i] != ']'
  }

  /** A text that starts with an index. */
  function IndexThen(n: nat, t: string): string {
    ['['] + (ShowNat(n) + ([']'] + t))
  }

  function WithIndex(buffer: string, n: nat): string {
    buffer + ['['] + ShowNat(n) + [']']
  }

  lemma {:induction false} ScanPlain(st: Scan, s: string, t: string)
    requires BracketFree(s)
    ensures ScanAll(st, s + t) == ScanAll(st.(buffer := st.buffer + s), t)
    decreases |s|
  {
    if s == [] {
      assert s + t == t && st.buffer + s == st.buffer;
    } else {
      assert (s + t)[1..] == s[1..] + t;
      ScanPlain(ScanChar(st, s[0]), s[1..], t);
      assert st.buffer + [s[0]] + s[1..] == st.buffer + s;
    }
  }

  lemma {:induction false} ScanIndex(st: Scan, n: nat, t: string)
    requires !st.indexMode
    ensures ScanAll(st, IndexThen(n, t)) == ScanAll(Scan(Close(st) + [ShowNat(n)], [], false), t)
  {
    var digits := ShowNat(n);
    ParseShowNat(n);
    DigitsAreTrimmed(digits);
    var inside := ScanChar(st, '[');
    assert (['['] + (digits + ([']'] + t)))[1..] == digits + ([']'] + t);
    ScanPlain(inside, digits, [']'] + t);
    assert inside.buffer + digits == digits;
    assert ([']'] + t)[1..] == t;
  }

  lemma {:induction false} TokensCons(indices: seq<nat>)
    requires indices != []
    ensures Tokens(IndexSteps(indices)) == [ShowNat(indices[0])] + Tokens(IndexSteps(indices[1..]))
  {
    assert IndexSteps(indices)[1..] == IndexSteps(indices[1..]);
  }

  /** Outside brackets, scanning `[i][j]...` closes the buffer and adds the digits of each index. */
  lemma {:induction false} ScanIndices(st: Scan, indices: seq<nat>)
    requires !st.indexMode
    ensures Close(ScanAll(st, ShowIndices(indices))) == Close(st) + Tokens(IndexSteps(indices))
    decreases |indices|
  {
    if indices == [] {
      assert Close(st) + [] == Close(st);
    } else {
      var digits, rest := ShowNat(indices[0]), ShowIndices(indices[1..]);
      assert ShowIndices(indices) == ['['] + (digits + ([']'] + rest));
      var next := Scan(Close(st) + [digits], [], false);
      calc {
        Close(ScanAll(st, ShowIndices(indices)));
        { ScanIndex(st, indices[0], rest); }
        Close(ScanAll(next, rest));
        { ScanIndices(next, indices[1..]); }
        Close(next) + Tokens(IndexSteps(indices[1..]));
        Close(st) + [digits] + Tokens(IndexSteps(indices[1..]));
        { TokensCons(indices); }
        Close(st) + Tokens(IndexSteps(indices));
      }
    }
  }

  lemma {:induction false} TokensNonEmpty(indices: seq<nat>)
    ensures forall i | 0 <= i < |Tokens(IndexSteps(indices))| :: Tokens(IndexSteps(indices))[i] != []
  {
    if indices != [] {
      ParseShowNat(indices[0]);
      TokensCons(indices);
      TokensNonEmpty(indices[1..]);
    }
  }

  predicate Bracketed(s: string) {
    s != [] && s[0] == '[' && s[|s| - 1] == ']'
  }

  lemma {:induction false} ShowIndicesShape(indices: seq<nat>)
    ensures !Contains(ShowIndices(indices), '.')
    ensures indices != [] ==> Bracketed(ShowIndices(indices))
  {
    if indices != [] {
      ParseShowNat(indices[0]);
      ShowIndicesShape(indices[1..]);
    }
  }

  lemma {:induction false} ShowSegmentShape(segment: Segment)
    requires PlainName(segment.name)
    ensures ShowSegment(segment) != [] && Trimmed(ShowSegment(segment)) && !Contains(ShowSegment(segment), '.')
  {
    ShowIndicesShape(segment.indices);
  }

  /** The writer cuts a printed segment into its name and the digits of its indices. */
  lemma {:induction false} WriterReadsSegment(segment: Segment)
    requires PlainName(segment.name)
    ensures WriterSegmentTokens(ShowSegment(segment)) == [segment.name] + Tokens(IndexSteps(segment.indices))
  {
    ShowSegmentShape(segment);
    TrimmedStrips(ShowSegment(segment));
    var start := Scan([], [], false);
    ScanPlain(start, segment.name, ShowIndices(segment.indices));
    assert [] + segment.name == segment.name;
    ScanIndices(Scan([], segment.name, false), segment.indices);
    TokensNonEmpty(segment.indices);
    NonEmptyKeepsAll([segment.name] + Tokens(IndexSteps(segment.indices)));
  }

  function Parts(path: seq<Segment>): seq<string> {
    seq(|path|, i requires 0 <= i < |path| => ShowSegment(path[i]))
  }

  lemma {:induction false} SplitDotsInvertsJoin(path: seq<Segment>)
    requires Canonical(path)
    ensures SplitDots(ShowSegments(path)) == Parts(path)
    decreases |path|
  {
    var head := ShowSegment(path[0]);
    ShowSegmentShape(path[0]);
    if |path| == 1 {
      FindNone(head, '.');
    } else {
      var rest := ShowSegments(path[1..]);
      FindFirst(head, '.', rest);
      assert (head + "." + rest)[..|head|] == head && (head + "." + rest)[|head| + 1..] == rest;
      SplitDotsInvertsJoin(path[1..]);
    }
  }

  lemma {:induction false} ConcatMapWriterInverts(path: seq<Segment>)
    requires forall i | 0 <= i < |path| :: PlainName(path[i].name)
    ensures ConcatMapWriter(Parts(path)) == Tokens(Steps(path))
    decreases |path|
  {
    var parts := Parts(path);
    if path != [] {
      WriterReadsSegment(path[0]);
      assert parts[1..] == Parts(path[1..]);
      ConcatMapWriterInverts(path[1..]);
      TokensAppend([Name(path[0].name)] + IndexSteps(path[0].indices), Steps(path[1..]));
      TokensAppend([Name(path[0].name)], IndexSteps(path[0].indices));
    }
  }

  lemma {:induction false} ShowSegmentsShape(path: seq<Segment>)
    requires Canonical(path)
    ensures ShowSegments(path) != [] && Trimmed(ShowSegments(path))
    decreases |path|
  {
    ShowSegmentShape(path[0]);
    if |path| > 1 {
      ShowSegmentsShape(path[1..]);
    }
  }

  /** A printed path is trimmed, so the `strip` of both parsers leaves it alone. */
  lemma {:induction false} ShowPathTrimmed(path: seq<Segment>)
    requires Canonical(path)
    ensures Strip(ShowPath(path)) == ShowPath(path) && "$." <= ShowPath(path) && ShowPath(path)[2..] == ShowSegments(path)
  {
    ShowSegmentsShape(path);
    TrimmedStrips(ShowPath(path));
  }

  /** The writer's tokens of a printed path are its names and the decimal digits of its indices. */
  lemma {:induction false} WriterInvertsPrinter(path: seq<Segment>)
    requires Canonical(path)
    ensures WriterTokens(ShowPath(path)) == Some(Tokens(Steps(path)))
  {
    ShowPathTrimmed(path);
    SplitDotsInvertsJoin(path);
    ConcatMapWriterInverts(path);
    var parts := Parts(path);
    forall i | 0 <= i < |parts| ensures parts[i] != [] {
      ShowSegmentShape(path[i]);
    }
    NonEmptyKeepsAll(parts);
  }

  lemma {:induction false} SplitPlain(st: Splitter, s: string, t: string)
    requires BracketFree(s) && (st.level == 0 ==> !Contains(s, '.'))
    ensures SplitAll(st, s + t) == SplitAll(st.(buffer := st.buffer + s), t)
    decreases |s|
  {
    if s == [] {
      assert s + t == t && st.buffer + s == st.buffer;
    } else {
      assert (s + t)[1..] == s[1..] + t;
      SplitPlain(SplitChar(st, s[0]), s[1..], t);
      assert st.buffer + [s[0]] + s[1..] == st.buffer + s;
    }
  }

  lemma {:induction false} SplitIndex(st: Splitter, n: nat, t: string)
    requires st.level == 0
    ensures SplitAll(st, IndexThen(n, t)) == SplitAll(st.(buffer := WithIndex(st.buffer, n)), t)
  {
    var digits := ShowNat(n);
    ParseShowNat(n);
    var inside := SplitChar(st, '[');
    assert (['['] + (digits + ([']'] + t)))[1..] == digits + ([']'] + t);
    SplitPlain(inside, digits, [']'] + t);
    assert ([']'] + t)[1..] == t;
  }

  /** Indices never end a part: their brackets balance. */
  lemma {:induction false} SplitIndices(st: Splitter, indices: seq<nat>, t: string)
    requires st.level == 0
    ensures SplitAll(st, ShowIndices(indices) + t) == SplitAll(st.(buffer := st.buffer + ShowIndices(indices)), t)
    decreases |indices|
  {
    if indices == [] {
      assert ShowIndices(indices) + t == t && st.buffer + [] == st.buffer;
    } else {
      var digits, rest := ShowNat(indices[0]), ShowIndices(indices[1..]);
      assert ShowIndices(indices) + t == ['['] + (digits + ([']'] + (rest + t)));
      SplitIndex(st, indices[0], rest + t);
      SplitIndices(st.(buffer := WithIndex(st.buffer, indices[0])), indices[1..], t);
      IndicesUnfold(st.buffer, indices);
    }
  }

  lemma {:induction false} IndicesUnfold(buffer: string, indices: seq<nat>)
    requires indices != []
    ensures WithIndex(buffer, indices[0]) + ShowIndices(indices[1..]) == buffer + ShowIndices(indices)
  {
  }

  lemma {:induction false} SplitSegment(st: Splitter, segment: Segment, t: string)
    requires st.level == 0 && PlainName(segment.name)
    ensures SplitAll(st, ShowSegment(segment) + t) == SplitAll(st.(buffer := st.buffer + ShowSegment(segment)), t)
  {
    var name, indices := segment.name, ShowIndices(segment.indices);
    var named := st.(buffer := st.buffer + name);
    assert ShowSegment(segment) + t == name + (indices + t);
    SplitPlain(st, name, indices + t);
    SplitIndices(named, segment.indices, t);
    assert named.(buffer := named.buffer + indices) == st.(buffer := st.buffer + ShowSegment(segment)) by {
      assert st.buffer + name + indices == st.buffer + (name + indices);
    }
  }

  lemma {:induction false} SplitAllInvertsJoin(parts: seq<string>, path: seq<Segment>)
    requires Canonical(path)
    ensures var st := SplitAll(Splitter(parts, [], 0), ShowSegments(path));
            st.parts + [st.buffer] == parts + Parts(path)
    decreases |path|
  {
    var head := ShowSegment(path[0]);
    var st := Splitter(parts, [], 0);
    assert [] + head == head;
    if |path| == 1 {
      SplitSegment(st, path[0], []);
      assert head + [] == head;
    } else {
      var rest := ShowSegments(path[1..]);
      assert head + "." + rest == head + (['.'] + rest);
      SplitSegment(st, path[0], ['.'] + rest);
      assert (['.'] + rest)[1..] == rest;
      SplitAllInvertsJoin(parts + [head], path[1..]);
    }
  }

  lemma {:induction false} ReaderReadsIndices(indices: seq<nat>)
    ensures ReaderSegmentTokens(ShowIndices(indices)) == Some(IndexSteps(indices))
    decreases |indices|
  {
    if indices != [] {
      var digits, rest := ShowNat(indices[0]), ShowIndices(indices[1..]);
      ParseShowNat(indices[0]);
      DigitsAreTrimmed(digits);
      FindFirst("[" + digits, ']', rest);
      assert ShowIndices(indices) == "[" + digits + [']'] + rest;
      assert ShowIndices(indices)[1..|digits| + 1] == digits;
      assert ShowIndices(indices)[|digits| + 2..] == rest;
      ReaderReadsIndices(indices[1..]);
    }
  }

  /** The reader cuts a printed segment into its name and its integer indices. */
  lemma {:induction false} ReaderReadsSegment(segment: Segment)
    requires PlainName(segment.name)
    ensures ReaderSegmentTokens(ShowSegment(segment)) == Some([Name(segment.name)] + IndexSteps(segment.indices))
  {
    var text := ShowSegment(segment);
    ShowIndicesShape(segment.indices);
    if segment.indices == [] {
      assert text == segment.name + [] == segment.name;
      FindNone(text, '[');
      assert [Name(text)] + IndexSteps([]) == [Name(text)];
    } else {
      var indices := ShowIndices(segment.indices);
      assert text == segment.name + ['['] + indices[1..];
      FindFirst(segment.name, '[', indices[1..]);
      assert text[..|segment.name|] == segment.name && text[|segment.name|..] == indices;
      ReaderReadsIndices(segment.indices);
    }
  }

  lemma {:induction false} ConcatMapReaderInverts(path: seq<Segment>)
    requires forall i | 0 <= i < |path| :: PlainName(path[i].name)
    ensures ConcatMapReader(Parts(path)) == Some(Steps(path))
    decreases |path|
  {
    var parts := Parts(path);
    if path != [] {
      ReaderReadsSegment(path[0]);
      assert parts[1..] == Parts(path[1..]);
      ConcatMapReaderInverts(path[1..]);
    }
  }

  /** The reader's steps of a printed path are exactly the path's names and indices. */
  lemma {:induction false} ReaderInvertsPrinter(path: seq<Segment>)
    requires Canonical(path)
    ensures ReaderSteps(ShowSegments(path)) == Some(Steps(path))
  {
    SplitAllInvertsJoin([], path);
    ConcatMapReaderInverts(path);
    var parts := Parts(path);
    forall i | 0 <= i < |parts| ensures parts[i] != [] {
      ShowSegmentShape(path[i]);
    }
    NonEmptyKeepsAll(parts);
    assert [] + parts == parts;
  }

  /** The two parsers agree on every canonical path, up to how they spell an index. */
  lemma {:induction false} ParsersAgree(path: seq<Segment>)
    requires Canonical(path)
    ensures ReaderSteps(ShowSegments(path)).Some?
    ensures WriterTokens(ShowPath(path)) == Some(Tokens(ReaderSteps(ShowSegments(path)).value))
  {
    WriterInvertsPrinter(path);
    ReaderInvertsPrinter(path);
  }
}
