/** When a write completes, and what it creates on its way. */
module ContextCompletion {
  import opened Prelude
  import opened PyText
  import opened PyValues
  import opened PathTokens
  import opened ContextStore
  import opened ContextLaws
  import opened ContextTheorems
  import opened ContextGuards
  import opened RunContexts

  /** A name needs an object, an index a list. */
  predicate Fits(v: Value, step: Step) {
    if step.Name? then v.Dict? else v.List?
  }

  /** What stands at each place on the way to a location, missing or null apart, fits the next step;
      and a list element that is missing is only followed by a name. */
  predicate ClearWay(current: Value, steps: seq<Step>)
    requires steps != []
  {
    Fits(current, steps[0]) && forall k | 0 < k < |steps| :: ClearAt(At(current, steps[..k]), steps[k - 1], steps[k])
  }

  predicate ClearAt(there: Option<Value>, step: Step, next: Step) {
    match there
    case Some(v) => v == Null || Fits(v, next)
    case None => step.Index? ==> next.Name?
  }

  // ----- Completion -----

  lemma {:induction false} NothingBelow(v: Value, steps: seq<Step>)
    requires v == Dict(map[]) || v == List([]) || v == Null
    requires steps != []
    ensures At(v, steps) == None
  {
  }

  /** The way below an entry is the rest of the way. */
  lemma {:induction false} WayBelow(current: Value, steps: seq<Step>, next: Value)
    requires |steps| > 1 && Fits(current, steps[0])
    requires next == match Child(current, steps[0])
                     case Some(v) => if v == Null then if steps[1].Index? then List([]) else Dict(map[]) else v
                     case None => if steps[0].Name? && steps[1].Index? then List([]) else Dict(map[])
    ensures ClearWay(current, steps) <==> ClearWay(next, steps[1..])
  {
    var rest := steps[1..];
    forall k | 1 < k < |steps|
      ensures ClearAt(At(current, steps[..k]), steps[k - 1], steps[k])
          <==> ClearAt(At(next, rest[..k - 1]), rest[k - 2], rest[k - 1])
    {
      assert steps[..k][1..] == rest[..k - 1];
      if Child(current, steps[0]).None? || Child(current, steps[0]).value == Null {
        NothingBelow(next, rest[..k - 1]);
        NothingBelow(Null, rest[..k - 1]);
      }
    }
    FirstEntry(current, steps);
    assert forall k | 0 < k < |rest| :: rest[k] == steps[k + 1] && rest[k - 1] == steps[k];
    if ClearWay(current, steps) {
      assert ClearAt(At(current, steps[..1]), steps[0], steps[1]);
      assert forall k | 0 < k < |rest| :: ClearAt(At(current, steps[..k + 1]), steps[k], steps[k + 1]);
    }
  }

  lemma {:induction false} FirstEntry(current: Value, steps: seq<Step>)
    requires steps != []
    ensures At(current, steps[..1]) == Child(current, steps[0])
  {
    assert steps[..1][1..] == [];
  }

  /** The assignment below an entry. */
  lemma {:induction false} AssignBelow(current: Value, steps: seq<Step>, value: Value) returns (next: Value)
    requires |steps| > 1 && PlainSteps(steps) && Fits(current, steps[0])
    ensures next == match Child(current, steps[0])
                    case Some(v) => if v == Null then if steps[1].Index? then List([]) else Dict(map[]) else v
                    case None => if steps[0].Name? && steps[1].Index? then List([]) else Dict(map[])
    ensures var (r, ok) := AssignNested(next, Tokens(steps[1..]), value);
            AssignNested(current, Tokens(steps), value) ==
              (match steps[0]
               case Name(n) => Dict(current.entries[n := r])
               case Index(i) => List(Padded(current.items, i)[i := r]), ok)
  {
    TokensTail(steps);
    TokensTail(steps[1..]);
    TokenKind(steps[0]);
    TokenKind(steps[1]);
    match steps[0]
    case Name(n) =>
      next := if n in current.entries && current.entries[n] != Null then current.entries[n]
              else if steps[1].Index? then List([]) else Dict(map[]);
    case Index(i) =>
      PaddingExactly(current.items, i);
      var items := Padded(current.items, i);
      next := if items[i] == Null then if steps[1].Index? then List([]) else Dict(map[]) else items[i];
  }

  /** A list with an index i: what is missing up to there are empty objects. */
  function Padded(items: seq<Value>, i: nat): (r: seq<Value>)
    ensures |r| > i
  {
    seq(if |items| > i then |items| else i + 1, j requires 0 <= j => if j < |items| then items[j] else Dict(map[]))
  }

  lemma {:induction false} PaddingExactly(items: seq<Value>, i: nat)
    ensures EnsureListSize(items, i) == Padded(items, i)
    decreases i + 1 - |items|
  {
    if |items| <= i {
      PaddingExactly(items + [Dict(map[])], i);
    }
  }

  /** An assignment that stops at its first step, or ends there. */
  lemma {:induction false} AssignFirst(current: Value, steps: seq<Step>, value: Value)
    requires steps != [] && PlainSteps(steps) && (|steps| == 1 || !Fits(current, steps[0]))
    ensures AssignNested(current, Tokens(steps), value).1 <==> ClearWay(current, steps)
  {
    TokensTail(steps);
    TokenKind(steps[0]);
  }

  /** An assignment completes exactly when its way is clear. */
  lemma {:induction false} AssignCompletesExactly(current: Value, steps: seq<Step>, value: Value)
    requires steps != [] && PlainSteps(steps)
    ensures AssignNested(current, Tokens(steps), value).1 <==> ClearWay(current, steps)
    decreases |steps|
  {
    if |steps| > 1 && Fits(current, steps[0]) {
      var next := AssignBelow(current, steps, value);
      AssignCompletesExactly(next, steps[1..], value);
      WayBelow(current, steps, next);
    } else {
      AssignFirst(current, steps, value);
    }
  }

  // ----- What is created -----

  /** An object has one name more, or a list reaches one index further; whatever else it held stays,
      and what a list lacked before the index are empty objects. What was missing, or null, counts
      as empty. */
  ghost predicate Grown(before: Option<Value>, after: Value, step: Step) {
    match step
    case Name(n) =>
      var was := if before.Some? && before.value.Dict? then before.value.entries else map[];
      && after.Dict? && after.entries.Keys == was.Keys + {n}
      && forall key | key in was && key != n :: after.entries[key] == was[key]
    case Index(i) =>
      var was := if before.Some? && before.value.List? then before.value.items else [];
      && after.List? && |after.items| == (if |was| > i then |was| else i + 1)
      && (forall j | 0 <= j < |was| && j != i :: after.items[j] == was[j])
      && forall j | |was| <= j < i :: after.items[j] == Dict(map[])
  }

  /** What is found further down, before and after. */
  lemma {:induction false} FoundBelow(current: Value, steps: seq<Step>, value: Value, k: nat) returns (next: Value)
    requires PlainSteps(steps) && 0 < k < |steps| && ClearWay(current, steps)
    ensures ClearWay(next, steps[1..])
    ensures At(AssignNested(current, Tokens(steps), value).0, steps[..k])
         == At(AssignNested(next, Tokens(steps[1..]), value).0, steps[1..][..k - 1])
    ensures (Lacks(At(current, steps[..k])) && Lacks(At(next, steps[1..][..k - 1])))
         || At(current, steps[..k]) == At(next, steps[1..][..k - 1])
  {
    next := AssignBelow(current, steps, value);
    var rest := steps[1..];
    WayBelow(current, steps, next);
    assert steps[..k][1..] == rest[..k - 1];
    if Child(current, steps[0]).None? || Child(current, steps[0]).value == Null {
      if k > 1 {
        NothingBelow(next, rest[..k - 1]);
        NothingBelow(Null, rest[..k - 1]);
      }
    }
  }

  /** Nothing, null or an empty container: all the same to what grows there. */
  predicate Lacks(there: Option<Value>) {
    there == None || there == Some(Null) || there == Some(Dict(map[])) || there == Some(List([]))
  }

  lemma {:induction false} LackingGrowsAlike(a: Option<Value>, b: Option<Value>, after: Value, step: Step)
    requires Lacks(a) && Lacks(b)
    ensures Grown(a, after, step) <==> Grown(b, after, step)
  {
    GrownFromNothing(a, after, step);
    GrownFromNothing(b, after, step);
  }

  lemma {:induction false} GrownFromNothing(a: Option<Value>, after: Value, step: Step)
    requires Lacks(a)
    ensures Grown(a, after, step) <==> Grown(None, after, step)
  {
  }

  /** At each place on its way a completed assignment leaves the container its next step needs,
      grown by that step alone. */
  lemma {:induction false} AssignGrows(current: Value, steps: seq<Step>, value: Value, k: nat)
    requires steps != [] && PlainSteps(steps) && k < |steps| && ClearWay(current, steps)
    ensures var after := At(AssignNested(current, Tokens(steps), value).0, steps[..k]);
            after.Some? && Grown(At(current, steps[..k]), after.value, steps[k])
    decreases |steps|
  {
    if k == 0 {
      GrownHere(current, steps, value);
    } else {
      var next := FoundBelow(current, steps, value, k);
      AssignGrows(next, steps[1..], value, k - 1);
      var after := At(AssignNested(current, Tokens(steps), value).0, steps[..k]);
      if Lacks(At(current, steps[..k])) && Lacks(At(next, steps[1..][..k - 1])) {
        LackingGrowsAlike(At(current, steps[..k]), At(next, steps[1..][..k - 1]), after.value, steps[k]);
      }
    }
  }

  lemma {:induction false} GrownHere(current: Value, steps: seq<Step>, value: Value)
    requires steps != [] && PlainSteps(steps) && ClearWay(current, steps)
    ensures Grown(Some(current), AssignNested(current, Tokens(steps), value).0, steps[0])
  {
    TokensTail(steps);
    TokenKind(steps[0]);
    if |steps| > 1 {
      var next := AssignBelow(current, steps, value);
    } else if steps[0].Index? {
      PaddingExactly(current.items, steps[0].index);
    }
  }

  // ----- Removal -----

  /** The parent of what is removed, without it. */
  predicate TakenOut(before: Value, after: Value, step: Step) {
    match step
    case Name(n) => before.Dict? && after == Dict(before.entries - {n})
    case Index(i) => before.List? && i < |before.items| && after == List(before.items[..i] + before.items[i + 1..])
  }

  /** A removal takes the one name or element out of its parent, and nothing where there is none. */
  lemma {:induction false} RemoveTakesOut(current: Value, p: seq<Step>)
    requires p != [] && PlainSteps(p)
    ensures At(current, p) == None ==> RemoveNested(current, Tokens(p)) == current
    ensures At(current, p).Some? ==>
              var parent := p[..|p| - 1];
              && At(current, parent).Some? && At(RemoveNested(current, Tokens(p)), parent).Some?
              && TakenOut(At(current, parent).value, At(RemoveNested(current, Tokens(p)), parent).value, p[|p| - 1])
    decreases |p|
  {
    if Child(current, p[0]).None? {
      RemoveNowhere(current, p);
    } else if |p| == 1 {
      TokensTail(p);
      TokenKind(p[0]);
      assert p[1..] == [] && p[..0] == [];
      assert At(current, p) == Child(current, p[0]);
    } else {
      var child := Child(current, p[0]).value;
      RemoveStep(current, p);
      RemoveTakesOut(child, p[1..]);
      assert p[..|p| - 1][1..] == p[1..][..|p| - 2];
      if At(current, p) == None {
        ChildPutBack(current, p[0]);
      }
    }
  }

  lemma {:induction false} ChildPutBack(v: Value, step: Step)
    requires Child(v, step).Some?
    ensures WithChild(v, step, Child(v, step).value) == v
  {
  }

  /** Whatever is neither above, beside nor below what is removed stays. */
  lemma {:induction false} RemoveLeaves(current: Value, p: seq<Step>, q: seq<Step>)
    requires p != [] && PlainSteps(p) && Apart(p[..|p| - 1], q)
    ensures At(RemoveNested(current, Tokens(p)), q) == At(current, q)
    decreases |p|
  {
    ApartTail(p[..|p| - 1], q);
    assert p[..|p| - 1][1..] == p[1..][..|p| - 2];
    if Child(current, p[0]).None? {
      RemoveNowhere(current, p);
    } else {
      RemoveStep(current, p);
      if p[0] == q[0] {
        RemoveLeaves(Child(current, p[0]).value, p[1..], q[1..]);
      } else {
        ChildElsewhere(current, p[0], RemoveNested(Child(current, p[0]).value, Tokens(p[1..])), q[0]);
      }
    }
  }

  lemma {:induction false} ChildElsewhere(v: Value, step: Step, child: Value, other: Step)
    requires Child(v, step).Some? && other != step
    ensures Child(WithChild(v, step, child), other) == Child(v, other)
  {
  }

  // ----- Through the aliases -----

  /** What the reader finds some steps below a scope, an alias read through. */
  function FoundAt(s: Scopes, c: ConstantContext, steps: seq<Step>): Option<Value> {
    match Walk(s, Shared(c), steps)
    case None => None
    case Some(v) => Some(Deref(s, v))
  }

  /** The way below a scope as the reader sees it. */
  predicate ClearBelow(s: Scopes, c: ConstantContext, steps: seq<Step>)
    requires steps != []
  {
    steps[0].Name? && forall k | 0 < k < |steps| :: ClearAt(FoundAt(s, c, steps[..k]), steps[k - 1], steps[k])
  }

  lemma {:induction false} WalkIsAt(s: Scopes, v: Value, steps: seq<Step>)
    requires NoShared(v)
    ensures Walk(s, v, steps) == At(v, steps)
    ensures At(v, steps).Some? ==> NoShared(At(v, steps).value)
    decreases |steps|
  {
    if steps != [] && Child(v, steps[0]).Some? {
      WalkIsAt(s, Child(v, steps[0]).value, steps[1..]);
    }
  }

  lemma {:induction false} FoundInTree(s: Scopes, c: ConstantContext, steps: seq<Step>, k: nat)
    requires WellFormed(s) && 0 < k < |steps| && PlainSteps(steps) && !ThroughAlias(s, c, Tokens(steps))
    ensures FoundAt(s, c, steps[..k]) == At(Dict(s.Get(c)), steps[..k])
  {
    TokensTail(steps);
    TokenKind(steps[0]);
    TokensCount(steps);
    var first := Child(Dict(s.Get(c)), steps[0]);
    if first.Some? {
      WalkIsAt(s, first.value, steps[..k][1..]);
    }
  }

  lemma {:induction false} TokensCount(steps: seq<Step>)
    ensures |Tokens(steps)| == |steps|
  {
    if steps != [] {
      TokensTail(steps);
      TokensCount(steps[1..]);
    }
  }

  lemma {:induction false} ClearThrough(s: Scopes, c: ConstantContext, steps: seq<Step>)
    requires |steps| > 1 && PlainSteps(steps) && ThroughAlias(s, c, Tokens(steps))
    ensures ClearBelow(s, c, steps) <==> ClearBelow(s, s.Get(c)[Tokens(steps)[0]].scope, steps[1..])
  {
    TokensTail(steps);
    TokenKind(steps[0]);
    var next, rest := s.Get(c)[Tokens(steps)[0]].scope, steps[1..];
    forall k | 0 < k < |steps| ensures FoundAt(s, c, steps[..k]) == FoundAt(s, next, rest[..k - 1]) {
      assert steps[..k][1..] == rest[..k - 1];
    }
    assert rest[..0] == [];
    assert FoundAt(s, c, steps[..1]) == Some(Dict(s.Get(next)));
    if ClearBelow(s, c, steps) {
      assert ClearAt(FoundAt(s, c, steps[..1]), steps[0], steps[1]);
      forall k | 0 < k < |rest| ensures ClearAt(FoundAt(s, next, rest[..k]), rest[k - 1], rest[k]) {
        assert ClearAt(FoundAt(s, c, steps[..k + 1]), steps[k], steps[k + 1]);
      }
    }
    if ClearBelow(s, next, rest) {
      forall k | 0 < k < |steps| ensures ClearAt(FoundAt(s, c, steps[..k]), steps[k - 1], steps[k]) {
        if k > 1 {
          assert ClearAt(FoundAt(s, next, rest[..k - 1]), rest[k - 2], rest[k - 1]);
        }
      }
    }
  }

  /** An assignment below a scope completes exactly when its way is clear, aliases read through. */
  lemma {:induction false} AssignInCompletesExactly(s: Scopes, c: ConstantContext, steps: seq<Step>, value: Value)
    requires WellFormed(s) && steps != [] && PlainSteps(steps)
    ensures AssignIn(s, c, Tokens(steps), value).completed <==> ClearBelow(s, c, steps)
    decreases |steps|
  {
    TokensTail(steps);
    TokensCount(steps);
    if ThroughAlias(s, c, Tokens(steps)) {
      ClearThrough(s, c, steps);
      AssignInCompletesExactly(s, s.Get(c)[Tokens(steps)[0]].scope, steps[1..], value);
    } else {
      AssignCompletesExactly(Dict(s.Get(c)), steps, value);
      forall k | 0 < k < |steps| ensures FoundAt(s, c, steps[..k]) == At(Dict(s.Get(c)), steps[..k]) {
        FoundInTree(s, c, steps, k);
      }
    }
  }

  // ----- Whole paths -----

  /** The steps a write takes below a scope: `constants` comes first, unless the path names it or one
      of the entries a scope has beside it, or starts in the results. */
  function StepsTaken(target: Target, below: seq<Step>): seq<Step> {
    match target
    case CommandsTarget => [Name("commands")] + below
    case ScopeTarget(c) =>
      if c == Results || below == [] || below[0] == Name("constants") || below[0] == Name("event")
         || below[0] == Name("run_id") || below[0] == Name("runEnvelope") || below[0] == Name("global")
      then below
      else [Name("constants")] + below
  }

  lemma {:induction false} StepsTakenExactly(target: Target, below: seq<Step>)
    requires PlainSteps(below)
    ensures Effective(target, below) == StepsTaken(target, below)
  {
    if below != [] {
      TokenKind(below[0]);
      if below[0].Index? {
        ReservedNames();
        forall n | n in RESERVED ensures Token(below[0]) != n {
          TokenKind(Name(n));
        }
      }
    }
  }

  /** A write of a canonical path completes exactly when it has a root, one its item may write, and
      either names no entry and assigns an object, or takes steps whose way is clear. */
  lemma {:induction false} WriteCompletesExactly(s: Scopes, kind: ItemKind, path: seq<Segment>, value: Value)
    requires Canonical(path) && WellFormed(s)
    ensures WritePath(s, kind, ShowPath(path), value).completed <==>
              && TargetOf(path).Some? && !Guarded(kind, TargetOf(path).value)
              && if Below(path) == [] then value.Dict?
                 else
                   var target := TargetOf(path).value;
                   var s1 := if target.CommandsTarget? then EnsureCommands(s) else s;
                   ClearBelow(s1, ContextOf(target), StepsTaken(target, Below(path)))
  {
    WriteUnfolds(s, kind, path, value);
    BelowPlain(path);
    if TargetOf(path).Some? {
      WriteBelowCompletes(s, TargetOf(path).value, Below(path), value);
    }
  }

  lemma {:induction false} WriteBelowCompletes(s: Scopes, target: Target, below: seq<Step>, value: Value)
    requires WellFormed(s) && PlainSteps(below)
    ensures WriteBelow(s, target, below, value).completed <==>
              if below == [] then value.Dict?
              else
                var s1 := if target.CommandsTarget? then EnsureCommands(s) else s;
                ClearBelow(s1, ContextOf(target), StepsTaken(target, below))
  {
    StepsTakenExactly(target, below);
    EffectivePlain(target, below);
    EnsureCommandsKeepsForm(s);
    var s1 := if target.CommandsTarget? then EnsureCommands(s) else s;
    if below != [] {
      AssignInCompletesExactly(s1, ContextOf(target), Effective(target, below), value);
    } else if target.CommandsTarget? {
      TokensPrepend("commands", []);
      ReservedNames();
      AssignOneName(s1, Results, "commands", value);
      assert [Name("commands")] + [] == [Name("commands")];
    }
  }

  /** And the value is then found by the steps taken. */
  lemma {:induction false} WrittenWhere(s: Scopes, kind: ItemKind, path: seq<Segment>, c: ConstantContext, value: Value)
    requires Canonical(path) && AliasesOnly(s) && TargetOf(path) == Some(ScopeTarget(c)) && Below(path) != []
    requires WritePath(s, kind, ShowPath(path), value).completed
    ensures Walk(WritePath(s, kind, ShowPath(path), value).scopes, Shared(c), StepsTaken(ScopeTarget(c), Below(path)))
         == Some(value)
  {
    WriteUnfolds(s, kind, path, value);
    BelowPlain(path);
    EffectivePlain(ScopeTarget(c), Below(path));
    StepsTakenExactly(ScopeTarget(c), Below(path));
    AssignInReads(s, c, Effective(ScopeTarget(c), Below(path)), value);
  }

  /** `$.`, `$` and nothing at all are the same before a path, and so are blanks around it. */
  lemma {:induction false} SpelledAlike(text: string)
    requires text != "" && Trimmed(text) && text[0] != '$' && text[0] != '.'
    ensures WriterTokens("$." + text) == WriterTokens(text) && WriterTokens("$" + text) == WriterTokens(text)
    ensures NormalizeTarget(text) == Some(text)
  {
    TrimmedStrips(text);
    TrimmedStrips("$." + text);
    TrimmedStrips("$" + text);
    assert ("$." + text)[2..] == text && ("$" + text)[1..] == text;
  }

  // ----- A created context -----

  const ROWS := [Segment("local", []), Segment("actual", []), Segment("rows", [])]

  lemma {:induction false} NamesArePlain()
    ensures PlainName("actual") && PlainName("rows") && PlainName("m") && PlainName("local")
  {
    assert "actual"[0] == 'a' && "rows"[0] == 'r' && "m"[0] == 'm' && "local"[0] == 'l';
  }

  lemma {:induction false} RowsText()
    ensures "$." + ("local" + "." + "actual" + "." + "rows") == "$.local.actual.rows"
  {
  }

  lemma {:induction false} RowsPrinted()
    ensures Canonical(ROWS) && ShowPath(ROWS) == "$.local.actual.rows"
    ensures TargetOf(ROWS) == Some(ScopeTarget(Local)) && Below(ROWS) == [Name("actual"), Name("rows")]
  {
    NamesArePlain();
    ContextNamePlain(Local);
    ThreeNames("local", "actual", "rows");
    RowsText();
  }

  /** A first name that none of the reserved ones begins like. */
  lemma {:induction false} TakesConstants(c: ConstantContext, name: string, rest: seq<Step>)
    requires c != Results && name != ""
    requires name[0] != 'c' && name[0] != 'e' && name[0] != 'r' && name[0] != 'g'
    ensures StepsTaken(ScopeTarget(c), [Name(name)] + rest) == [Name("constants")] + ([Name(name)] + rest)
  {
    assert "constants"[0] == 'c' && "event"[0] == 'e' && "run_id"[0] == 'r' && "runEnvelope"[0] == 'r' && "global"[0] == 'g';
  }

  lemma {:induction false} TwoNewNames(m: map<string, Value>, a: string, b: string, value: Value)
    requires PlainName(a) && PlainName(b) && "constants" in m && m["constants"] == Dict(map[])
    ensures AssignNested(Dict(m), Tokens([Name("constants"), Name(a), Name(b)]), value)
         == (Dict(m["constants" := Dict(map[a := Dict(map[b := value])])]), true)
  {
    ReservedNames();
    var steps := [Name("constants"), Name(a), Name(b)];
    assert steps[1..] == [Name(a), Name(b)] && [Name(a), Name(b)][1..] == [Name(b)];
    assert PlainName("constants") by {
      assert "constants" in RESERVED;
    }
    var below := AssignBelow(Dict(m), steps, value);
    assert below == Dict(map[]);
    var last := AssignBelow(below, [Name(a), Name(b)], value);
    TokensTail([Name(b)]);
    TokenKind(Name(b));
    assert AssignNested(last, Tokens([Name(b)]), value) == (Dict(map[b := value]), true);
  }

  lemma {:induction false} LocalsAreNoAlias(s: Scopes, rest: seq<Step>)
    requires "constants" in s.local && !s.local["constants"].Shared?
    ensures !ThroughAlias(s, Local, Tokens([Name("constants")] + rest))
  {
    TokensTail([Name("constants")] + rest);
    assert s.Get(Local) == s.local;
  }

  lemma {:induction false} RowsWritten(s: Scopes, kind: ItemKind, value: Value)
    requires "constants" in s.local && s.local["constants"] == Dict(map[])
    ensures WritePath(s, kind, "$.local.actual.rows", value)
         == Written(WithLocals(s, map["actual" := Dict(map["rows" := value])]), true)
  {
    RowsPrinted();
    NamesArePlain();
    WriteUnfolds(s, kind, ROWS, value);
    BelowPlain(ROWS);
    StepsTakenExactly(ScopeTarget(Local), Below(ROWS));
    assert "actual"[0] == 'a' && Below(ROWS) == [Name("actual")] + [Name("rows")];
    TakesConstants(Local, "actual", [Name("rows")]);
    assert [Name("constants")] + Below(ROWS) == [Name("constants"), Name("actual"), Name("rows")];
    LocalsAreNoAlias(s, Below(ROWS));
    assert s.Get(Local) == s.local;
    TwoNewNames(s.local, "actual", "rows", value);
  }

  /** On a created context `$.local.actual.rows` can be written at once: the object on the way is
      created. */
  lemma {:induction false} NestedObjectIsCreated(runId: string, event: Value, vars: Value, kind: ItemKind, value: Value)
    ensures var s := FreshScopes(runId, event, vars);
            WritePath(s, kind, "$.local.actual.rows", value)
            == Written(WithLocals(s, map["actual" := Dict(map["rows" := value])]), true)
  {
    FreshShape(runId, event, vars);
    RowsWritten(FreshScopes(runId, event, vars), kind, value);
  }

  // ----- Lists in lists -----

  const CELL := [Segment("local", []), Segment("m", [0, 0])]

  lemma {:induction false} CellText()
    ensures "$." + ("local" + "." + "m[0][0]") == "$.local.m[0][0]"
    ensures ShowIndices([0, 0]) == "[0][0]" && "m" + "[0][0]" == "m[0][0]"
  {
    assert [0, 0][1..] == [0] && [0][1..] == [] && ShowNat(0) == "0";
    assert ShowIndices([0]) == "[" + "0" + "]" + "" == "[0]";
    assert ShowIndices([0, 0]) == "[" + "0" + "]" + "[0]" == "[0][0]";
  }

  lemma {:induction false} CellSteps()
    ensures Steps(CELL) == [Name("local"), Name("m"), Index(0), Index(0)]
  {
    assert CELL[1..] == [CELL[1]] && CELL[1..][1..] == [];
    assert IndexSteps([]) == [] && [0][1..] == [] && [0, 0][1..] == [0];
    assert IndexSteps([0]) == [Index(0)] && IndexSteps([0, 0]) == [Index(0), Index(0)];
    assert Steps([CELL[1]]) == [Name("m"), Index(0), Index(0)];
  }

  lemma {:induction false} CellPrinted()
    ensures Canonical(CELL) && ShowPath(CELL) == "$.local.m[0][0]"
    ensures TargetOf(CELL) == Some(ScopeTarget(Local)) && Below(CELL) == [Name("m"), Index(0), Index(0)]
  {
    NamesArePlain();
    ContextNamePlain(Local);
    CellText();
    CellSteps();
    assert CELL[1..] == [CELL[1]];
    assert ShowSegment(CELL[0]) == "local" && ShowSegment(CELL[1]) == "m[0][0]";
  }

  /** The way to a list in a list is blocked where the list is missing. */
  lemma {:induction false} CellWay(s: Scopes)
    requires "constants" in s.local && s.local["constants"] == Dict(map[])
    ensures Below(CELL) != [] && !ClearBelow(s, Local, StepsTaken(ScopeTarget(Local), Below(CELL)))
  {
    CellPrinted();
    assert "m"[0] == 'm' && Below(CELL) == [Name("m")] + [Index(0), Index(0)];
    TakesConstants(Local, "m", [Index(0), Index(0)]);
    CellBlocked(s, StepsTaken(ScopeTarget(Local), Below(CELL)));
  }

  lemma {:induction false} CellBlocked(s: Scopes, steps: seq<Step>)
    requires "constants" in s.local && s.local["constants"] == Dict(map[])
    requires steps == [Name("constants"), Name("m"), Index(0), Index(0)]
    ensures !ClearBelow(s, Local, steps)
  {
    NothingInEmptyLocals(s);
    assert steps[..3] == [Name("constants"), Name("m"), Index(0)];
    assert !ClearAt(FoundAt(s, Local, steps[..3]), steps[2], steps[3]);
  }

  /** A list in a list is not created: the missing element is made an object, and the second index
      then raises. */
  lemma {:induction false} NestedListIsNotCreated(runId: string, event: Value, vars: Value, kind: ItemKind, value: Value)
    requires NoShared(Dict(DictOr(event))) && NoShared(Dict(DictOr(vars)))
    ensures !WritePath(FreshScopes(runId, event, vars), kind, "$.local.m[0][0]", value).completed
  {
    var s := FreshScopes(runId, event, vars);
    FreshShape(runId, event, vars);
    FreshIsFormed(runId, event, vars);
    CellRefused(s, kind, value);
  }

  lemma {:induction false} CellRefused(s: Scopes, kind: ItemKind, value: Value)
    requires WellFormed(s) && "constants" in s.local && s.local["constants"] == Dict(map[])
    ensures !WritePath(s, kind, "$.local.m[0][0]", value).completed
  {
    CellPrinted();
    WriteCompletesExactly(s, kind, CELL, value);
    CellWay(s);
  }

  lemma {:induction false} NothingInEmptyLocals(s: Scopes)
    requires "constants" in s.local && s.local["constants"] == Dict(map[])
    ensures FoundAt(s, Local, [Name("constants"), Name("m"), Index(0)]) == None
  {
    var steps := [Name("constants"), Name("m"), Index(0)];
    assert steps[1..] == [Name("m"), Index(0)] && s.Get(Local) == s.local;
    assert Walk(s, Dict(map[]), [Name("m"), Index(0)]) == None;
    assert Walk(s, Shared(Local), steps) == Walk(s, Dict(map[]), [Name("m"), Index(0)]);
  }
}
