/** Writes keep a context well formed, the exact reach of the guard that protects the global scope
    and the run envelope during tests, and the behaviour of constant paths. */
module ContextGuards {
  import opened Prelude
  import opened PyValues
  import opened PathTokens
  import opened ContextStore
  import opened ContextLaws
  import opened ContextTheorems
  import opened ContextFrames

  // ----- Well-formedness is kept -----

  lemma {:induction false} PaddingClean(items: seq<Value>, idx: nat)
    requires NoShared(List(items))
    ensures NoShared(List(EnsureListSize(items, idx)))
    decreases idx + 1 - |items|
  {
    if |items| <= idx {
      PaddingClean(items + [Dict(map[])], idx);
    }
  }

  lemma {:induction false} AssignNestedClean(v: Value, tokens: seq<string>, value: Value)
    requires tokens != [] && NoShared(v) && NoShared(value)
    ensures NoShared(AssignNested(v, tokens, value).0)
    decreases |tokens|
  {
    match ToIndex(tokens[0])
    case Some(i) =>
      if v.List? {
        PaddingClean(v.items, i);
        var items := EnsureListSize(v.items, i);
        if |tokens| > 1 {
          var next := if items[i] == Null then FreshContainer(tokens[1]) else items[i];
          AssignNestedClean(next, tokens[1..], value);
        }
      }
    case None =>
      if v.Dict? && |tokens| > 1 {
        var next := if tokens[0] in v.entries && v.entries[tokens[0]] != Null
                    then v.entries[tokens[0]] else FreshContainer(tokens[1]);
        AssignNestedClean(next, tokens[1..], value);
      }
  }

  lemma {:induction false} AssignTopEntries(m: map<string, Value>, tokens: seq<string>, value: Value)
    requires tokens != [] && NoShared(value)
    requires |tokens| > 1 && ToIndex(tokens[0]).None? && tokens[0] in m ==> NoShared(m[tokens[0]])
    ensures AssignNested(Dict(m), tokens, value).0.Dict?
    ensures PlainEntries(m, AssignNested(Dict(m), tokens, value).0.entries)
  {
    if |tokens| > 1 && ToIndex(tokens[0]).None? {
      var next := if tokens[0] in m && m[tokens[0]] != Null then m[tokens[0]] else FreshContainer(tokens[1]);
      AssignNestedClean(next, tokens[1..], value);
    }
  }

  lemma {:induction false} AssignInKeepsForm(s: Scopes, c: ConstantContext, tokens: seq<string>, value: Value)
    requires tokens != [] && WellFormed(s) && NoShared(value)
    ensures WellFormed(AssignIn(s, c, tokens, value).scopes)
    decreases |tokens|
  {
    if ThroughAlias(s, c, tokens) {
      AssignInKeepsForm(s, s.Get(c)[tokens[0]].scope, tokens[1..], value);
    } else {
      AssignTopEntries(s.Get(c), tokens, value);
      SetKeepsForm(s, c, AssignNested(Dict(s.Get(c)), tokens, value).0.entries);
    }
  }

  lemma {:induction false} EnsureCommandsKeepsForm(s: Scopes)
    requires WellFormed(s)
    ensures WellFormed(EnsureCommands(s))
  {
    SetKeepsForm(s, Results, EnsureCommands(s).results);
  }

  /** Every write of a plain value, on any path text at all, keeps a context well formed. */
  lemma {:induction false} WriteKeepsForm(s: Scopes, kind: ItemKind, path: string, value: Value)
    requires WellFormed(s) && NoShared(value)
    ensures WellFormed(WritePath(s, kind, path, value).scopes)
  {
    match WriterTokens(path)
    case None =>
    case Some(tokens) =>
      match RootOf(tokens)
      case None =>
      case Some(target) =>
        EnsureCommandsKeepsForm(s);
        var rest := TargetTokens(target, tokens);
        match target
        case ScopeTarget(c) =>
          if rest != [] {
            AssignInKeepsForm(s, c, rest, value);
          } else if value.Dict? {
            SetKeepsForm(s, c, value.entries);
          }
        case CommandsTarget =>
          var s1 := EnsureCommands(s);
          if rest != [] {
            AssignInKeepsForm(s1, Results, ["commands"] + rest, value);
          } else if value.Dict? {
            SetKeepsForm(s1, Results, s1.results["commands" := value]);
          }
  }

  /** So does every removal. */
  lemma {:induction false} RemoveKeepsForm(s: Scopes, kind: ItemKind, path: string)
    requires WellFormed(s)
    ensures WellFormed(RemovePath(s, kind, path).scopes)
  {
    match WriterTokens(path)
    case None =>
    case Some(tokens) =>
      match RootOf(tokens)
      case None =>
      case Some(target) =>
        EnsureCommandsKeepsForm(s);
        var rest := TargetTokens(target, tokens);
        if rest != [] {
          match target
          case ScopeTarget(c) => RemoveInKeepsForm(s, c, rest);
          case CommandsTarget => RemoveInKeepsForm(EnsureCommands(s), Results, ["commands"] + rest);
        }
  }

  // ----- The guard on tests -----

  /** A path that reaches the global scope through the alias in the local one. */
  predicate Escapes(path: seq<Segment>)
    requires Canonical(path)
  {
    TargetOf(path) == Some(ScopeTarget(Local)) && |Below(path)| > 1 && Below(path)[0] == Name("global")
  }

  predicate Untouched(s: Scopes, s': Scopes) {
    s'.global == s.global && s'.runEnvelope == s.runEnvelope
  }

  lemma {:induction false} CompletionIgnoresValue(v: Value, tokens: seq<string>, a: Value, b: Value)
    requires tokens != []
    ensures AssignNested(v, tokens, a).1 == AssignNested(v, tokens, b).1
    decreases |tokens|
  {
    if |tokens| > 1 {
      match ToIndex(tokens[0])
      case Some(i) =>
        if v.List? {
          var items := EnsureListSize(v.items, i);
          CompletionIgnoresValue(if items[i] == Null then FreshContainer(tokens[1]) else items[i], tokens[1..], a, b);
        }
      case None =>
        if v.Dict? {
          CompletionIgnoresValue(if tokens[0] in v.entries && v.entries[tokens[0]] != Null
                                 then v.entries[tokens[0]] else FreshContainer(tokens[1]), tokens[1..], a, b);
        }
    }
  }

  lemma {:induction false} AssignInOnly(s: Scopes, c: ConstantContext, steps: seq<Step>, value: Value)
    requires steps != []
    ensures forall e | e != Landing(s, c, steps).0 :: AssignIn(s, c, Tokens(steps), value).scopes.Get(e) == s.Get(e)
  {
    AssignInLands(s, c, steps, value);
    var (d, p) := Landing(s, c, steps);
    SetGets(s, d, AssignNested(Dict(s.Get(d)), Tokens(p), value).0.entries);
  }

  lemma {:induction false} StaysInScope(s: Scopes, c: ConstantContext, steps: seq<Step>)
    requires steps != [] && PlainSteps(steps) && AliasesOnly(s)
    requires c == Local || c == Results
    requires c == Local ==> !(|steps| > 1 && steps[0] == Name("global"))
    ensures Landing(s, c, steps).0 == c
  {
    TokensTail(steps);
    TokenKind(steps[0]);
  }

  lemma {:induction false} EnsureCommandsUntouched(s: Scopes)
    ensures Untouched(s, EnsureCommands(s))
    ensures AliasesOnly(s) ==> AliasesOnly(EnsureCommands(s))
  {
    if AliasesOnly(s) {
      SetGets(s, Results, EnsureCommands(s).results);
      var s1 := EnsureCommands(s);
      assert forall c, k | k in s1.Get(c) && s1.Get(c)[k].Shared? :: k in s.Get(c) && s.Get(c)[k] == s1.Get(c)[k];
    }
  }

  lemma {:induction false} LocalWriteUntouched(s: Scopes, target: Target, below: seq<Step>, value: Value)
    requires PlainSteps(below) && AliasesOnly(s) && !Guarded(TestItem, target)
    requires target == ScopeTarget(Local) ==> !(|below| > 1 && below[0] == Name("global"))
    ensures Untouched(s, WriteBelow(s, target, below, value).scopes)
  {
    EnsureCommandsUntouched(s);
    var s1 := if target.CommandsTarget? then EnsureCommands(s) else s;
    var c, steps := ContextOf(target), Effective(target, below);
    EffectivePlain(target, below);
    if steps != [] {
      ConstantsIsNotGlobal();
      StaysInScope(s1, c, steps);
      InScopeUntouched(s1, c, steps, value);
    }
  }

  lemma {:induction false} InScopeUntouched(s: Scopes, c: ConstantContext, steps: seq<Step>, value: Value)
    requires steps != [] && (c == Local || c == Results) && Landing(s, c, steps).0 == c
    ensures Untouched(s, AssignIn(s, c, Tokens(steps), value).scopes)
  {
    AssignInOnly(s, c, steps, value);
    var s' := AssignIn(s, c, Tokens(steps), value).scopes;
    assert s.Get(Global) == s.global && s.Get(RunEnvelope) == s.runEnvelope;
    assert s'.Get(Global) == s'.global && s'.Get(RunEnvelope) == s'.runEnvelope;
  }

  lemma {:induction false} ConstantsIsNotGlobal()
    ensures "constants" != "global" && "commands" != "global" && "global" in RESERVED
  {
    assert "constants"[0] == 'c' && "global"[0] == 'g' && "commands"[0] == 'c';
  }

  /** Through the alias, two different values give two different contexts, so one of them changes
      the global scope or the run envelope. */
  lemma {:induction false} EscapeTouches(s: Scopes, below: seq<Step>, value: Value)
    requires PlainSteps(below) && AliasesOnly(s) && |below| > 1 && below[0] == Name("global")
    requires "global" in s.local && s.local["global"] == Shared(Global)
    requires WriteBelow(s, ScopeTarget(Local), below, value).completed
    ensures !Untouched(s, WriteBelow(s, ScopeTarget(Local), below, Int(0)).scopes)
         || !Untouched(s, WriteBelow(s, ScopeTarget(Local), below, Int(1)).scopes)
  {
    ConstantsIsNotGlobal();
    EscapeLands(s, below);
    UntouchedReads(s, below, value, Int(0));
    UntouchedReads(s, below, value, Int(1));
  }

  lemma {:induction false} EscapeLands(s: Scopes, below: seq<Step>)
    requires PlainSteps(below) && AliasesOnly(s) && |below| > 1 && below[0] == Name("global")
    requires "global" in s.local && s.local["global"] == Shared(Global)
    ensures var d := Landing(s, Local, below).0; d == Global || d == RunEnvelope
  {
    var tokens := Tokens(below);
    TokensTail(below);
    TokenKind(below[0]);
    assert s.Get(Local) == s.local;
    LocatedRank(s, Global, tokens[1..]);
    LocatedKind(s, Global, tokens[1..]);
  }

  lemma {:induction false} LocatedKind(s: Scopes, c: ConstantContext, tokens: seq<string>)
    requires tokens != [] && AliasesOnly(s) && (c == Global || c == RunEnvelope)
    ensures Located(s, c, tokens).0 == Global || Located(s, c, tokens).0 == RunEnvelope
    decreases |tokens|
  {
    if ThroughAlias(s, c, tokens) {
      LocatedKind(s, s.Get(c)[tokens[0]].scope, tokens[1..]);
    }
  }

  lemma {:induction false} UntouchedReads(s: Scopes, below: seq<Step>, value: Value, v: Value)
    requires below != [] && PlainSteps(below) && AliasesOnly(s)
    requires var d := Landing(s, Local, below).0; d == Global || d == RunEnvelope
    requires AssignIn(s, Local, Tokens(below), value).completed
    ensures Untouched(s, AssignIn(s, Local, Tokens(below), v).scopes) ==> Walk(s, Shared(Local), below) == Some(v)
  {
    AssignInLands(s, Local, below, value);
    AssignInLands(s, Local, below, v);
    var (d, p) := Landing(s, Local, below);
    CompletionIgnoresValue(Dict(s.Get(d)), Tokens(p), value, v);
    AssignInReads(s, Local, below, v);
    AssignInOnly(s, Local, below, v);
    var s' := AssignIn(s, Local, Tokens(below), v).scopes;
    assert s'.Get(Local) == s'.local && s.Get(Local) == s.local;
    assert s'.Get(Results) == s'.results && s.Get(Results) == s.results;
  }

  /** The guard on test items protects the global scope and the run envelope from a path whose
      write completes exactly when the path does not go through `local.global`. */
  lemma {:induction false} TestGuardExactly(s: Scopes, path: seq<Segment>, value: Value)
    requires Canonical(path) && AliasesOnly(s)
    requires "global" in s.local && s.local["global"] == Shared(Global)
    requires WritePath(s, TestItem, ShowPath(path), value).completed
    ensures !Escapes(path) <==>
            forall v: Value :: Untouched(s, WritePath(s, TestItem, ShowPath(path), v).scopes)
  {
    var target, below := TargetOf(path), Below(path);
    BelowPlain(path);
    forall v: Value
      ensures WritePath(s, TestItem, ShowPath(path), v) == WriteSteps(s, TestItem, target, below, v)
    {
      WriteUnfolds(s, TestItem, path, v);
    }
    if Escapes(path) {
      EscapeTouches(s, below, value);
      assert !Untouched(s, WritePath(s, TestItem, ShowPath(path), Int(0)).scopes)
          || !Untouched(s, WritePath(s, TestItem, ShowPath(path), Int(1)).scopes);
    } else {
      forall v: Value
        ensures Untouched(s, WritePath(s, TestItem, ShowPath(path), v).scopes)
      {
        LocalWriteUntouched(s, target.value, below, v);
      }
    }
  }

  // ----- Constant paths -----

  /** The path a definition resolves to: `$.<scope>.constants.<name>`. */
  function ConstantPath(c: ConstantContext, name: string): string {
    "$." + ContextName(c) + ".constants." + name
  }

  function ConstantSegments(c: ConstantContext, name: string): seq<Segment> {
    [Segment(ContextName(c), []), Segment("constants", []), Segment(name, [])]
  }

  /** Each scope dict keeps its constants in an object of its own. */
  predicate HasConstants(s: Scopes) {
    forall c :: "constants" in s.Get(c) && s.Get(c)["constants"].Dict?
  }

  function Constants(s: Scopes, c: ConstantContext): map<string, Value>
    requires HasConstants(s)
  {
    s.Get(c)["constants"].entries
  }

  function WithConstants(s: Scopes, c: ConstantContext, m: map<string, Value>): Scopes {
    s.Set(c, s.Get(c)["constants" := Dict(m)])
  }

  lemma {:induction false} ThreeNames(a: string, b: string, c: string)
    ensures var path := [Segment(a, []), Segment(b, []), Segment(c, [])];
            && ShowSegments(path) == a + "." + b + "." + c
            && Steps(path) == [Name(a), Name(b), Name(c)]
  {
    var path := [Segment(a, []), Segment(b, []), Segment(c, [])];
    assert path[1..] == [path[1], path[2]] && path[1..][1..] == [path[2]] && path[1..][1..][1..] == [];
    assert ShowSegment(path[0]) == a && ShowSegment(path[1]) == b && ShowSegment(path[2]) == c;
    assert ShowSegments([path[2]]) == c && ShowSegments([path[1], path[2]]) == b + "." + c;
    assert a + "." + (b + "." + c) == a + "." + b + "." + c;
    assert IndexSteps([]) == [];
    assert Steps([path[2]]) == [Name(c)] + Steps([]);
    assert Steps([path[1], path[2]]) == [Name(b)] + Steps([path[2]]);
  }

  lemma {:induction false} ConstantPathPrints(c: ConstantContext, name: string)
    requires PlainName(name)
    ensures Canonical(ConstantSegments(c, name)) && ShowPath(ConstantSegments(c, name)) == ConstantPath(c, name)
    ensures TargetOf(ConstantSegments(c, name)) == Some(ScopeTarget(c))
    ensures Below(ConstantSegments(c, name)) == [Name("constants"), Name(name)]
  {
    ContextNamePlain(c);
    ReservedNames();
    assert PlainName("constants") by {
      assert "constants" in RESERVED;
    }
    ThreeNames(ContextName(c), "constants", name);
    ConstantPathText(ContextName(c), name);
  }

  lemma {:induction false} ConstantPathText(root: string, name: string)
    ensures "$." + (root + "." + "constants" + "." + name) == "$." + root + ".constants." + name
  {
    assert "." + "constants" + "." == ".constants.";
    assert root + "." + "constants" + "." + name == root + ("." + "constants" + ".") + name;
  }

  lemma {:induction false} ContextNamePlain(c: ConstantContext)
    ensures PlainName(ContextName(c)) && RootNamed(ContextName(c)) == Some(ScopeTarget(c))
    ensures ContextName(c) != "vars" && ContextName(c) != "response"
  {
    assert "runEnvelope"[0] == 'r' && "result"[0] == 'r' && "runEnvelope"[1] == 'u' && "result"[1] == 'e'
        && "global"[0] == 'g' && "local"[0] == 'l' && "vars"[0] == 'v' && "response"[2] == 's' && "result"[3] == 'u' && "response"[3] == 'p';
  }

  lemma {:induction false} ConstantTokens(c: ConstantContext, name: string)
    requires PlainName(name)
    ensures Effective(ScopeTarget(c), [Name("constants"), Name(name)]) == [Name("constants"), Name(name)]
    ensures Tokens([Name("constants"), Name(name)]) == ["constants", name]
    ensures ToIndex("constants") == None && ToIndex(name) == None
  {
    ReservedNames();
    TokenKind(Name("constants"));
    TokenKind(Name(name));
    var steps := [Name("constants"), Name(name)];
    TokensTail(steps);
    TokensTail(steps[1..]);
    assert "constants" in RESERVED;
  }

  /** Writing a constant path adds one entry to that scope's constants, unless it is guarded. */
  lemma {:induction false} ConstantWrite(s: Scopes, kind: ItemKind, c: ConstantContext, name: string, value: Value)
    requires PlainName(name) && HasConstants(s)
    ensures WritePath(s, kind, ConstantPath(c, name), value) ==
            if Guarded(kind, ScopeTarget(c)) then Written(s, false)
            else Written(WithConstants(s, c, Constants(s, c)[name := value]), true)
  {
    ConstantPathPrints(c, name);
    WriteUnfolds(s, kind, ConstantSegments(c, name), value);
    ConstantTokens(c, name);
    var tokens := ["constants", name];
    assert tokens[1..] == [name];
    assert AssignNested(s.Get(c)["constants"], [name], value) == (Dict(Constants(s, c)[name := value]), true);
    assert !ThroughAlias(s, c, tokens);
  }

  /** Removing one drops the entry, if it is there. */
  lemma {:induction false} ConstantRemove(s: Scopes, kind: ItemKind, c: ConstantContext, name: string)
    requires PlainName(name) && HasConstants(s)
    ensures RemovePath(s, kind, ConstantPath(c, name)) ==
            if Guarded(kind, ScopeTarget(c)) then Written(s, false)
            else Written(WithConstants(s, c, Constants(s, c) - {name}), true)
  {
    ConstantPathPrints(c, name);
    RemoveUnfolds(s, kind, ConstantSegments(c, name));
    ConstantTokens(c, name);
    var tokens := ["constants", name];
    assert tokens[1..] == [name];
    var m := Constants(s, c);
    assert name !in m ==> m - {name} == m;
    assert RemoveNested(s.Get(c)["constants"], [name]) == Dict(m - {name});
    assert !ThroughAlias(s, c, tokens);
  }

  /** Resolving one finds the entry, or reports a miss. */
  lemma {:induction false} ConstantLookup(s: Scopes, c: ConstantContext, name: string)
    requires PlainName(name) && HasConstants(s)
    ensures ResolveRef(s, ConstantPath(c, name)) ==
            if name in Constants(s, c) then Found(Constants(s, c)[name]) else Missing
  {
    var path := ConstantSegments(c, name);
    ConstantPathPrints(c, name);
    RootEntries(s, path);
    ContextNamePlain(c);
    ResolveBelow(s, path);
    WalkConstant(s, c, name);
  }

  lemma {:induction false} WalkConstant(s: Scopes, c: ConstantContext, name: string)
    requires HasConstants(s)
    ensures Walk(s, Shared(c), [Name("constants"), Name(name)]) ==
            if name in Constants(s, c) then Some(Constants(s, c)[name]) else None
  {
    var steps := [Name("constants"), Name(name)];
    assert steps[1..] == [Name(name)] && steps[1..][1..] == [];
    assert Walk(s, Shared(c), steps) == Walk(s, Dict(Constants(s, c)), [Name(name)]);
  }
}
