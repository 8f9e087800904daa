/** What write_context_path, remove_context_path and _resolve_ref guarantee about each other, on
    every canonical path and every context whose only aliases are the two built-in ones. */
module ContextTheorems {
  import opened Prelude
  import opened PyText
  import opened PyValues
  import opened PathTokens
  import opened ContextStore
  import opened ContextLaws

  /** The scope dicts hold no alias but `global.runEnvelope` and `local.global`. */
  predicate AliasesOnly(s: Scopes) {
    forall c, k | k in s.Get(c) && s.Get(c)[k].Shared? ::
      || (c == Local && k == "global" && s.Get(c)[k].scope == Global)
      || (c == Global && k == "runEnvelope" && s.Get(c)[k].scope == RunEnvelope)
  }

  /** A value holding no reference to a scope dict. */
  predicate NoShared(v: Value) {
    match v
    case Shared(_) => false
    case List(items) => forall x | x in items :: NoShared(x)
    case Dict(m) => forall k | k in m :: NoShared(m[k])
    case _ => true
  }

  /** The contexts the runtime builds: the two built-in aliases where create_run_context puts
      them, and plain values everywhere else. */
  predicate WellFormed(s: Scopes) {
    && AliasesOnly(s)
    && forall c, k | k in s.Get(c) && !s.Get(c)[k].Shared? :: NoShared(s.Get(c)[k])
  }

  lemma {:induction false} ReservedNames()
    ensures forall n | n in RESERVED :: PlainName(n)
    ensures PlainName("commands") && "commands" !in RESERVED
  {
    assert "constants"[0] == 'c' && "event"[0] == 'e' && "run_id"[0] == 'r'
        && "runEnvelope"[0] == 'r' && "global"[0] == 'g' && "commands"[0] == 'c' && "commands"[2] == 'm';
    assert "constants"[2] == 'n';
  }

  lemma {:induction false} StepsPlain(path: seq<Segment>)
    requires forall i | 0 <= i < |path| :: PlainName(path[i].name)
    ensures PlainSteps(Steps(path))
    ensures path != [] ==> Steps(path) != [] && Steps(path)[0] == Name(path[0].name)
  {
    if path != [] {
      StepsPlain(path[1..]);
      IndexStepsPlain(path[0].indices);
    }
  }

  lemma {:induction false} IndexStepsPlain(indices: seq<nat>)
    ensures PlainSteps(IndexSteps(indices))
    decreases |indices|
  {
    if indices != [] {
      IndexStepsPlain(indices[1..]);
    }
  }

  /** The steps of a path below its root. */
  function Below(path: seq<Segment>): seq<Step>
    requires Canonical(path)
  {
    Steps(path)[1..]
  }

  predicate StartsReserved(below: seq<Step>) {
    below != [] && Token(below[0]) in RESERVED
  }

  /** The steps the writer follows from the target scope. */
  function Effective(target: Target, below: seq<Step>): seq<Step> {
    if target.CommandsTarget? then [Name("commands")] + below
    else if !target.context.Results? && below != [] && !StartsReserved(below)
    then [Name("constants")] + below
    else below
  }

  function TargetOf(path: seq<Segment>): Option<Target>
    requires Canonical(path)
  {
    RootNamed(path[0].name)
  }

  function ContextOf(target: Target): ConstantContext {
    if target.ScopeTarget? then target.context else Results
  }

  lemma {:induction false} EffectivePlain(target: Target, below: seq<Step>)
    requires PlainSteps(below)
    ensures PlainSteps(Effective(target, below))
  {
    ReservedNames();
  }

  lemma {:induction false} TokensPrepend(n: string, below: seq<Step>)
    ensures Tokens([Name(n)] + below) == [n] + Tokens(below)
  {
    assert ([Name(n)] + below)[1..] == below;
  }

  /** `write_context_path` on a printed canonical path, in terms of its steps. */
  lemma {:induction false} WriteUnfolds(s: Scopes, kind: ItemKind, path: seq<Segment>, value: Value)
    requires Canonical(path)
    ensures WritePath(s, kind, ShowPath(path), value) == WriteSteps(s, kind, TargetOf(path), Below(path), value)
  {
    PrintedTokens(path);
    WriteTokensUnfold(s, kind, Tokens(Steps(path)), Below(path), value);
  }

  /** `remove_context_path` on a printed canonical path, in terms of its steps. */
  lemma {:induction false} RemoveUnfolds(s: Scopes, kind: ItemKind, path: seq<Segment>)
    requires Canonical(path)
    ensures RemovePath(s, kind, ShowPath(path)) == RemoveSteps(s, kind, TargetOf(path), Below(path))
  {
    PrintedTokens(path);
    RemoveTokensUnfold(s, kind, Tokens(Steps(path)), Below(path));
  }

  lemma {:induction false} PrintedTokens(path: seq<Segment>)
    requires Canonical(path)
    ensures var tokens := Tokens(Steps(path));
            && WriterTokens(ShowPath(path)) == Some(tokens)
            && tokens != [] && tokens[1..] == Tokens(Below(path)) && RootOf(tokens) == TargetOf(path)
  {
    WriterInvertsPrinter(path);
    StepsPlain(path);
    TokensTail(Steps(path));
    TrimmedStrips(path[0].name);
  }

  lemma {:induction false} AssignOneName(s: Scopes, c: ConstantContext, name: string, value: Value)
    requires PlainName(name)
    ensures AssignIn(s, c, [name], value) == Written(s.Set(c, s.Get(c)[name := value]), true)
  {
    TokenKind(Name(name));
  }

  lemma {:induction false} WriteAtUnfolds(s: Scopes, t: Target, tokens: seq<string>, below: seq<Step>, value: Value)
    requires tokens != [] && tokens[1..] == Tokens(below)
    ensures WriteAt(s, t, TargetTokens(t, tokens), value) == WriteBelow(s, t, below, value)
  {
    UnfoldTarget(t, tokens, below);
    if t.CommandsTarget? && below == [] && value.Dict? {
      ReservedNames();
      AssignOneName(EnsureCommands(s), Results, "commands", value);
    }
  }

  lemma {:induction false} WriteTokensUnfold(
    s: Scopes, kind: ItemKind, tokens: seq<string>, below: seq<Step>, value: Value)
    requires tokens != [] && tokens[1..] == Tokens(below)
    ensures WriteTokens(s, kind, tokens, value) == WriteSteps(s, kind, RootOf(tokens), below, value)
  {
    match RootOf(tokens)
    case None =>
    case Some(t) => WriteAtUnfolds(s, t, tokens, below, value);
  }

  lemma {:induction false} RemoveTokensUnfold(s: Scopes, kind: ItemKind, tokens: seq<string>, below: seq<Step>)
    requires tokens != [] && tokens[1..] == Tokens(below)
    ensures RemoveTokens(s, kind, tokens) == RemoveSteps(s, kind, RootOf(tokens), below)
  {
    match RootOf(tokens)
    case None =>
    case Some(t) => UnfoldTarget(t, tokens, below);
  }

  lemma {:induction false} UnfoldTarget(target: Target, tokens: seq<string>, below: seq<Step>)
    requires tokens != [] && tokens[1..] == Tokens(below)
    ensures target.ScopeTarget? ==> TargetTokens(target, tokens) == Tokens(Effective(target, below))
    ensures target.CommandsTarget? ==> ["commands"] + TargetTokens(target, tokens) == Tokens(Effective(target, below))
    ensures TargetTokens(target, tokens) == [] <==> below == []
  {
    if below != [] {
      TokensTail(below);
    }
    TokensPrepend("constants", below);
    TokensPrepend("commands", below);
  }

  /** The writer's effect below a target, in terms of steps. */
  function WriteBelow(s: Scopes, t: Target, below: seq<Step>, value: Value): Written {
    var s1 := if t.CommandsTarget? then EnsureCommands(s) else s;
    if below == [] && !value.Dict? then Written(s1, false)
    else if below == [] && t.ScopeTarget? then Written(s.Set(t.context, value.entries), true)
    else AssignIn(s1, ContextOf(t), Tokens(Effective(t, below)), value)
  }

  function WriteSteps(s: Scopes, kind: ItemKind, target: Option<Target>, below: seq<Step>, value: Value): Written {
    match target
    case None => Written(s, false)
    case Some(t) => if Guarded(kind, t) then Written(s, false) else WriteBelow(s, t, below, value)
  }

  function RemoveSteps(s: Scopes, kind: ItemKind, target: Option<Target>, below: seq<Step>): Written {
    match target
    case None => Written(s, true)
    case Some(t) =>
      if Guarded(kind, t) then Written(s, false)
      else
        var s1 := if t.CommandsTarget? then EnsureCommands(s) else s;
        Written(if below == [] then s1 else RemoveIn(s1, ContextOf(t), Tokens(Effective(t, below))), true)
  }

  // ----- Following the aliases -----

  function Rank(c: ConstantContext): nat {
    match c
    case Local => 2
    case Global => 1
    case _ => 0
  }

  /** The scope dict a path really ends in, and how many steps lead there. */
  function Located(s: Scopes, c: ConstantContext, tokens: seq<string>): (r: (ConstantContext, nat))
    requires tokens != []
    ensures r.1 < |tokens| && !ThroughAlias(s, r.0, tokens[r.1..])
    decreases |tokens|
  {
    if ThroughAlias(s, c, tokens) then
      var (d, k) := Located(s, s.Get(c)[tokens[0]].scope, tokens[1..]);
      assert tokens[1..][k..] == tokens[k + 1..];
      (d, k + 1)
    else (c, 0)
  }

  /** Aliases only lead down from local to global to the run envelope. */
  lemma {:induction false} LocatedRank(s: Scopes, c: ConstantContext, tokens: seq<string>)
    requires tokens != [] && AliasesOnly(s)
    ensures Located(s, c, tokens) == (c, 0) || Rank(Located(s, c, tokens).0) < Rank(c)
    decreases |tokens|
  {
    if ThroughAlias(s, c, tokens) {
      LocatedRank(s, s.Get(c)[tokens[0]].scope, tokens[1..]);
    }
  }

  lemma {:induction false} AssignInLocated(s: Scopes, c: ConstantContext, tokens: seq<string>, value: Value)
    requires tokens != []
    ensures var (d, k) := Located(s, c, tokens);
            AssignIn(s, c, tokens, value) == AssignIn(s, d, tokens[k..], value)
    decreases |tokens|
  {
    if ThroughAlias(s, c, tokens) {
      AssignInLocated(s, s.Get(c)[tokens[0]].scope, tokens[1..], value);
      assert tokens[1..][Located(s, c, tokens).1 - 1..] == tokens[Located(s, c, tokens).1..];
    }
  }

  lemma {:induction false} RemoveInLocated(s: Scopes, c: ConstantContext, tokens: seq<string>)
    requires tokens != []
    ensures var (d, k) := Located(s, c, tokens);
            RemoveIn(s, c, tokens) == RemoveIn(s, d, tokens[k..])
    decreases |tokens|
  {
    if ThroughAlias(s, c, tokens) {
      RemoveInLocated(s, s.Get(c)[tokens[0]].scope, tokens[1..]);
      assert tokens[1..][Located(s, c, tokens).1 - 1..] == tokens[Located(s, c, tokens).1..];
    }
  }

  lemma {:induction false} AssignNestedKind(current: Value, tokens: seq<string>, value: Value)
    requires tokens != []
    ensures current.Dict? ==> AssignNested(current, tokens, value).0.Dict?
  {
  }

  lemma {:induction false} RemoveNestedKind(current: Value, tokens: seq<string>)
    requires tokens != []
    ensures current.Dict? ==> RemoveNested(current, tokens).Dict?
  {
  }

  lemma {:induction false} TokensDrop(steps: seq<Step>, k: nat)
    requires k <= |steps|
    ensures Tokens(steps)[k..] == Tokens(steps[k..])
  {
    if steps != [] {
      TokensTail(steps);
      if k > 0 {
        TokensDrop(steps[1..], k - 1);
        assert Tokens(steps)[k..] == Tokens(steps)[1..][k - 1..] && steps[k..] == steps[1..][k - 1..];
      }
    }
  }

  /** Where a write below a scope lands, in steps. */
  function Landing(s: Scopes, c: ConstantContext, steps: seq<Step>): (r: (ConstantContext, seq<Step>))
    requires steps != []
    ensures r.1 != []
  {
    var (d, k) := Located(s, c, Tokens(steps));
    (d, steps[k..])
  }

  /** A write below a scope is a nested assignment in the tree it lands in; the other three
      scope dicts keep their value. */
  lemma {:induction false} AssignInLands(s: Scopes, c: ConstantContext, steps: seq<Step>, value: Value)
    requires steps != []
    ensures var (d, p) := Landing(s, c, steps);
            var (r, ok) := AssignNested(Dict(s.Get(d)), Tokens(p), value);
            r.Dict? && AssignIn(s, c, Tokens(steps), value) == Written(s.Set(d, r.entries), ok)
  {
    TokensDrop(steps, 0);
    var (d, k) := Located(s, c, Tokens(steps));
    TokensDrop(steps, k);
    AssignInLocated(s, c, Tokens(steps), value);
    AssignNestedKind(Dict(s.Get(d)), Tokens(steps)[k..], value);
  }

  lemma {:induction false} RemoveInLands(s: Scopes, c: ConstantContext, steps: seq<Step>)
    requires steps != []
    ensures var (d, p) := Landing(s, c, steps);
            var r := RemoveNested(Dict(s.Get(d)), Tokens(p));
            r.Dict? && RemoveIn(s, c, Tokens(steps)) == s.Set(d, r.entries)
  {
    TokensDrop(steps, 0);
    var (d, k) := Located(s, c, Tokens(steps));
    TokensDrop(steps, k);
    RemoveInLocated(s, c, Tokens(steps));
    RemoveNestedKind(Dict(s.Get(d)), Tokens(steps)[k..]);
  }

  /** Through an alias, a path lands where the rest of it lands. */
  lemma {:induction false} LandingThrough(s: Scopes, c: ConstantContext, steps: seq<Step>)
    requires steps != [] && ThroughAlias(s, c, Tokens(steps))
    ensures steps[1..] != []
    ensures Landing(s, c, steps) == Landing(s, s.Get(c)[Tokens(steps)[0]].scope, steps[1..])
  {
    TokensTail(steps);
    var rest := steps[1..];
    var k := Located(s, s.Get(c)[Tokens(steps)[0]].scope, Tokens(rest)).1;
    assert rest[k..] == steps[k + 1..];
  }

  /** The reader reaches the same place: the aliases a write passes through survive it. */
  lemma {:induction false} WalkLands(s: Scopes, s': Scopes, c: ConstantContext, steps: seq<Step>)
    requires steps != [] && PlainSteps(steps) && AliasesOnly(s)
    requires forall e | e != Landing(s, c, steps).0 :: s'.Get(e) == s.Get(e)
    ensures var (d, p) := Landing(s, c, steps);
            Walk(s', Shared(c), steps) == Walk(s', Shared(d), p)
    decreases |steps|
  {
    if ThroughAlias(s, c, Tokens(steps)) {
      var next, rest := s.Get(c)[Tokens(steps)[0]].scope, steps[1..];
      LandingThrough(s, c, steps);
      WalkLands(s, s', next, rest);
      LocatedRank(s, c, Tokens(steps));
      WalkThrough(s, s', c, steps);
    } else {
      assert steps[0..] == steps;
    }
  }

  /** An alias that survives is followed by the reader. */
  lemma {:induction false} WalkThrough(s: Scopes, s': Scopes, c: ConstantContext, steps: seq<Step>)
    requires steps != [] && PlainSteps(steps) && ThroughAlias(s, c, Tokens(steps)) && s'.Get(c) == s.Get(c)
    ensures Walk(s', Shared(c), steps) == Walk(s', Shared(s.Get(c)[Tokens(steps)[0]].scope), steps[1..])
  {
    TokensTail(steps);
    TokenKind(steps[0]);
  }

  lemma {:induction false} LandingPlain(s: Scopes, c: ConstantContext, steps: seq<Step>)
    requires steps != [] && PlainSteps(steps)
    ensures var (d, p) := Landing(s, c, steps);
            PlainSteps(p) && !ThroughAlias(s, d, Tokens(p)) && p[|p| - 1] == steps[|steps| - 1]
  {
    var k := Located(s, c, Tokens(steps)).1;
    TokensDrop(steps, k);
    assert forall i | 0 <= i < |steps[k..]| :: steps[k..][i] == steps[k + i];
  }

  /** A completed write below a scope is read back by the same steps. */
  lemma {:induction false} AssignInReads(s: Scopes, c: ConstantContext, steps: seq<Step>, value: Value)
    requires steps != [] && PlainSteps(steps) && AliasesOnly(s)
    ensures var w := AssignIn(s, c, Tokens(steps), value);
            w.completed ==> Walk(w.scopes, Shared(c), steps) == Some(value)
  {
    AssignInLands(s, c, steps, value);
    var (d, p) := Landing(s, c, steps);
    var (r, ok) := AssignNested(Dict(s.Get(d)), Tokens(p), value);
    if ok {
      LandedReads(s, c, steps, value, r.entries);
    }
  }

  lemma {:induction false} LandedReads(
    s: Scopes, c: ConstantContext, steps: seq<Step>, value: Value, m: map<string, Value>)
    requires steps != [] && PlainSteps(steps) && AliasesOnly(s)
    requires var (d, p) := Landing(s, c, steps); AssignNested(Dict(s.Get(d)), Tokens(p), value) == (Dict(m), true)
    ensures Walk(s.Set(Landing(s, c, steps).0, m), Shared(c), steps) == Some(value)
  {
    var (d, p) := Landing(s, c, steps);
    var s' := s.Set(d, m);
    SetGets(s, d, m);
    LandingPlain(s, c, steps);
    WalkLands(s, s', c, steps);
    AssignNestedReads(s', Dict(s.Get(d)), p, value);
    WalkDeref(s', d, p);
  }

  lemma {:induction false} SetGets(s: Scopes, d: ConstantContext, m: map<string, Value>)
    ensures s.Set(d, m).Get(d) == m && forall e | e != d :: s.Set(d, m).Get(e) == s.Get(e)
  {
  }

  lemma {:induction false} WalkDeref(s: Scopes, c: ConstantContext, steps: seq<Step>)
    requires steps != []
    ensures Walk(s, Shared(c), steps) == Walk(s, Dict(s.Get(c)), steps)
  {
  }

  // ----- Read after write -----

  /** The paths the reader and the writer understand alike: below a scope, the first name must be
      one the writer does not put `constants` in front of; below `vars` it must be one it does. */
  predicate ReadsBack(path: seq<Segment>)
    requires Canonical(path)
  {
    var target, below := TargetOf(path), Below(path);
    if path[0].name == "vars" then below != [] && below[0].Name? && !StartsReserved(below)
    else target.Some? && (target.value.CommandsTarget? || target.value.context.Results?
                          || below == [] || StartsReserved(below))
  }

  /** Resolving the path yields the value itself or the scope dict it was copied into. */
  predicate ReadsAs(s: Scopes, path: seq<Segment>, value: Value)
    requires Canonical(path)
  {
    var found := ResolveRef(s, ShowPath(path));
    found.Found? && Deref(s, found.value) == value
  }

  lemma {:induction false} BelowPlain(path: seq<Segment>)
    requires Canonical(path)
    ensures Steps(path) == [Name(path[0].name)] + Below(path)
    ensures PlainSteps(Below(path))
  {
    StepsPlain(path);
    var steps := Steps(path);
    assert forall i | 0 <= i < |steps[1..]| :: steps[1..][i] == steps[i + 1];
  }

  /** Resolution of a printed path starts at the root's entry. */
  lemma {:induction false} ResolveBelow(s: Scopes, path: seq<Segment>)
    requires Canonical(path) && path[0].name in ScopeRoot(s).entries
    ensures ResolveRef(s, ShowPath(path)) ==
            match Walk(s, ScopeRoot(s).entries[path[0].name], Below(path))
            case None => Missing
            case Some(v) => Found(v)
  {
    ResolvePrinted(s, path);
    BelowPlain(path);
    WalkAppend(s, ScopeRoot(s), [Name(path[0].name)], Below(path));
  }

  lemma {:induction false} RootEntries(s: Scopes, path: seq<Segment>)
    requires Canonical(path) && TargetOf(path).Some?
    ensures path[0].name in ScopeRoot(s).entries
    ensures path[0].name == "response" <==> TargetOf(path).value.CommandsTarget?
    ensures path[0].name == "vars" ==> TargetOf(path).value == ScopeTarget(Global)
    ensures path[0].name != "vars" && path[0].name != "response" ==>
              ScopeRoot(s).entries[path[0].name] == Shared(ContextOf(TargetOf(path).value))
    ensures path[0].name == "vars" ==> ScopeRoot(s).entries[path[0].name] == DictAt(s.global, "constants")
    ensures path[0].name == "response" ==> ScopeRoot(s).entries[path[0].name] == DictAt(s.results, "commands")
  {
  }

  /** Below an inserted first name, a write that completes leaves an object under that name. */
  lemma {:induction false} AssignUnder(s: Scopes, c: ConstantContext, name: string, below: seq<Step>, value: Value)
    requires PlainName(name) && below != [] && below[0].Name? && PlainSteps(below)
    requires !(name in s.Get(c) && s.Get(c)[name].Shared?)
    ensures var w := AssignIn(s, c, Tokens([Name(name)] + below), value);
            w.completed ==>
              && name in w.scopes.Get(c) && w.scopes.Get(c)[name].Dict?
              && Walk(w.scopes, w.scopes.Get(c)[name], below) == Some(value)
  {
    var steps := [Name(name)] + below;
    assert steps[1..] == below;
    TokensTail(steps);
    TokensTail(below);
    TokenKind(steps[0]);
    TokenKind(below[0]);
    var w := AssignIn(s, c, Tokens(steps), value);
    if w.completed {
      AssignNestedReads(w.scopes, Dict(s.Get(c)), steps, value);
      var tree := AssignNested(Dict(s.Get(c)), Tokens(steps), value).0;
      assert Walk(w.scopes, tree, steps) == Walk(w.scopes, tree.entries[name], below);
    }
  }

  /** An index below an object cannot be written. */
  lemma {:induction false} IndexUnderObjectFails(
    s: Scopes, c: ConstantContext, name: string, below: seq<Step>, value: Value)
    requires PlainName(name) && below != [] && below[0].Index?
    requires name in s.Get(c) && s.Get(c)[name].Dict?
    ensures !AssignIn(s, c, Tokens([Name(name)] + below), value).completed
  {
    var steps := [Name(name)] + below;
    assert steps[1..] == below;
    TokensTail(steps);
    TokensTail(below);
    TokenKind(steps[0]);
    TokenKind(below[0]);
    var child := s.Get(c)[name];
    assert !ThroughAlias(s, c, Tokens(steps));
    assert AssignNested(child, Tokens(below), value) == (child, false);
    assert !AssignNested(Dict(s.Get(c)), Tokens(steps), value).1;
  }

  lemma {:induction false} WriteResponseReads(s: Scopes, below: seq<Step>, value: Value)
    requires PlainSteps(below) && AliasesOnly(s) && !value.Shared?
    requires WriteBelow(s, CommandsTarget, below, value).completed
    ensures var s' := WriteBelow(s, CommandsTarget, below, value).scopes;
            Walk(s', DictAt(s'.results, "commands"), below) == Some(value)
  {
    var s1 := EnsureCommands(s);
    ReservedNames();
    if below == [] {
      AssignOneName(s1, Results, "commands", value);
      assert [Name("commands")] + below == [Name("commands")];
      TokensPrepend("commands", []);
    } else if below[0].Name? {
      AssignUnder(s1, Results, "commands", below, value);
    } else {
      IndexUnderObjectFails(s1, Results, "commands", below, value);
    }
  }

  lemma {:induction false} WriteScopeReads(s: Scopes, c: ConstantContext, below: seq<Step>, value: Value)
    requires PlainSteps(below) && AliasesOnly(s) && !value.Shared?
    requires Effective(ScopeTarget(c), below) == below
    requires WriteBelow(s, ScopeTarget(c), below, value).completed
    ensures var s' := WriteBelow(s, ScopeTarget(c), below, value).scopes;
            var found := Walk(s', Shared(c), below);
            found.Some? && Deref(s', found.value) == value
  {
    if below != [] {
      AssignInReads(s, c, below, value);
    }
  }

  /** A path whose steps lead from its root's entry to the value resolves to the value. */
  lemma {:induction false} ReadsThrough(s: Scopes, path: seq<Segment>, entry: Value, value: Value)
    requires Canonical(path) && path[0].name in ScopeRoot(s).entries && ScopeRoot(s).entries[path[0].name] == entry
    requires Walk(s, entry, Below(path)).Some? && Deref(s, Walk(s, entry, Below(path)).value) == value
    ensures ReadsAs(s, path, value)
  {
    ResolveBelow(s, path);
  }

  lemma {:induction false} ReadAfterResponse(s: Scopes, path: seq<Segment>, value: Value)
    requires Canonical(path) && TargetOf(path) == Some(CommandsTarget) && AliasesOnly(s) && NoShared(value)
    requires WriteBelow(s, CommandsTarget, Below(path), value).completed
    ensures ReadsAs(WriteBelow(s, CommandsTarget, Below(path), value).scopes, path, value)
  {
    var s' := WriteBelow(s, CommandsTarget, Below(path), value).scopes;
    BelowPlain(path);
    RootEntries(s', path);
    WriteResponseReads(s, Below(path), value);
    ReadsThrough(s', path, DictAt(s'.results, "commands"), value);
  }

  lemma {:induction false} ReadAfterScope(s: Scopes, path: seq<Segment>, c: ConstantContext, value: Value)
    requires Canonical(path) && TargetOf(path) == Some(ScopeTarget(c)) && path[0].name != "vars"
    requires AliasesOnly(s) && NoShared(value) && Effective(ScopeTarget(c), Below(path)) == Below(path)
    requires WriteBelow(s, ScopeTarget(c), Below(path), value).completed
    ensures ReadsAs(WriteBelow(s, ScopeTarget(c), Below(path), value).scopes, path, value)
  {
    var s' := WriteBelow(s, ScopeTarget(c), Below(path), value).scopes;
    BelowPlain(path);
    RootEntries(s', path);
    WriteScopeReads(s, c, Below(path), value);
    ReadsThrough(s', path, Shared(c), value);
  }

  lemma {:induction false} ReadAfterVars(s: Scopes, path: seq<Segment>, value: Value)
    requires Canonical(path) && path[0].name == "vars" && WellFormed(s) && NoShared(value) && ReadsBack(path)
    requires WriteBelow(s, ScopeTarget(Global), Below(path), value).completed
    ensures ReadsAs(WriteBelow(s, ScopeTarget(Global), Below(path), value).scopes, path, value)
  {
    var s' := WriteBelow(s, ScopeTarget(Global), Below(path), value).scopes;
    BelowPlain(path);
    RootEntries(s', path);
    ReservedNames();
    AssignUnder(s, Global, "constants", Below(path), value);
    ReadsThrough(s', path, DictAt(s'.global, "constants"), value);
  }

  /** Read after write: on every path the two parsers understand alike, whenever
      write_context_path completes, _resolve_ref on the same text finds the written value. */
  lemma {:induction false} ReadAfterWrite(s: Scopes, kind: ItemKind, path: seq<Segment>, value: Value)
    requires Canonical(path) && ReadsBack(path) && WellFormed(s) && NoShared(value)
    requires WritePath(s, kind, ShowPath(path), value).completed
    ensures ReadsAs(WritePath(s, kind, ShowPath(path), value).scopes, path, value)
  {
    var target := TargetOf(path).value;
    WriteUnfolds(s, kind, path, value);
    if target.CommandsTarget? {
      ReadAfterResponse(s, path, value);
    } else if path[0].name == "vars" {
      ReadAfterVars(s, path, value);
    } else {
      ReadAfterScope(s, path, target.context, value);
    }
  }
}
