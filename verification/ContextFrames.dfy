/** What writes and removals leave alone, what a removal undoes, and how far the guard on test
    items reaches. */
module ContextFrames {
  import opened Prelude
  import opened PyValues
  import opened PathTokens
  import opened ContextStore
  import opened ContextLaws
  import opened ContextTheorems

  /** The value stored at a location of a scope dict. */
  function Stored(s: Scopes, c: ConstantContext, q: seq<Step>): Option<Value> {
    At(Dict(s.Get(c)), q)
  }

  /** The location a path of the writer denotes, aliases followed. */
  function Location(s: Scopes, path: seq<Segment>): (ConstantContext, seq<Step>)
    requires Canonical(path) && TargetOf(path).Some?
  {
    var steps := Effective(TargetOf(path).value, Below(path));
    var c := ContextOf(TargetOf(path).value);
    if steps == [] then (c, []) else Landing(s, c, steps)
  }

  /** The location (c, q) lies beside the one the path denotes. */
  predicate Beside(s: Scopes, path: seq<Segment>, c: ConstantContext, q: seq<Step>)
    requires Canonical(path) && TargetOf(path).Some?
  {
    var (d, p) := Location(s, path);
    c != d || Apart(p, q)
  }

  predicate HasCommands(s: Scopes) {
    "commands" in s.results && s.results["commands"].Dict?
  }

  lemma {:induction false} AssignInFrame(s: Scopes, c: ConstantContext, steps: seq<Step>, value: Value,
                                         e: ConstantContext, q: seq<Step>)
    requires steps != [] && PlainSteps(steps) && Stored(s, e, q).Some?
    requires var (d, p) := Landing(s, c, steps); e != d || Apart(p, q)
    ensures Stored(AssignIn(s, c, Tokens(steps), value).scopes, e, q) == Stored(s, e, q)
  {
    AssignInLands(s, c, steps, value);
    LandingPlain(s, c, steps);
    var (d, p) := Landing(s, c, steps);
    if e == d {
      AssignNestedFrame(Dict(s.Get(d)), p, value, q);
    }
  }

  lemma {:induction false} RemoveInFrame(s: Scopes, c: ConstantContext, steps: seq<Step>,
                                         e: ConstantContext, q: seq<Step>)
    requires steps != [] && PlainSteps(steps) && steps[|steps| - 1].Name?
    requires var (d, p) := Landing(s, c, steps); e != d || Apart(p, q)
    ensures Stored(RemoveIn(s, c, Tokens(steps)), e, q) == Stored(s, e, q)
  {
    RemoveInLands(s, c, steps);
    LandingPlain(s, c, steps);
    var (d, p) := Landing(s, c, steps);
    if e == d {
      RemoveNestedFrame(Dict(s.Get(d)), p, q);
    }
  }

  /** What a write below `response` may find under `result.commands` without destroying anything
      stored beside its path: it puts an empty object in the place of whatever else is there. */
  predicate CommandsReplaceable(s: Scopes) {
    "commands" in s.results ==>
      !s.results["commands"].Shared? && (s.results["commands"].List? ==> s.results["commands"].items == [])
  }

  /** The context in which a write or removal takes place. */
  function Prepared(s: Scopes, target: Target): Scopes {
    if target.CommandsTarget? then EnsureCommands(s) else s
  }

  lemma {:induction false} EnsureFrames(s: Scopes, e: ConstantContext, q: seq<Step>)
    requires CommandsReplaceable(s) && (e.Results? ==> q != [] && q != [Name("commands")])
    ensures Stored(EnsureCommands(s), e, q) == Stored(s, e, q)
  {
    if e.Results? {
      assert s.Get(e) == s.results && EnsureCommands(s).Get(e) == EnsureCommands(s).results;
      if q[0] == Name("commands") && !HasCommands(s) {
        assert q == [q[0]] + q[1..] && q[1..] != [];
        NothingBelow(Dict(map[]), q[1..]);
        if "commands" in s.results {
          NothingBelow(s.results["commands"], q[1..]);
        }
      }
    } else {
      assert s.Get(e) == EnsureCommands(s).Get(e);
    }
  }

  lemma {:induction false} NothingBelow(v: Value, r: seq<Step>)
    requires r != [] && (v.Dict? ==> v.entries == map[]) && (v.List? ==> v.items == [])
    ensures At(v, r) == None
  {
  }

  /** Making `result.commands` an object moves no path that leads there. */
  lemma {:induction false} EnsureLands(s: Scopes, below: seq<Step>)
    requires CommandsReplaceable(s)
    ensures var steps := [Name("commands")] + below;
            Landing(EnsureCommands(s), Results, steps) == (Results, steps) == Landing(s, Results, steps)
  {
    var steps := [Name("commands")] + below;
    TokensPrepend("commands", below);
    assert s.Get(Results) == s.results && EnsureCommands(s).Get(Results) == EnsureCommands(s).results;
    assert !ThroughAlias(s, Results, Tokens(steps)) && !ThroughAlias(EnsureCommands(s), Results, Tokens(steps));
    assert steps[0..] == steps;
  }

  /** Preparing the target changes neither what is stored beside a path nor where the path lands. */
  lemma {:induction false} PreparedFrames(s: Scopes, path: seq<Segment>, e: ConstantContext, q: seq<Step>)
    requires Canonical(path) && TargetOf(path).Some? && Beside(s, path, e, q)
    requires TargetOf(path).value.CommandsTarget? ==> CommandsReplaceable(s)
    ensures Stored(Prepared(s, TargetOf(path).value), e, q) == Stored(s, e, q)
    ensures Location(Prepared(s, TargetOf(path).value), path) == Location(s, path)
  {
    if TargetOf(path).value.CommandsTarget? {
      EnsureLands(s, Below(path));
      EnsureFrames(s, e, q);
    }
  }

  /** A write, even one that raises halfway, leaves every existing location beside its path as it
      was. */
  lemma {:induction false} WriteFrame(s: Scopes, kind: ItemKind, path: seq<Segment>, value: Value,
                                      e: ConstantContext, q: seq<Step>)
    requires Canonical(path) && TargetOf(path).Some?
    requires TargetOf(path).value.CommandsTarget? ==> CommandsReplaceable(s)
    requires Stored(s, e, q).Some? && Beside(s, path, e, q)
    ensures Stored(WritePath(s, kind, ShowPath(path), value).scopes, e, q) == Stored(s, e, q)
  {
    WriteUnfolds(s, kind, path, value);
    BelowPlain(path);
    var target, below := TargetOf(path).value, Below(path);
    PreparedFrames(s, path, e, q);
    EffectivePlain(target, below);
    if Effective(target, below) != [] {
      AssignInFrame(Prepared(s, target), ContextOf(target), Effective(target, below), value, e, q);
    }
  }

  /** When `result.commands` is a list, a write below `response` destroys its elements. */
  lemma {:induction false} ReplacedListIsLost(s: Scopes, value: Value)
    requires "commands" in s.results && s.results["commands"].List? && s.results["commands"].items != []
    ensures var q := [Name("commands"), Index(0)];
            && Canonical(RESPONSE_X) && TargetOf(RESPONSE_X).Some? && Beside(s, RESPONSE_X, Results, q)
            && Stored(s, Results, q).Some?
            && Stored(WritePath(s, HookItem, ShowPath(RESPONSE_X), value).scopes, Results, q) == None
  {
    ResponsePath();
    FirstIsBeside(s);
    FirstOfCommands(s);
    ResponseWritten(s, value);
    FirstOfCommands(WritePath(s, HookItem, ShowPath(RESPONSE_X), value).scopes);
  }

  lemma {:induction false} FirstIsBeside(s: Scopes)
    requires "commands" in s.results && s.results["commands"].List?
    ensures Canonical(RESPONSE_X) && TargetOf(RESPONSE_X).Some?
    ensures Beside(s, RESPONSE_X, Results, [Name("commands"), Index(0)])
  {
    ResponsePath();
    ResponseLocation(s);
    BesideElement();
  }

  lemma {:induction false} ResponseLocation(s: Scopes)
    requires "commands" in s.results && s.results["commands"].List?
    ensures Canonical(RESPONSE_X) && TargetOf(RESPONSE_X).Some?
    ensures Location(s, RESPONSE_X) == (Results, [Name("commands"), Name("x")])
  {
    ResponsePath();
    ListLands(s);
    assert [Name("commands")] + [Name("x")] == [Name("commands"), Name("x")];
  }

  lemma {:induction false} BesideElement()
    ensures Apart([Name("commands"), Name("x")], [Name("commands"), Index(0)])
  {
    assert [Name("commands"), Name("x")][1] != [Name("commands"), Index(0)][1];
  }

  /** What the frame says of one write below `response` and one location. */
  predicate FrameHolds(
    s: Scopes, kind: ItemKind, path: seq<Segment>, value: Value, e: ConstantContext, q: seq<Step>)
    requires Canonical(path) && TargetOf(path) == Some(CommandsTarget)
  {
    Stored(s, e, q).Some? && Beside(s, path, e, q) ==>
      Stored(WritePath(s, kind, ShowPath(path), value).scopes, e, q) == Stored(s, e, q)
  }

  /** The writes below `response` leave every stored location beside their path alone exactly when
      `result.commands` is absent, an object, or holds nothing they could destroy. */
  lemma {:induction false} ResponseFrameExactly(s: Scopes)
    requires AliasesOnly(s)
    ensures CommandsReplaceable(s) <==>
            forall kind: ItemKind, path: seq<Segment>, value: Value, e: ConstantContext, q: seq<Step>
              | Canonical(path) && TargetOf(path) == Some(CommandsTarget) :: FrameHolds(s, kind, path, value, e, q)
  {
    if CommandsReplaceable(s) {
      forall kind: ItemKind, path: seq<Segment>, value: Value, e: ConstantContext, q: seq<Step>
        | Canonical(path) && TargetOf(path) == Some(CommandsTarget)
        ensures FrameHolds(s, kind, path, value, e, q)
      {
        if Stored(s, e, q).Some? && Beside(s, path, e, q) {
          WriteFrame(s, kind, path, value, e, q);
        }
      }
    } else {
      assert s.Get(Results) == s.results;
      ReplacedListIsLost(s, Null);
      ResponsePath();
      assert !FrameHolds(s, HookItem, RESPONSE_X, Null, Results, [Name("commands"), Index(0)]);
    }
  }

  const RESPONSE_X := [Segment("response", []), Segment("x", [])]

  lemma {:induction false} ResponseWritten(s: Scopes, value: Value)
    ensures HasCommands(WritePath(s, HookItem, ShowPath(RESPONSE_X), value).scopes)
  {
    ResponsePath();
    WriteUnfolds(s, HookItem, RESPONSE_X, value);
    CommandsStay(EnsureCommands(s), [Name("x")], value);
  }

  lemma {:induction false} FirstOfCommands(s: Scopes)
    requires "commands" in s.results
    ensures var v := s.results["commands"];
            Stored(s, Results, [Name("commands"), Index(0)]) == if v.List? && v.items != [] then Some(v.items[0]) else None
  {
    var q := [Name("commands"), Index(0)];
    assert q[1..] == [Index(0)] && [Index(0)][1..] == [] && s.Get(Results) == s.results;
  }

  lemma {:induction false} ResponsePath()
    ensures Canonical(RESPONSE_X) && TargetOf(RESPONSE_X) == Some(CommandsTarget)
    ensures Below(RESPONSE_X) == [Name("x")] && PlainSteps([Name("x")])
  {
    var path := RESPONSE_X;
    assert "response"[0] == 'r' && "response"[2] == 's' && "x"[0] == 'x';
    assert PlainName("response") && PlainName("x");
    assert path[1..] == [path[1]] && path[1..][1..] == [];
    assert IndexSteps([]) == [] && Steps([path[1]]) == [Name("x")] + Steps([]);
    assert Steps(path) == [Name("response"), Name("x")];
  }

  lemma {:induction false} ListLands(s: Scopes)
    requires "commands" in s.results && s.results["commands"].List?
    ensures Landing(s, Results, [Name("commands"), Name("x")]) == (Results, [Name("commands"), Name("x")])
  {
    var steps := [Name("commands"), Name("x")];
    TokensPrepend("commands", [Name("x")]);
    assert [Name("commands")] + [Name("x")] == steps && s.Get(Results) == s.results;
    assert !ThroughAlias(s, Results, Tokens(steps)) && steps[0..] == steps;
  }

  lemma {:induction false} RemoveBelowFrame(s: Scopes, target: Target, below: seq<Step>,
                                            e: ConstantContext, q: seq<Step>)
    requires below != [] && PlainSteps(below) && below[|below| - 1].Name?
    requires var (d, p) := Landing(s, ContextOf(target), Effective(target, below)); e != d || Apart(p, q)
    ensures Stored(RemoveIn(s, ContextOf(target), Tokens(Effective(target, below))), e, q) == Stored(s, e, q)
  {
    EffectivePlain(target, below);
    EffectiveLast(target, below);
    RemoveInFrame(s, ContextOf(target), Effective(target, below), e, q);
  }

  lemma {:induction false} EffectiveLast(target: Target, below: seq<Step>)
    requires below != []
    ensures Effective(target, below) != []
    ensures Effective(target, below)[|Effective(target, below)| - 1] == below[|below| - 1]
  {
  }

  /** A removal of a property leaves every location beside its path as it was, present or absent. */
  lemma {:induction false} RemoveFrame(s: Scopes, kind: ItemKind, path: seq<Segment>,
                                       e: ConstantContext, q: seq<Step>)
    requires Canonical(path) && TargetOf(path).Some?
    requires TargetOf(path).value.CommandsTarget? ==> CommandsReplaceable(s)
    requires Below(path) != [] ==> Below(path)[|Below(path)| - 1].Name?
    requires Beside(s, path, e, q)
    ensures Stored(RemovePath(s, kind, ShowPath(path)).scopes, e, q) == Stored(s, e, q)
  {
    RemoveUnfolds(s, kind, path);
    BelowPlain(path);
    var target, below := TargetOf(path).value, Below(path);
    PreparedFrames(s, path, e, q);
    if below != [] {
      RemoveBelowFrame(Prepared(s, target), target, below, e, q);
    }
  }

  /** What the frame says of one removal below `response`, of a property or of nothing. */
  predicate RemovalFrameHolds(s: Scopes, kind: ItemKind, path: seq<Segment>, e: ConstantContext, q: seq<Step>)
    requires ResponseProperty(path)
  {
    Beside(s, path, e, q) ==> Stored(RemovePath(s, kind, ShowPath(path)).scopes, e, q) == Stored(s, e, q)
  }

  predicate ResponseProperty(path: seq<Segment>) {
    && Canonical(path) && TargetOf(path) == Some(CommandsTarget)
    && (Below(path) != [] ==> Below(path)[|Below(path)| - 1].Name?)
  }

  /** A removal below `response` puts an object in the place of a list as well. */
  lemma {:induction false} ResponseRemoved(s: Scopes)
    requires "commands" in s.results && s.results["commands"].List?
    ensures HasCommands(RemovePath(s, HookItem, ShowPath(RESPONSE_X)).scopes)
  {
    ResponsePath();
    RemoveUnfolds(s, HookItem, RESPONSE_X);
    CommandsStayRemoved(EnsureCommands(s));
    assert [Name("commands")] + [Name("x")] == [Name("commands"), Name("x")];
  }

  lemma {:induction false} CommandsStayRemoved(s1: Scopes)
    requires HasCommands(s1)
    ensures HasCommands(RemoveIn(s1, Results, Tokens([Name("commands"), Name("x")])))
  {
    var steps := [Name("commands"), Name("x")];
    assert s1.Get(Results) == s1.results;
    ReservedNames();
    TokensTail(steps);
    TokenKind(steps[0]);
    assert !ThroughAlias(s1, Results, Tokens(steps));
    RemoveNestedKind(s1.results["commands"], Tokens(steps)[1..]);
    SetGets(s1, Results, RemoveNested(Dict(s1.results), Tokens(steps)).entries);
  }

  /** The removals below `response` leave every location beside their path alone, present or absent,
      on the same condition as the writes. */
  lemma {:induction false} RemovalFrameExactly(s: Scopes)
    requires AliasesOnly(s)
    ensures CommandsReplaceable(s) <==>
            forall kind: ItemKind, path: seq<Segment>, e: ConstantContext, q: seq<Step> | ResponseProperty(path) ::
              RemovalFrameHolds(s, kind, path, e, q)
  {
    if CommandsReplaceable(s) {
      forall kind: ItemKind, path: seq<Segment>, e: ConstantContext, q: seq<Step> | ResponseProperty(path)
        ensures RemovalFrameHolds(s, kind, path, e, q)
      {
        if Beside(s, path, e, q) {
          RemoveFrame(s, kind, path, e, q);
        }
      }
    } else {
      assert s.Get(Results) == s.results;
      ResponsePath();
      FirstIsBeside(s);
      FirstOfCommands(s);
      ResponseRemoved(s);
      FirstOfCommands(RemovePath(s, HookItem, ShowPath(RESPONSE_X)).scopes);
      assert !RemovalFrameHolds(s, HookItem, RESPONSE_X, Results, [Name("commands"), Index(0)]);
    }
  }

  lemma {:induction false} MissingStaysMissing(s: Scopes, v: Value, steps: seq<Step>)
    requires NoShared(v) && At(v, steps) == None
    ensures Walk(s, v, steps) == None
    decreases |steps|
  {
    match Child(v, steps[0])
    case None =>
    case Some(child) => MissingStaysMissing(s, child, steps[1..]);
  }

  lemma {:induction false} RemoveNestedClean(v: Value, tokens: seq<string>)
    requires tokens != [] && NoShared(v)
    ensures NoShared(RemoveNested(v, tokens))
    decreases |tokens|
  {
    if |tokens| > 1 {
      match ToIndex(tokens[0])
      case Some(i) => if v.List? && i < |v.items| { RemoveNestedClean(v.items[i], tokens[1..]); }
      case None => if v.Dict? && tokens[0] in v.entries { RemoveNestedClean(v.entries[tokens[0]], tokens[1..]); }
    }
  }

  predicate PlainEntries(m: map<string, Value>, m': map<string, Value>) {
    forall k | k in m' :: NoShared(m'[k]) || (k in m && m'[k] == m[k])
  }

  lemma {:induction false} RemoveTopEntries(m: map<string, Value>, tokens: seq<string>)
    requires tokens != [] && RemoveNested(Dict(m), tokens).Dict?
    requires |tokens| > 1 && ToIndex(tokens[0]).None? && tokens[0] in m ==> NoShared(m[tokens[0]])
    ensures PlainEntries(m, RemoveNested(Dict(m), tokens).entries)
  {
    if |tokens| > 1 && ToIndex(tokens[0]).None? && tokens[0] in m {
      RemoveNestedClean(m[tokens[0]], tokens[1..]);
    }
  }

  lemma {:induction false} SetKeepsForm(s: Scopes, c: ConstantContext, m: map<string, Value>)
    requires WellFormed(s) && PlainEntries(s.Get(c), m)
    ensures WellFormed(s.Set(c, m))
  {
    var s' := s.Set(c, m);
    assert s'.Get(c) == m && forall e | e != c :: s'.Get(e) == s.Get(e);
  }

  /** Removing below a scope dict keeps a context well formed. */
  lemma {:induction false} RemoveInKeepsForm(s: Scopes, c: ConstantContext, tokens: seq<string>)
    requires tokens != [] && WellFormed(s)
    ensures WellFormed(RemoveIn(s, c, tokens))
    decreases |tokens|
  {
    if ThroughAlias(s, c, tokens) {
      RemoveInKeepsForm(s, s.Get(c)[tokens[0]].scope, tokens[1..]);
    } else {
      RemoveNestedKind(Dict(s.Get(c)), tokens);
      RemoveTopEntries(s.Get(c), tokens);
      SetKeepsForm(s, c, RemoveNested(Dict(s.Get(c)), tokens).entries);
    }
  }

  lemma {:induction false} OneStep(v: Value, p: seq<Step>)
    requires |p| == 1
    ensures At(v, p) == Child(v, p[0])
  {
    assert p[1..] == [];
  }

  lemma {:induction false} GoneFromScope(s: Scopes, d: ConstantContext, p: seq<Step>)
    requires p != [] && WellFormed(s) && Stored(s, d, p) == None
    requires |p| > 1 && p[0].Name? && p[0].name in s.Get(d) ==> !s.Get(d)[p[0].name].Shared?
    ensures Walk(s, Shared(d), p) == None
  {
    if |p| == 1 {
      OneStep(Dict(s.Get(d)), p);
    } else if Child(Dict(s.Get(d)), p[0]).Some? {
      MissingStaysMissing(s, Child(Dict(s.Get(d)), p[0]).value, p[1..]);
    }
  }

  lemma {:induction false} RemoveInOnly(s: Scopes, c: ConstantContext, steps: seq<Step>)
    requires steps != []
    ensures var (d, p) := Landing(s, c, steps);
            var s' := RemoveIn(s, c, Tokens(steps));
            && RemoveNested(Dict(s.Get(d)), Tokens(p)) == Dict(s'.Get(d))
            && forall e | e != d :: s'.Get(e) == s.Get(e)
  {
    RemoveInLands(s, c, steps);
    var (d, p) := Landing(s, c, steps);
    SetGets(s, d, RemoveNested(Dict(s.Get(d)), Tokens(p)).entries);
  }

  lemma {:induction false} RemovedFromScope(s: Scopes, c: ConstantContext, steps: seq<Step>)
    requires steps != [] && PlainSteps(steps) && steps[|steps| - 1].Name? && WellFormed(s)
    ensures Walk(RemoveIn(s, c, Tokens(steps)), Shared(c), steps) == None
  {
    var (d, p) := Landing(s, c, steps);
    var s' := RemoveIn(s, c, Tokens(steps));
    RemoveInOnly(s, c, steps);
    RemoveInKeepsForm(s, c, Tokens(steps));
    LandingPlain(s, c, steps);
    LandedRemoval(s, c, steps, d, p, s');
  }

  lemma {:induction false} LandedRemoval(s: Scopes, c: ConstantContext, steps: seq<Step>,
                                         d: ConstantContext, p: seq<Step>, s': Scopes)
    requires steps != [] && PlainSteps(steps) && (d, p) == Landing(s, c, steps) && WellFormed(s) && WellFormed(s')
    requires PlainSteps(p) && p[|p| - 1].Name? && !ThroughAlias(s, d, Tokens(p))
    requires RemoveNested(Dict(s.Get(d)), Tokens(p)) == Dict(s'.Get(d))
    requires forall e | e != d :: s'.Get(e) == s.Get(e)
    ensures Walk(s', Shared(c), steps) == None
  {
    WalkLands(s, s', c, steps);
    GoneAfterRemoval(s, s', d, p);
  }

  lemma {:induction false} GoneAfterRemoval(s: Scopes, s': Scopes, d: ConstantContext, p: seq<Step>)
    requires p != [] && PlainSteps(p) && p[|p| - 1].Name? && WellFormed(s) && WellFormed(s')
    requires !ThroughAlias(s, d, Tokens(p))
    requires RemoveNested(Dict(s.Get(d)), Tokens(p)) == Dict(s'.Get(d))
    ensures Walk(s', Shared(d), p) == None
  {
    RemoveNestedGone(Dict(s.Get(d)), p);
    RemovedEntryKind(s, d, p);
    GoneFromScope(s', d, p);
  }

  lemma {:induction false} RemovedEntryKind(s: Scopes, d: ConstantContext, p: seq<Step>)
    requires |p| > 0 && PlainSteps(p) && WellFormed(s) && !ThroughAlias(s, d, Tokens(p))
    requires RemoveNested(Dict(s.Get(d)), Tokens(p)).Dict?
    ensures var m := RemoveNested(Dict(s.Get(d)), Tokens(p)).entries;
            |p| > 1 && p[0].Name? && p[0].name in m ==> !m[p[0].name].Shared?
  {
    TokensTail(p);
    TokenKind(p[0]);
    if |p| > 1 && p[0].Name? && p[0].name in s.Get(d) {
      RemoveNestedClean(s.Get(d)[p[0].name], Tokens(p)[1..]);
    }
  }

  /** Below an inserted first name, the walk goes through the object stored under it. */
  lemma {:induction false} WalkUnder(s: Scopes, c: ConstantContext, name: string, below: seq<Step>)
    requires below != [] && !(name in s.Get(c) && s.Get(c)[name].Shared?)
    requires Walk(s, Shared(c), [Name(name)] + below) == None
    ensures Walk(s, DictAt(s.Get(c), name), below) == None
  {
    var steps := [Name(name)] + below;
    assert steps[1..] == below && steps[0] == Name(name);
  }

  lemma {:induction false} RemovedBelow(s: Scopes, target: Target, below: seq<Step>)
    requires below != [] && PlainSteps(below) && below[|below| - 1].Name? && WellFormed(s)
    ensures var steps := Effective(target, below);
            var s' := RemoveIn(s, ContextOf(target), Tokens(steps));
            && (steps == below ==> Walk(s', Shared(ContextOf(target)), below) == None)
            && (steps != below ==> Walk(s', DictAt(s'.Get(ContextOf(target)), steps[0].name), below) == None)
  {
    var steps, c := Effective(target, below), ContextOf(target);
    EffectivePlain(target, below);
    RemovedFromScope(s, c, steps);
    RemoveInKeepsForm(s, c, Tokens(steps));
    if steps != below {
      ReservedNames();
      WalkUnder(RemoveIn(s, c, Tokens(steps)), c, steps[0].name, below);
    }
  }

  lemma {:induction false} PreparedKeepsForm(s: Scopes, target: Target)
    requires WellFormed(s)
    ensures WellFormed(Prepared(s, target))
  {
    SetKeepsForm(s, Results, EnsureCommands(s).results);
  }

  /** After removing a property-ended path the same path no longer resolves. */
  lemma {:induction false} RemovedIsMissing(s: Scopes, kind: ItemKind, path: seq<Segment>)
    requires Canonical(path) && ReadsBack(path) && WellFormed(s)
    requires Below(path) != [] && Below(path)[|Below(path)| - 1].Name?
    requires RemovePath(s, kind, ShowPath(path)).completed
    ensures ResolveRef(RemovePath(s, kind, ShowPath(path)).scopes, ShowPath(path)) == Missing
  {
    var target, below := TargetOf(path).value, Below(path);
    RemoveUnfolds(s, kind, path);
    BelowPlain(path);
    var s1 := Prepared(s, target);
    PreparedKeepsForm(s, target);
    RemovedBelow(s1, target, below);
    ResolveRemoved(s, path, RemoveIn(s1, ContextOf(target), Tokens(Effective(target, below))));
  }

  lemma {:induction false} ResolveRemoved(s: Scopes, path: seq<Segment>, s': Scopes)
    requires Canonical(path) && ReadsBack(path)
    requires var target, below := TargetOf(path).value, Below(path);
             var steps, c := Effective(target, below), ContextOf(target);
             && (steps == below ==> Walk(s', Shared(c), below) == None)
             && (steps != below ==> Walk(s', DictAt(s'.Get(c), steps[0].name), below) == None)
    ensures ResolveRef(s', ShowPath(path)) == Missing
  {
    RootEntries(s', path);
    ResolveBelow(s', path);
  }

  /** Removing below a scope the key that an assignment has just added restores the context. */
  lemma {:induction false} RemoveInUndoes(s: Scopes, c: ConstantContext, steps: seq<Step>, value: Value)
    requires steps != [] && PlainSteps(steps) && AliasesOnly(s) && FreshKey(s, Landing(s, c, steps))
    ensures var w := AssignIn(s, c, Tokens(steps), value);
            w.completed && RemoveIn(w.scopes, c, Tokens(steps)) == s
  {
    LandingPlain(s, c, steps);
    AssignedShape(s, c, steps, value);
    var (d, p) := Landing(s, c, steps);
    var s' := AssignIn(s, c, Tokens(steps), value).scopes;
    UndoLands(s, c, steps, d, p, value, s');
    LandedUndo(s, c, steps, d, p, value, s');
  }

  lemma {:induction false} AssignedShape(s: Scopes, c: ConstantContext, steps: seq<Step>, value: Value)
    requires steps != []
    ensures var (d, p) := Landing(s, c, steps);
            var w, r := AssignIn(s, c, Tokens(steps), value), AssignNested(Dict(s.Get(d)), Tokens(p), value);
            r.0 == Dict(w.scopes.Get(d)) && w.scopes == s.Set(d, w.scopes.Get(d)) && w.completed == r.1
  {
    AssignInLands(s, c, steps, value);
    var (d, p) := Landing(s, c, steps);
    SetGets(s, d, AssignNested(Dict(s.Get(d)), Tokens(p), value).0.entries);
  }

  /** Removing after an assignment lands where the assignment landed. */
  lemma {:induction false} UndoLands(s: Scopes, c: ConstantContext, steps: seq<Step>,
                                     d: ConstantContext, p: seq<Step>, value: Value, s': Scopes)
    requires steps != [] && PlainSteps(steps) && (d, p) == Landing(s, c, steps) && AliasesOnly(s)
    requires PlainSteps(p) && !ThroughAlias(s, d, Tokens(p)) && FreshKey(s, (d, p))
    requires AssignNested(Dict(s.Get(d)), Tokens(p), value).0 == Dict(s'.Get(d))
    requires s' == s.Set(d, s'.Get(d))
    ensures Landing(s', c, steps) == (d, p)
  {
    AssignedStaysDirect(s, d, p, value);
    SetGets(s, d, s'.Get(d));
    SameLanding(s, s', c, steps);
  }

  lemma {:induction false} LandedUndo(s: Scopes, c: ConstantContext, steps: seq<Step>,
                                      d: ConstantContext, p: seq<Step>, value: Value, s': Scopes)
    requires steps != [] && PlainSteps(p) && FreshKey(s, (d, p)) && Landing(s', c, steps) == (d, p)
    requires AssignNested(Dict(s.Get(d)), Tokens(p), value).0 == Dict(s'.Get(d))
    requires s' == s.Set(d, s'.Get(d))
    ensures AssignNested(Dict(s.Get(d)), Tokens(p), value).1 && RemoveIn(s', c, Tokens(steps)) == s
  {
    RemoveUndoesAssign(Dict(s.Get(d)), p, value);
    RemoveInLands(s', c, steps);
    SetBack(s, d, s'.Get(d));
  }

  lemma {:induction false} SetBack(s: Scopes, d: ConstantContext, m: map<string, Value>)
    ensures s.Set(d, m).Set(d, s.Get(d)) == s
  {
  }

  /** A key that is absent from an object that exists. */
  predicate FreshKey(s: Scopes, location: (ConstantContext, seq<Step>)) {
    var (d, p) := location;
    && p != [] && p[|p| - 1].Name? && Stored(s, d, p) == None
    && Stored(s, d, p[..|p| - 1]).Some? && Stored(s, d, p[..|p| - 1]).value.Dict?
  }

  lemma {:induction false} AssignedStaysDirect(s: Scopes, d: ConstantContext, p: seq<Step>, value: Value)
    requires PlainSteps(p) && FreshKey(s, (d, p)) && !ThroughAlias(s, d, Tokens(p))
    ensures AssignNested(Dict(s.Get(d)), Tokens(p), value).0.Dict?
    ensures !ThroughAlias(s.Set(d, AssignNested(Dict(s.Get(d)), Tokens(p), value).0.entries), d, Tokens(p))
  {
    AssignNestedKind(Dict(s.Get(d)), Tokens(p), value);
    TokensTail(p);
    TokenKind(p[0]);
    if |p| > 1 {
      assert p[..|p| - 1][0] == p[0];
      ContainerNotNull(Child(Dict(s.Get(d)), p[0]).value, p[..|p| - 1][1..]);
      AssignedEntry(Dict(s.Get(d)), p, value);
    }
  }

  /** A write below `result.commands` leaves it an object. */
  lemma {:induction false} CommandsStay(s: Scopes, below: seq<Step>, value: Value)
    requires HasCommands(s) && below != [] && PlainSteps(below)
    ensures HasCommands(AssignIn(s, Results, Tokens([Name("commands")] + below), value).scopes)
  {
    var steps := [Name("commands")] + below;
    ReservedNames();
    TokensPrepend("commands", below);
    TokenKind(steps[0]);
    assert s.Get(Results) == s.results && !ThroughAlias(s, Results, Tokens(steps));
    var r := AssignNested(Dict(s.results), Tokens(steps), value).0;
    AssignedEntry(Dict(s.results), steps, value);
    AssignNestedKind(Dict(s.results), Tokens(steps), value);
    SetGets(s, Results, r.entries);
  }

  /** Removing a key that a write has just added to an existing object restores the context. */
  lemma {:induction false} RemoveUndoesWrite(s: Scopes, kind: ItemKind, path: seq<Segment>, value: Value)
    requires Canonical(path) && TargetOf(path).Some? && !Guarded(kind, TargetOf(path).value) && AliasesOnly(s)
    requires TargetOf(path).value.CommandsTarget? ==> HasCommands(s)
    requires Below(path) != [] && FreshKey(s, Location(s, path))
    ensures var w := WritePath(s, kind, ShowPath(path), value);
            w.completed && RemovePath(w.scopes, kind, ShowPath(path)) == Written(s, true)
  {
    var target, below := TargetOf(path).value, Below(path);
    BelowPlain(path);
    EffectivePlain(target, below);
    WriteUnfolds(s, kind, path, value);
    RemoveInUndoes(s, ContextOf(target), Effective(target, below), value);
    if target.CommandsTarget? {
      CommandsStay(s, below, value);
    }
    RemoveUnfolds(WritePath(s, kind, ShowPath(path), value).scopes, kind, path);
  }

  /** A write changes neither the aliases it passes through nor the kind of an existing entry. */
  lemma {:induction false} SameLanding(s: Scopes, s': Scopes, c: ConstantContext, steps: seq<Step>)
    requires steps != [] && PlainSteps(steps) && AliasesOnly(s)
    requires forall e | e != Landing(s, c, steps).0 :: s'.Get(e) == s.Get(e)
    requires var (d, p) := Landing(s, c, steps); !ThroughAlias(s', d, Tokens(p))
    ensures Landing(s', c, steps) == Landing(s, c, steps)
    decreases |steps|
  {
    TokensTail(steps);
    TokenKind(steps[0]);
    LocatedRank(s, c, Tokens(steps));
    if ThroughAlias(s, c, Tokens(steps)) {
      var next, rest := s.Get(c)[Tokens(steps)[0]].scope, steps[1..];
      LandingThrough(s, c, steps);
      SameLanding(s, s', next, rest);
      LandingThrough(s', c, steps);
    } else {
      assert steps[0..] == steps;
    }
  }

  /** After an assignment below a first name, that entry is a container, not an alias. */
  lemma {:induction false} AssignedEntry(current: Value, p: seq<Step>, value: Value)
    requires |p| > 1 && PlainSteps(p) && Child(current, p[0]).Some? && Child(current, p[0]).value != Null
    ensures var r := Child(AssignNested(current, Tokens(p), value).0, p[0]);
            && r.Some? && (r.value.Shared? ==> Child(current, p[0]).value.Shared?)
            && (Child(current, p[0]).value.Dict? ==> r.value.Dict?)
  {
    AssignStep(current, p, value);
  }
}
