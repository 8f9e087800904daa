/** Exactly which paths are read back: for every other canonical path with a supported root there
    is a context in which the write completes and the same path does not resolve to the value. */
module ContextReadBack {
  import opened Prelude
  import opened PyText
  import opened PyValues
  import opened PathTokens
  import opened ContextStore
  import opened ContextLaws
  import opened ContextTheorems

  /** A tree that holds `leaf` at the end of the given steps and nothing else of that depth. */
  function Chain(steps: seq<Step>, leaf: Value): (v: Value)
    ensures !leaf.Shared? ==> !v.Shared?
    decreases |steps|
  {
    if steps == [] then leaf
    else
      match steps[0]
      case Name(n) => Dict(map[n := Chain(steps[1..], leaf)])
      case Index(i) => List(seq(i, _ => Null) + [Chain(steps[1..], leaf)])
  }

  lemma {:induction false} ChainDepth(steps: seq<Step>, leaf: Value, q: seq<Step>)
    requires leaf.Int? && |q| > |steps|
    ensures At(Chain(steps, leaf), q) == None
    decreases |steps|
  {
    if steps != [] {
      match Child(Chain(steps, leaf), q[0])
      case None =>
      case Some(child) => if child != Null { ChainDepth(steps[1..], leaf, q[1..]); }
    }
  }

  lemma {:induction false} ChainChild(steps: seq<Step>, a: Value, b: Value)
    requires steps != []
    ensures Child(Chain(steps, a), steps[0]) == Some(Chain(steps[1..], a))
    ensures WithChild(Chain(steps, a), steps[0], Chain(steps[1..], b)) == Chain(steps, b)
  {
    match steps[0]
    case Name(n) => assert map[n := Chain(steps[1..], a)][n := Chain(steps[1..], b)] == map[n := Chain(steps[1..], b)];
    case Index(i) =>
      var pad := seq(i, _ => Null);
      assert (pad + [Chain(steps[1..], a)])[i := Chain(steps[1..], b)] == pad + [Chain(steps[1..], b)];
  }

  lemma {:induction false} AssignChain(steps: seq<Step>, value: Value)
    requires steps != [] && PlainSteps(steps)
    ensures AssignNested(Chain(steps, Int(1)), Tokens(steps), value) == (Chain(steps, value), true)
    decreases |steps|
  {
    var before := Chain(steps, Int(1));
    ChainChild(steps, Int(1), value);
    if |steps| == 1 {
      TokensTail(steps);
      TokenKind(steps[0]);
      assert Chain([], value) == value;
    } else {
      AssignChain(steps[1..], value);
      AssignStep(before, steps, value);
    }
  }

  /** A walk that meets no alias is a plain lookup. */
  lemma {:induction false} WalkIsAt(s: Scopes, v: Value, steps: seq<Step>)
    requires NoShared(v)
    ensures Walk(s, v, steps) == At(v, steps)
    decreases |steps|
  {
    if steps != [] {
      match Child(v, steps[0])
      case None =>
      case Some(child) => WalkIsAt(s, child, steps[1..]);
    }
  }

  lemma {:induction false} ChainNoShared(steps: seq<Step>, leaf: Value)
    requires NoShared(leaf)
    ensures NoShared(Chain(steps, leaf))
    decreases |steps|
  {
    if steps != [] {
      ChainNoShared(steps[1..], leaf);
    }
  }

  const NO_SCOPES := Scopes(map[], map[], map[], map[])

  /** The scope dict `c` holds exactly the chain a write below it needs. */
  function Holding(c: ConstantContext, steps: seq<Step>): Scopes
    requires steps != [] && steps[0].Name?
  {
    NO_SCOPES.Set(c, Chain(steps, Int(1)).entries)
  }

  lemma {:induction false} HoldingWrite(c: ConstantContext, steps: seq<Step>, value: Value)
    requires steps != [] && steps[0].Name? && PlainSteps(steps)
    ensures WellFormed(Holding(c, steps))
    ensures AssignIn(Holding(c, steps), c, Tokens(steps), value)
         == Written(NO_SCOPES.Set(c, Chain(steps, value).entries), true)
  {
    var s := Holding(c, steps);
    AssignChain(steps, value);
    ChainNoShared(steps, Int(1));
    assert !ThroughAlias(s, c, Tokens(steps));
    assert s.Get(c) == Chain(steps, Int(1)).entries;
  }

  /** Below a scope, a path whose first name the writer moves under `constants` is lost. */
  lemma {:induction false} MovedIsLost(c: ConstantContext, below: seq<Step>)
    requires !c.Results? && below != [] && !StartsReserved(below) && PlainSteps(below)
    ensures var s := Holding(c, Effective(ScopeTarget(c), below));
            var w := WriteBelow(s, ScopeTarget(c), below, Int(0));
            WellFormed(s) && w.completed && Walk(w.scopes, Shared(c), below) == None
  {
    var steps := Effective(ScopeTarget(c), below);
    EffectivePlain(ScopeTarget(c), below);
    HoldingWrite(c, steps, Int(0));
    var s' := NO_SCOPES.Set(c, Chain(steps, Int(0)).entries);
    assert s'.Get(c).Keys == {"constants"};
    assert below[0].Name? ==> below[0].name != "constants";
  }

  /** `$.vars` replaces the whole global scope but reads only its constants. */
  lemma {:induction false} VarsRootIsLost()
    ensures var w := WriteBelow(NO_SCOPES, ScopeTarget(Global), [], Dict(map["x" := Null]));
            w.completed && Walk(w.scopes, DictAt(w.scopes.global, "constants"), []) == Some(Dict(map[]))
    ensures WellFormed(NO_SCOPES) && Dict(map["x" := Null]) != Dict(map[])
  {
    assert "x" in map["x" := Null];
  }

  /** `$.vars[i]` and `$.vars.<reserved>` write beside or above what they read. */
  lemma {:induction false} VarsElsewhereIsLost(below: seq<Step>)
    requires below != [] && PlainSteps(below) && (below[0].Name? <==> StartsReserved(below))
    ensures var s := Holding(Global, Effective(ScopeTarget(Global), below));
            var w := WriteBelow(s, ScopeTarget(Global), below, Int(0));
            && WellFormed(s) && w.completed
            && Walk(w.scopes, DictAt(w.scopes.global, "constants"), below) == None
  {
    var steps := Effective(ScopeTarget(Global), below);
    ReservedNames();
    EffectivePlain(ScopeTarget(Global), below);
    HoldingWrite(Global, steps, Int(0));
    var s' := NO_SCOPES.Set(Global, Chain(steps, Int(0)).entries);
    var constants := DictAt(s'.global, "constants");
    if below[0].Name? {
      ChainNoShared(steps, Int(0));
      ChainDepth(steps, Int(0), [Name("constants")] + below);
      assert ([Name("constants")] + below)[1..] == below;
      assert NoShared(constants);
      WalkIsAt(s', constants, below);
    }
  }

  lemma {:induction false} IndexNotReserved(below: seq<Step>)
    requires below != [] && below[0].Index?
    ensures !StartsReserved(below)
  {
    ParseShowNat(below[0].index);
    assert "constants"[0] == 'c' && "event"[0] == 'e' && "run_id"[0] == 'r'
        && "runEnvelope"[0] == 'r' && "global"[0] == 'g';
  }

  /** The reason a path is not read back, as a context and a value. */
  lemma {:induction false} NotReadBack(path: seq<Segment>) returns (s: Scopes, value: Value)
    requires Canonical(path) && TargetOf(path).Some? && !ReadsBack(path)
    ensures WellFormed(s) && NoShared(value)
    ensures WritePath(s, HookItem, ShowPath(path), value).completed
    ensures !ReadsAs(WritePath(s, HookItem, ShowPath(path), value).scopes, path, value)
  {
    var target, below := TargetOf(path).value, Below(path);
    BelowPlain(path);
    if path[0].name != "vars" {
      s, value := Holding(target.context, Effective(target, below)), Int(0);
      MovedIsLost(target.context, below);
    } else if below == [] {
      s, value := NO_SCOPES, Dict(map["x" := Null]);
      VarsRootIsLost();
    } else {
      if below[0].Index? {
        IndexNotReserved(below);
      }
      s, value := Holding(Global, Effective(target, below)), Int(0);
      VarsElsewhereIsLost(below);
    }
    WriteUnfolds(s, HookItem, path, value);
    var s' := WriteBelow(s, target, below, value).scopes;
    RootEntries(s', path);
    ResolveBelow(s', path);
  }

  /** A canonical path with a supported root is read back after every completed write, in every
      context, exactly when it is one the two parsers understand alike. */
  lemma {:induction false} ReadAfterWriteExactly(path: seq<Segment>)
    requires Canonical(path) && TargetOf(path).Some?
    ensures ReadsBack(path) <==>
            forall s: Scopes, kind: ItemKind, value: Value
              | WellFormed(s) && NoShared(value) && WritePath(s, kind, ShowPath(path), value).completed ::
              ReadsAs(WritePath(s, kind, ShowPath(path), value).scopes, path, value)
  {
    if ReadsBack(path) {
      forall s: Scopes, kind: ItemKind, value: Value
        | WellFormed(s) && NoShared(value) && WritePath(s, kind, ShowPath(path), value).completed
        ensures ReadsAs(WritePath(s, kind, ShowPath(path), value).scopes, path, value)
      {
        ReadAfterWrite(s, kind, path, value);
      }
    } else {
      var s, value := NotReadBack(path);
    }
  }
}
