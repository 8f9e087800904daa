/** How far the guard on test items reaches, over all contexts: writes that complete or raise, and
    removals. */
module ContextEscapes {
  import opened Prelude
  import opened PyValues
  import opened PathTokens
  import opened ContextStore
  import opened ContextLaws
  import opened ContextTheorems
  import opened ContextFrames
  import opened ContextGuards
  import opened ContextReadBack

  /** A context with the alias `local.global` in place. */
  predicate Aliased(s: Scopes) {
    AliasesOnly(s) && "global" in s.local && s.local["global"] == Shared(Global)
  }

  /** A path that goes through the alias to a name in the global scope. */
  predicate Reaches(path: seq<Segment>)
    requires Canonical(path)
  {
    Escapes(path) && Below(path)[1].Name?
  }

  // ----- Paths that reach -----

  /** The global scope holds exactly the chain a write below it needs. */
  function Behind(steps: seq<Step>): Scopes
    requires steps != [] && steps[0].Name?
  {
    Scopes(map[], Chain(steps, Int(1)).entries, map["global" := Shared(Global)], map[])
  }

  lemma {:induction false} ChainsDiffer(steps: seq<Step>)
    ensures Chain(steps, Int(0)) != Chain(steps, Int(1))
    decreases |steps|
  {
    if steps != [] {
      ChainsDiffer(steps[1..]);
      ChainChild(steps, Int(0), Int(0));
      ChainChild(steps, Int(1), Int(1));
    }
  }

  lemma {:induction false} RemovedFromChain(steps: seq<Step>)
    requires steps != [] && PlainSteps(steps)
    ensures RemoveNested(Chain(steps, Int(1)), Tokens(steps)) != Chain(steps, Int(1))
    decreases |steps|
  {
    ChainChild(steps, Int(1), Int(1));
    if |steps| == 1 {
      TokensTail(steps);
      TokenKind(steps[0]);
    } else {
      RemovedFromChain(steps[1..]);
      RemoveStep(Chain(steps, Int(1)), steps);
    }
  }

  lemma {:induction false} BehindIsAliased(steps: seq<Step>)
    requires steps != [] && steps[0].Name? && PlainSteps(steps)
    ensures var s, tokens := Behind(steps), Tokens([Name("global")] + steps);
            && Aliased(s) && ThroughAlias(s, Local, tokens) && tokens[1..] == Tokens(steps)
            && !ThroughAlias(s, Global, Tokens(steps))
  {
    ReservedNames();
    TokensPrepend("global", steps);
    TokenKind(Name("global"));
    assert [Name("global")][0] == Name("global");
    ChainNoShared(steps, Int(1));
  }

  lemma {:induction false} BehindWritten(steps: seq<Step>)
    requires steps != [] && steps[0].Name? && PlainSteps(steps)
    ensures !Untouched(Behind(steps), AssignIn(Behind(steps), Local, Tokens([Name("global")] + steps), Int(0)).scopes)
  {
    BehindIsAliased(steps);
    AssignChain(steps, Int(0));
    ChainsDiffer(steps);
  }

  lemma {:induction false} BehindRemoved(steps: seq<Step>)
    requires steps != [] && steps[0].Name? && PlainSteps(steps)
    ensures !Untouched(Behind(steps), RemoveIn(Behind(steps), Local, Tokens([Name("global")] + steps)))
  {
    BehindIsAliased(steps);
    RemovedFromChain(steps);
    RemoveNestedKind(Chain(steps, Int(1)), Tokens(steps));
  }

  lemma {:induction false} BehindTouched(steps: seq<Step>)
    requires steps != [] && steps[0].Name? && PlainSteps(steps)
    ensures var s, local, below := Behind(steps), Some(ScopeTarget(Local)), [Name("global")] + steps;
            && Aliased(s)
            && !Untouched(s, WriteSteps(s, TestItem, local, below, Int(0)).scopes)
            && !Untouched(s, RemoveSteps(s, TestItem, local, below).scopes)
  {
    ConstantsIsNotGlobal();
    BehindIsAliased(steps);
    BehindWritten(steps);
    BehindRemoved(steps);
    assert Effective(ScopeTarget(Local), [Name("global")] + steps) == [Name("global")] + steps;
  }

  /** Below `local.global`, a context in which the write and the removal change the global scope. */
  lemma {:induction false} ReachingTouches(path: seq<Segment>) returns (s: Scopes)
    requires Canonical(path) && Reaches(path)
    ensures Aliased(s)
    ensures !Untouched(s, WritePath(s, TestItem, ShowPath(path), Int(0)).scopes)
    ensures !Untouched(s, RemovePath(s, TestItem, ShowPath(path)).scopes)
  {
    var steps := Below(path)[1..];
    BelowPlain(path);
    assert Below(path) == [Name("global")] + steps;
    s := Behind(steps);
    BehindTouched(steps);
    WriteUnfolds(s, TestItem, path, Int(0));
    RemoveUnfolds(s, TestItem, path);
  }

  // ----- Paths that do not -----

  /** A scope dict has no elements: an index raises, or finds nothing to remove. */
  lemma {:induction false} IndexAtScope(s: Scopes, c: ConstantContext, tokens: seq<string>, value: Value)
    requires tokens != [] && ToIndex(tokens[0]).Some?
    ensures AssignIn(s, c, tokens, value) == Written(s, false) && RemoveIn(s, c, tokens) == s
  {
    assert s.Set(c, s.Get(c)) == s;
  }

  lemma {:induction false} IndexBehindAlias(s: Scopes, below: seq<Step>, value: Value)
    requires Aliased(s) && PlainSteps(below) && |below| > 1 && below[0] == Name("global") && below[1].Index?
    ensures AssignIn(s, Local, Tokens(below), value) == Written(s, false) && RemoveIn(s, Local, Tokens(below)) == s
  {
    TokensTail(below);
    TokensTail(below[1..]);
    TokenKind(below[0]);
    TokenKind(below[1]);
    IndexAtScope(s, Global, Tokens(below[1..]), value);
  }

  /** A removal that stays in the local scope or the results. */
  lemma {:induction false} LocalRemoveUntouched(s: Scopes, target: Target, below: seq<Step>)
    requires below != [] && PlainSteps(below) && AliasesOnly(s) && !Guarded(TestItem, target)
    requires target == ScopeTarget(Local) ==> !(|below| > 1 && below[0] == Name("global"))
    ensures Untouched(s, RemoveIn(if target.CommandsTarget? then EnsureCommands(s) else s, ContextOf(target),
                                  Tokens(Effective(target, below))))
  {
    EnsureCommandsUntouched(s);
    var s1 := if target.CommandsTarget? then EnsureCommands(s) else s;
    var c, steps := ContextOf(target), Effective(target, below);
    EffectivePlain(target, below);
    ConstantsIsNotGlobal();
    StaysInScope(s1, c, steps);
    RemoveInOnly(s1, c, steps);
    var s' := RemoveIn(s1, c, Tokens(steps));
    assert s'.Get(Global) == s'.global && s'.Get(RunEnvelope) == s'.runEnvelope;
    assert s1.Get(Global) == s1.global && s1.Get(RunEnvelope) == s1.runEnvelope;
  }

  lemma {:induction false} OtherPathsTouchNothing(s: Scopes, path: seq<Segment>, value: Value)
    requires Canonical(path) && !Reaches(path) && Aliased(s)
    ensures Untouched(s, WritePath(s, TestItem, ShowPath(path), value).scopes)
    ensures Untouched(s, RemovePath(s, TestItem, ShowPath(path)).scopes)
  {
    var target, below := TargetOf(path), Below(path);
    BelowPlain(path);
    WriteUnfolds(s, TestItem, path, value);
    RemoveUnfolds(s, TestItem, path);
    EnsureCommandsUntouched(s);
    if target.Some? && !Guarded(TestItem, target.value) {
      if Escapes(path) {
        ConstantsIsNotGlobal();
        IndexBehindAlias(s, below, value);
      } else {
        LocalWriteUntouched(s, target.value, below, value);
        if below != [] {
          LocalRemoveUntouched(s, target.value, below);
        }
      }
    }
  }

  // ----- The reach of the guard -----

  /** The guard keeps a test's writes by a path, completed or raising halfway, off the global scope
      and the run envelope in every context exactly when the path does not go through
      `local.global` to a name. */
  lemma {:induction false} WritesAreGuardedExactly(path: seq<Segment>)
    requires Canonical(path)
    ensures !Reaches(path) <==>
            forall s: Scopes, v: Value | Aliased(s) :: Untouched(s, WritePath(s, TestItem, ShowPath(path), v).scopes)
  {
    if Reaches(path) {
      var s := ReachingTouches(path);
    } else {
      forall s: Scopes, v: Value | Aliased(s)
        ensures Untouched(s, WritePath(s, TestItem, ShowPath(path), v).scopes)
      {
        OtherPathsTouchNothing(s, path, v);
      }
    }
  }

  /** The same paths bypass the guard of `remove_context_path`. */
  lemma {:induction false} RemovalsAreGuardedExactly(path: seq<Segment>)
    requires Canonical(path)
    ensures !Reaches(path) <==>
            forall s: Scopes | Aliased(s) :: Untouched(s, RemovePath(s, TestItem, ShowPath(path)).scopes)
  {
    if Reaches(path) {
      var s := ReachingTouches(path);
    } else {
      forall s: Scopes | Aliased(s) ensures Untouched(s, RemovePath(s, TestItem, ShowPath(path)).scopes) {
        OtherPathsTouchNothing(s, path, Null);
      }
    }
  }
}
