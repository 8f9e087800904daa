/** What a snapshot of a run context holds and gives back: its readings, its ids, and the marks the
    asserts leave in it. */
module ContextSnapshots {
  import opened Prelude
  import opened PyText
  import opened PyValues
  import opened PathTokens
  import opened ContextStore
  import opened ContextLaws
  import opened ContextTheorems
  import opened ContextGuards
  import opened ContextCompletion
  import opened RunContexts

  // ----- The whole state -----

  /** The ids a context was created with: the run id is the one in the envelope, and an invocation id
      is not blank at its ends. */
  predicate IdsAsCreated(c: ContextState) {
    && (Snapshotable(c) ==> c.runId == c.scopes.runEnvelope["run_id"].s)
    && (c.invocationId.Some? ==> c.invocationId.value != "" && Strip(c.invocationId.value) == c.invocationId.value)
  }

  lemma {:induction false} IdsRestored(c: ContextState, pyStr: Value -> string)
    ensures Deserialize(Serialize(c), pyStr).runId == RestoredId(c, pyStr)
    ensures Deserialize(Serialize(c), pyStr).invocationId
         == if c.invocationId.None? || Strip(c.invocationId.value) == "" then None else Some(Strip(c.invocationId.value))
  {
    PayloadFields(c);
    IdFields(c);
    StripTrims(if Strip(c.runId) != [] then Strip(c.runId) else TextAt(c.scopes.runEnvelope, "run_id", pyStr));
    if c.invocationId.Some? {
      StripTrims(c.invocationId.value);
    }
    assert Strip("") == "";
  }

  lemma {:induction false} IdFields(c: ContextState)
    ensures Serialize(c)["invocation_id"]
         == if c.invocationId.None? || Strip(c.invocationId.value) == "" then Null else Str(Strip(c.invocationId.value))
  {
    assert "last"[0] == 'l' && "invocation_id"[0] == 'i';
  }

  /** A snapshot gives back the whole state, ids and last item included, exactly when it still has
      the shape and the ids it was created with. */
  lemma {:induction false} StateRoundTrip(c: ContextState, pyStr: Value -> string)
    ensures Deserialize(Serialize(c), pyStr) == c <==> Snapshotable(c) && IdsAsCreated(c)
  {
    SnapshotRoundTrip(c, pyStr);
    IdsRestored(c, pyStr);
    if Snapshotable(c) {
      RunIdRestored(c, pyStr);
    }
  }

  lemma {:induction false} RunIdRestored(c: ContextState, pyStr: Value -> string)
    requires Snapshotable(c)
    ensures RestoredId(c, pyStr) == c.scopes.runEnvelope["run_id"].s
  {
    StripTrims(c.runId);
    StripTrims(c.scopes.runEnvelope["run_id"].s);
    assert "run_id" in c.scopes.runEnvelope;
  }

  // ----- What is in the snapshot -----

  /** A scope in the snapshot: its aliases are the scopes they stand for. */
  function Expanded(s: Scopes, c: ConstantContext): Value {
    match c
    case RunEnvelope => Dict(s.runEnvelope)
    case Global => Inline(s.global, Dict(s.runEnvelope))
    case Local => Inline(s.local, Inline(s.global, Dict(s.runEnvelope)))
    case Results => Dict(s.results)
  }

  lemma {:induction false} ScopesSerialized(c: ContextState, x: ConstantContext)
    ensures ContextName(x) in Serialize(c) && Serialize(c)[ContextName(x)] == Expanded(c.scopes, x)
  {
    PayloadKeys(c);
  }

  lemma {:induction false} PayloadKeys(c: ContextState)
    ensures var payload := Serialize(c);
            && payload["runEnvelope"] == Expanded(c.scopes, RunEnvelope) && payload["global"] == Expanded(c.scopes, Global)
            && payload["local"] == Expanded(c.scopes, Local) && payload["result"] == Expanded(c.scopes, Results)
  {
    assert "global"[0] == 'g' && "local"[0] == 'l' && "last"[0] == 'l' && "last"[1] == 'a' && "local"[1] == 'o'
        && "result"[1] == 'e' && "invocation_id"[0] == 'i' && "runEnvelope"[0] == 'r' && "runEnvelope"[1] == 'u'
        && "result"[0] == 'r';
  }

  lemma {:induction false} ExpandedEntry(s: Scopes, c: ConstantContext, n: string)
    requires AliasesOnly(s)
    ensures Expanded(s, c).Dict? && (n in Expanded(s, c).entries <==> n in s.Get(c))
    ensures n in s.Get(c) ==>
              Expanded(s, c).entries[n] == if s.Get(c)[n].Shared? then Expanded(s, s.Get(c)[n].scope) else s.Get(c)[n]
  {
  }

  /** Reading a place of the snapshot is reading it in the context, aliases followed. */
  lemma {:induction false} ExpandedReads(s: Scopes, c: ConstantContext, steps: seq<Step>)
    requires WellFormed(s)
    ensures At(Expanded(s, c), steps) ==
            match Walk(s, Shared(c), steps)
            case None => None
            case Some(v) => Some(if v.Shared? then Expanded(s, v.scope) else v)
    decreases |steps|
  {
    if steps != [] && steps[0].Name? {
      var n, rest := steps[0].name, steps[1..];
      ExpandedEntry(s, c, n);
      if n in s.Get(c) {
        if s.Get(c)[n].Shared? {
          ExpandedReads(s, s.Get(c)[n].scope, rest);
        } else {
          WalkIsAt(s, s.Get(c)[n], rest);
          if At(s.Get(c)[n], rest).Some? {
            assert !At(s.Get(c)[n], rest).value.Shared?;
          }
        }
      }
    } else if steps != [] {
      ExpandedEntry(s, c, "");
    }
  }

  /** So the snapshot answers every path below a scope as the context does. */
  lemma {:induction false} SnapshotReadsAlike(c: ContextState, x: ConstantContext, steps: seq<Step>)
    requires WellFormed(c.scopes)
    ensures At(Dict(Serialize(c)), [Name(ContextName(x))] + steps) ==
            match Walk(c.scopes, Shared(x), steps)
            case None => None
            case Some(v) => Some(if v.Shared? then Expanded(c.scopes, v.scope) else v)
  {
    ScopesSerialized(c, x);
    assert ([Name(ContextName(x))] + steps)[1..] == steps;
    ExpandedReads(c.scopes, x, steps);
  }

  // ----- Asserts -----

  /** An artifact is put after the asserts already gathered; whatever else the context holds stays,
      if the artifacts are an object. */
  lemma {:induction false} ArtifactFrame(s: Scopes, artifact: Value, c: ConstantContext, q: seq<Step>)
    requires "artifacts" in s.results ==> s.results["artifacts"].Dict?
    requires c == Results ==> Apart([Name("artifacts"), Name("asserts")], q)
    requires At(Dict(s.Get(c)), q).Some?
    ensures At(Dict(WithArtifact(s, artifact).Get(c)), q) == At(Dict(s.Get(c)), q)
  {
    var p := [Name("artifacts"), Name("asserts")];
    if c == Results {
      ApartTail(p, q);
      assert p[1..] == [Name("asserts")];
      if q[0] == p[0] {
        ApartTail(p[1..], q[1..]);
      }
    }
  }

  // ----- A created context -----

  /** A created context holds its id, its event and its variables in the run envelope, empty
      constants everywhere else, and nothing in its results. */
  lemma {:induction false} CreatedHolds(runId: string, event: Value, vars: Value)
    ensures var s := FreshScopes(runId, event, vars);
            && s.runEnvelope ==
                 map["run_id" := Str(Strip(runId)), "event" := Dict(DictOr(event)), "constants" := Dict(DictOr(vars))]
            && HasConstants(s)
            && Constants(s, RunEnvelope) == DictOr(vars)
            && Constants(s, Global) == Constants(s, Local) == Constants(s, Results) == map[]
            && s.results.Keys == {"artifacts", "commands", "constants"}
            && s.results["artifacts"] == s.results["commands"] == Dict(map[])
  {
    assert "artifacts"[0] == 'a' && "commands"[2] == 'm' && "constants"[2] == 'n' && "run_id"[0] == 'r' && "event"[0] == 'e'
        && "runEnvelope"[0] == 'r' && "global"[0] == 'g' && "constants"[0] == 'c' && "commands"[0] == 'c';
    FreshShape(runId, event, vars);
    var s := FreshScopes(runId, event, vars);
    assert s.Get(RunEnvelope) == s.runEnvelope && s.Get(Global) == s.global && s.Get(Local) == s.local
        && s.Get(Results) == s.results;
  }
}
