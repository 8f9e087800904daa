/** The mutable RunContext object of run_context.py, and its serialised form. */
module RunContexts {
  import opened Prelude
  import opened PyText
  import opened PyValues
  import opened PathTokens
  import opened ContextStore
  import opened ContextTheorems
  import opened ContextFrames
  import opened ContextGuards

  function DictOr(v: Value): map<string, Value> {
    if v.Dict? then v.entries else map[]
  }

  /** `_build_run_context_payload`. */
  function FreshScopes(runId: string, event: Value, initialVars: Value): Scopes {
    Scopes(
      map["run_id" := Str(Strip(runId)), "event" := Dict(DictOr(event)), "constants" := Dict(DictOr(initialVars))],
      map["runEnvelope" := Shared(RunEnvelope), "constants" := Dict(map[])],
      map["global" := Shared(Global), "constants" := Dict(map[])],
      map["artifacts" := Dict(map[]), "commands" := Dict(map[]), "constants" := Dict(map[])])
  }

  /** `append_assert_artifact`. */
  function WithArtifact(s: Scopes, artifact: Value): Scopes {
    var artifacts := if "artifacts" in s.results then DictOr(s.results["artifacts"]) else map[];
    var asserts := if "asserts" in artifacts && artifacts["asserts"].List? then artifacts["asserts"].items else [];
    s.(results := s.results["artifacts" := Dict(artifacts["asserts" := List(asserts + [artifact])])])
  }

  /** The local constants replaced, as binding a suite item or resetting the local context does. */
  function WithLocals(s: Scopes, locals: map<string, Value>): Scopes {
    s.(local := s.local["constants" := Dict(locals)])
  }

  /** What a context remembers of the last item before there is one. */
  const NO_ITEM := Dict(map["item_id" := Str(""), "data" := Null])

  class RunContext {
    var runId: string
    var runEnvelope: map<string, Value>
    var globalScope: map<string, Value>
    var localScope: map<string, Value>
    var resultScope: map<string, Value>
    var invocationId: Option<string>
    var currentItemKind: ItemKind
    var last: Value

    ghost function View(): Scopes
      reads this
    {
      Scopes(runEnvelope, globalScope, localScope, resultScope)
    }

    constructor (runId: string, event: Value, initialVars: Value, invocation: string)
      ensures View() == FreshScopes(runId, event, initialVars)
      ensures this.runId == Strip(runId) && currentItemKind == HookItem && last == NO_ITEM
      ensures invocationId == (if Strip(invocation) == [] then None else Some(Strip(invocation)))
    {
      var made := FreshScopes(runId, event, initialVars);
      this.runId := Strip(runId);
      runEnvelope, globalScope := made.runEnvelope, made.global;
      localScope, resultScope := made.local, made.results;
      invocationId := if Strip(invocation) == [] then None else Some(Strip(invocation));
      currentItemKind := HookItem;
      last := NO_ITEM;
    }

    method Store(s: Scopes)
      modifies this`runEnvelope, this`globalScope, this`localScope, this`resultScope
      ensures View() == s
    {
      runEnvelope, globalScope, localScope, resultScope := s.runEnvelope, s.global, s.local, s.results;
    }

    method WriteContextPath(path: string, value: Value) returns (completed: bool)
      modifies this`runEnvelope, this`globalScope, this`localScope, this`resultScope
      ensures Written(View(), completed) == WritePath(old(View()), currentItemKind, path, value)
    {
      var tokens := PathTokensOf(path);
      if tokens.None? {
        return false;
      }
      var root := RootOf(tokens.value);
      if root.None? || Guarded(currentItemKind, root.value) {
        return false;
      }
      var scopes := Scopes(runEnvelope, globalScope, localScope, resultScope);
      var written := WriteAt(scopes, root.value, TargetTokens(root.value, tokens.value), value);
      Store(written.scopes);
      completed := written.completed;
    }

    method RemoveContextPath(path: string) returns (completed: bool)
      modifies this`runEnvelope, this`globalScope, this`localScope, this`resultScope
      ensures Written(View(), completed) == RemovePath(old(View()), currentItemKind, path)
    {
      var tokens := PathTokensOf(path);
      if tokens.None? {
        return false;
      }
      var root := RootOf(tokens.value);
      if root.None? {
        return true;
      }
      if Guarded(currentItemKind, root.value) {
        return false;
      }
      var scopes := Scopes(runEnvelope, globalScope, localScope, resultScope);
      Store(RemoveAt(scopes, root.value, TargetTokens(root.value, tokens.value)));
      completed := true;
    }

    method AppendAssertArtifact(artifact: Value)
      modifies this`resultScope
      ensures View() == WithArtifact(old(View()), artifact)
    {
      var artifacts := map[];
      if "artifacts" in resultScope && resultScope["artifacts"].Dict? {
        artifacts := resultScope["artifacts"].entries;
      }
      var asserts := [];
      if "asserts" in artifacts && artifacts["asserts"].List? {
        asserts := artifacts["asserts"].items;
      }
      resultScope := resultScope["artifacts" := Dict(artifacts["asserts" := List(asserts + [artifact])])];
    }

    method ResetLocalContext()
      modifies this`localScope, this`last
      ensures View() == WithLocals(old(View()), map[]) && last == NO_ITEM
    {
      localScope := localScope["constants" := Dict(map[])];
      last := NO_ITEM;
    }

    /** `_resolve_ref` against `build_run_context_scope`. */
    method Resolve(expression: string) returns (found: Lookup)
      ensures found == ResolveRef(View(), expression)
    {
      var scopes := Scopes(runEnvelope, globalScope, localScope, resultScope);
      var ref := Strip(expression);
      if ref == "$" {
        return Found(ScopeRoot(scopes));
      }
      if !("$." <= ref) {
        return Invalid;
      }
      var parts := SplitPath(ref[2..]);
      var current := ScopeRoot(scopes);
      for i := 0 to |parts|
        invariant WalkParts(scopes, current, parts[i..]) == WalkParts(scopes, ScopeRoot(scopes), parts)
      {
        var tokens := ReferenceTokens(parts[i]);
        if tokens.None? {
          return Invalid;
        }
        var start := current;
        for j := 0 to |tokens.value|
          invariant Walk(scopes, current, tokens.value[j..]) == Walk(scopes, start, tokens.value)
        {
          match Child(Deref(scopes, current), tokens.value[j])
          case None => return Missing;
          case Some(next) => current := next;
        }
      }
      found := Found(current);
    }
  }

  // ----- Serialisation -----

  /** The parts of a context that outlive it. */
  datatype ContextState = ContextState(runId: string, scopes: Scopes, invocationId: Option<string>, last: Value)

  /** A scope dict as its reader sees it: the alias read through. */
  function Inline(m: map<string, Value>, target: Value): Value {
    Dict(map k | k in m :: if m[k].Shared? then target else m[k])
  }

  /** `serialize_run_context`: a dict of the parts, in which an alias is the dict it stands for. */
  function Serialize(c: ContextState): map<string, Value> {
    var envelope := Dict(c.scopes.runEnvelope);
    var global := Inline(c.scopes.global, envelope);
    map[
      "run_id" := Str(Strip(c.runId)),
      "runEnvelope" := envelope,
      "global" := global,
      "local" := Inline(c.scopes.local, global),
      "result" := Dict(c.scopes.results),
      "invocation_id" := match c.invocationId
                         case None => Null
                         case Some(id) => if Strip(id) == [] then Null else Str(Strip(id)),
      "last" := c.last]
  }

  function EntriesAt(m: map<string, Value>, key: string): map<string, Value> {
    if key in m then DictOr(m[key]) else map[]
  }

  /** `str(value or "")`, with `pyStr` printing the values that are no strings. */
  function TextAt(m: map<string, Value>, key: string, pyStr: Value -> string): string {
    if key !in m || m[key].Null? then ""
    else if m[key].Str? then m[key].s
    else pyStr(m[key])
  }

  /** `deserialize_run_context`. */
  function Deserialize(source: map<string, Value>, pyStr: Value -> string): ContextState {
    var envelope := EntriesAt(source, "runEnvelope");
    var runId := if TextAt(source, "run_id", pyStr) != [] then TextAt(source, "run_id", pyStr)
                 else TextAt(envelope, "run_id", pyStr);
    var created := FreshScopes(Strip(runId), Dict(EntriesAt(envelope, "event")), Dict(EntriesAt(envelope, "constants")));
    var results := EntriesAt(source, "result");
    var id := Strip(TextAt(source, "invocation_id", pyStr));
    ContextState(
      Strip(Strip(runId)),
      Scopes(
        created.runEnvelope,
        created.global["constants" := Dict(EntriesAt(EntriesAt(source, "global"), "constants"))],
        created.local["constants" := Dict(EntriesAt(EntriesAt(source, "local"), "constants"))],
        if results != map[] then results else created.results),
      if id == [] then None else Some(id),
      if "last" in source && source["last"].Dict? then source["last"] else NO_ITEM)
  }

  /** Deserialising gives back the scopes and the last item that were serialised. */
  predicate IsRestored(c: ContextState, pyStr: Value -> string) {
    Deserialize(Serialize(c), pyStr).scopes == c.scopes && Deserialize(Serialize(c), pyStr).last == c.last
  }

  /** The shape create_run_context builds, with results that are not empty and a dict for the last
      item. */
  predicate Snapshotable(c: ContextState) {
    var s := c.scopes;
    && s.runEnvelope.Keys == {"run_id", "event", "constants"}
    && s.runEnvelope["run_id"].Str?
    && s.runEnvelope["run_id"].s ==
       (if Strip(c.runId) != [] then Strip(c.runId) else Strip(s.runEnvelope["run_id"].s))
    && s.runEnvelope["event"].Dict? && s.runEnvelope["constants"].Dict?
    && s.global.Keys == {"runEnvelope", "constants"} && s.global["runEnvelope"] == Shared(RunEnvelope)
    && s.global["constants"].Dict?
    && s.local.Keys == {"global", "constants"} && s.local["global"] == Shared(Global)
    && s.local["constants"].Dict?
    && s.results != map[] && c.last.Dict?
  }

  lemma {:induction false} PayloadFields(c: ContextState)
    ensures var payload := Serialize(c);
            && payload["run_id"] == Str(Strip(c.runId))
            && EntriesAt(payload, "runEnvelope") == c.scopes.runEnvelope
            && EntriesAt(payload, "global") == Inline(c.scopes.global, Dict(c.scopes.runEnvelope)).entries
            && EntriesAt(payload, "local")
               == Inline(c.scopes.local, Inline(c.scopes.global, Dict(c.scopes.runEnvelope))).entries
            && EntriesAt(payload, "result") == c.scopes.results && payload["last"] == c.last
  {
    assert "run_id"[3] == '_' && "runEnvelope"[3] == 'E' && "global"[0] == 'g' && "local"[0] == 'l' && "last"[1] == 'a'
        && "result"[1] == 'e' && "invocation_id"[0] == 'i' && "run_id"[0] == 'r' && "runEnvelope"[0] == 'r'
        && "run_id"[1] == 'u' && "runEnvelope"[1] == 'u';
  }

  /** The run id a restored context gets. */
  function RestoredId(c: ContextState, pyStr: Value -> string): string {
    Strip(if Strip(c.runId) != [] then Strip(c.runId) else TextAt(c.scopes.runEnvelope, "run_id", pyStr))
  }

  lemma {:induction false} Restored(c: ContextState, pyStr: Value -> string)
    ensures var s, back := c.scopes, Deserialize(Serialize(c), pyStr).scopes;
            var created := FreshScopes(RestoredId(c, pyStr), Dict(EntriesAt(s.runEnvelope, "event")),
                                       Dict(EntriesAt(s.runEnvelope, "constants")));
            var global := Inline(s.global, Dict(s.runEnvelope));
            && back.runEnvelope == created.runEnvelope
            && back.global == created.global["constants" := Dict(EntriesAt(global.entries, "constants"))]
            && back.local == created.local["constants" := Dict(EntriesAt(Inline(s.local, global).entries, "constants"))]
            && back.results == (if s.results != map[] then s.results else created.results)
            && Deserialize(Serialize(c), pyStr).last == if c.last.Dict? then c.last else NO_ITEM
  {
    PayloadFields(c);
  }

  lemma {:induction false} InlineEntries(m: map<string, Value>, target: Value)
    ensures "constants" in m && m["constants"].Dict? ==>
              EntriesAt(Inline(m, target).entries, "constants") == m["constants"].entries
  {
  }

  lemma {:induction false} FreshShape(runId: string, event: Value, vars: Value)
    ensures var s := FreshScopes(runId, event, vars);
            && s.runEnvelope.Keys == {"run_id", "event", "constants"}
            && s.runEnvelope["run_id"] == Str(Strip(runId))
            && s.runEnvelope["event"] == Dict(DictOr(event)) && s.runEnvelope["constants"] == Dict(DictOr(vars))
            && s.global.Keys == {"runEnvelope", "constants"} && s.global["runEnvelope"] == Shared(RunEnvelope)
            && s.local.Keys == {"global", "constants"} && s.local["global"] == Shared(Global)
            && s.global["constants"] == s.local["constants"] == Dict(map[])
            && s.results != map[]
  {
    assert "run_id"[0] == 'r' && "event"[0] == 'e' && "constants"[0] == 'c' && "runEnvelope"[0] == 'r' && "global"[0] == 'g';
    assert "constants" in FreshScopes(runId, event, vars).results;
  }

  lemma {:induction false} EnvelopeHasShape(c: ContextState, pyStr: Value -> string)
    requires IsRestored(c, pyStr)
    ensures var m := c.scopes.runEnvelope;
            && m.Keys == {"run_id", "event", "constants"} && m["run_id"].Str?
            && m["run_id"].s == (if Strip(c.runId) != [] then Strip(c.runId) else Strip(m["run_id"].s))
            && m["event"].Dict? && m["constants"].Dict?
  {
    var m := c.scopes.runEnvelope;
    Restored(c, pyStr);
    FreshShape(RestoredId(c, pyStr), Dict(EntriesAt(m, "event")), Dict(EntriesAt(m, "constants")));
    StripTrims(c.runId);
    StripTrims(RestoredId(c, pyStr));
    StripTrims(if Strip(c.runId) != [] then Strip(c.runId) else TextAt(c.scopes.runEnvelope, "run_id", pyStr));
  }

  lemma {:induction false} RestoredHasShape(c: ContextState, pyStr: Value -> string)
    requires IsRestored(c, pyStr)
    ensures Snapshotable(c)
  {
    var s := c.scopes;
    EnvelopeHasShape(c, pyStr);
    Restored(c, pyStr);
    FreshShape(RestoredId(c, pyStr), Dict(EntriesAt(s.runEnvelope, "event")), Dict(EntriesAt(s.runEnvelope, "constants")));
    assert "constants"[0] == 'c' && "runEnvelope"[0] == 'r' && "global"[0] == 'g';
  }

  lemma {:induction false} ScopeWithConstants(m: map<string, Value>, key: string, alias: Value, target: Value)
    requires key != "constants" && m.Keys == {key, "constants"} && m[key] == alias && m["constants"].Dict?
    ensures map[key := alias, "constants" := Dict(map[])]["constants" := Dict(EntriesAt(Inline(m, target).entries, "constants"))] == m
  {
    InlineEntries(m, target);
  }

  lemma {:induction false} EnvelopeIsRestored(c: ContextState, pyStr: Value -> string)
    requires Snapshotable(c)
    ensures var m := c.scopes.runEnvelope;
            FreshScopes(RestoredId(c, pyStr), Dict(EntriesAt(m, "event")), Dict(EntriesAt(m, "constants"))).runEnvelope == m
  {
    var m := c.scopes.runEnvelope;
    FreshShape(RestoredId(c, pyStr), Dict(EntriesAt(m, "event")), Dict(EntriesAt(m, "constants")));
    StripTrims(c.runId);
    StripTrims(m["run_id"].s);
    assert "run_id" in m && "event" in m && "constants" in m;
  }

  lemma {:induction false} ShapeIsRestored(c: ContextState, pyStr: Value -> string)
    requires Snapshotable(c)
    ensures IsRestored(c, pyStr)
  {
    var s := c.scopes;
    Restored(c, pyStr);
    EnvelopeIsRestored(c, pyStr);
    assert "constants"[0] == 'c' && "runEnvelope"[0] == 'r' && "global"[0] == 'g';
    ScopeWithConstants(s.global, "runEnvelope", Shared(RunEnvelope), Dict(s.runEnvelope));
    ScopeWithConstants(s.local, "global", Shared(Global), Inline(s.global, Dict(s.runEnvelope)));
  }

  /** Deserialising a serialised context gives back the same scopes, aliases included, and the same
      last item exactly when the context still has the shape it was created with. */
  lemma {:induction false} SnapshotRoundTrip(c: ContextState, pyStr: Value -> string)
    ensures IsRestored(c, pyStr) <==> Snapshotable(c)
  {
    if Snapshotable(c) {
      ShapeIsRestored(c, pyStr);
    }
    if IsRestored(c, pyStr) {
      RestoredHasShape(c, pyStr);
    }
  }

  // ----- Contexts reached at run time -----

  /** What executors do to a context: constant writes and removals, assert artifacts, and fresh
      locals when an item is bound or reset. */
  datatype ContextStep =
    | WriteConstant(context: ConstantContext, name: string, value: Value)
    | RemoveConstant(context: ConstantContext, name: string)
    | Artifact(artifact: Value)
    | BindLocals(locals: map<string, Value>)

  predicate PlainStep(step: ContextStep) {
    match step
    case WriteConstant(_, n, v) => PlainName(n) && NoShared(v)
    case RemoveConstant(_, n) => PlainName(n)
    case Artifact(a) => NoShared(a)
    case BindLocals(m) => forall k | k in m :: NoShared(m[k])
  }

  function Apply(s: Scopes, kind: ItemKind, step: ContextStep): Scopes {
    match step
    case WriteConstant(c, n, v) => WritePath(s, kind, ConstantPath(c, n), v).scopes
    case RemoveConstant(c, n) => RemovePath(s, kind, ConstantPath(c, n)).scopes
    case Artifact(a) => WithArtifact(s, a)
    case BindLocals(m) => WithLocals(s, m)
  }

  function ApplyAll(s: Scopes, steps: seq<(ItemKind, ContextStep)>): Scopes
    decreases |steps|
  {
    if steps == [] then s else ApplyAll(Apply(s, steps[0].0, steps[0].1), steps[1..])
  }

  /** What every reached context satisfies. */
  predicate Healthy(c: ContextState) {
    WellFormed(c.scopes) && HasConstants(c.scopes) && Snapshotable(c)
  }

  lemma {:induction false} ArtifactClean(s: Scopes, artifact: Value)
    requires WellFormed(s) && NoShared(artifact)
    ensures PlainEntries(s.results, WithArtifact(s, artifact).results)
  {
    assert s.Get(Results) == s.results;
    var artifacts := if "artifacts" in s.results then DictOr(s.results["artifacts"]) else map[];
    assert "artifacts" in s.results ==> NoShared(s.results["artifacts"]);
    assert forall k | k in artifacts :: NoShared(artifacts[k]);
    var asserts := if "asserts" in artifacts && artifacts["asserts"].List? then artifacts["asserts"].items else [];
    assert NoShared(List(asserts + [artifact]));
    assert NoShared(Dict(artifacts["asserts" := List(asserts + [artifact])]));
  }

  lemma {:induction false} StepKeepsHealth(c: ContextState, kind: ItemKind, step: ContextStep)
    requires Healthy(c) && PlainStep(step)
    ensures Healthy(c.(scopes := Apply(c.scopes, kind, step)))
  {
    var s := c.scopes;
    assert "constants"[0] == 'c' && "runEnvelope"[0] == 'r' && "global"[0] == 'g' && "artifacts"[0] == 'a'
        && "event"[0] == 'e' && "run_id"[0] == 'r';
    match step
    case WriteConstant(x, n, v) =>
      ConstantWrite(s, kind, x, n, v);
      WriteKeepsForm(s, kind, ConstantPath(x, n), v);
      ConstantsKeepShape(c, x, Constants(s, x)[n := v]);
    case RemoveConstant(x, n) =>
      ConstantRemove(s, kind, x, n);
      RemoveKeepsForm(s, kind, ConstantPath(x, n));
      ConstantsKeepShape(c, x, Constants(s, x) - {n});
    case Artifact(a) =>
      var s' := WithArtifact(s, a);
      SetGets(s, Results, s'.results);
      ArtifactClean(s, a);
      SetKeepsForm(s, Results, s'.results);
    case BindLocals(m) =>
      var s' := WithLocals(s, m);
      SetGets(s, Local, s'.local);
      SetKeepsForm(s, Local, s'.local);
      ConstantsKeepShape(c, Local, m);
  }

  lemma {:induction false} ConstantsKeepShape(c: ContextState, x: ConstantContext, m: map<string, Value>)
    requires HasConstants(c.scopes) && Snapshotable(c)
    ensures HasConstants(WithConstants(c.scopes, x, m)) && Snapshotable(c.(scopes := WithConstants(c.scopes, x, m)))
  {
    SetGets(c.scopes, x, c.scopes.Get(x)["constants" := Dict(m)]);
    assert "constants"[0] == 'c' && "runEnvelope"[0] == 'r' && "global"[0] == 'g' && "run_id"[0] == 'r' && "event"[0] == 'e';
    assert c.scopes.Get(RunEnvelope) == c.scopes.runEnvelope && c.scopes.Get(Global) == c.scopes.global
        && c.scopes.Get(Local) == c.scopes.local && c.scopes.Get(Results) == c.scopes.results;
  }

  /** Every context reached from create_run_context survives serialisation: the restored scopes and
      last item are the same, so every reference resolves alike. */
  lemma {:induction false} ReachedContextsSurvive(
    c: ContextState, steps: seq<(ItemKind, ContextStep)>, pyStr: Value -> string)
    requires Healthy(c) && forall i | 0 <= i < |steps| :: PlainStep(steps[i].1)
    ensures var reached := c.(scopes := ApplyAll(c.scopes, steps));
            Healthy(reached) && IsRestored(reached, pyStr)
    decreases |steps|
  {
    if steps == [] {
      assert c.(scopes := c.scopes) == c;
      SnapshotRoundTrip(c, pyStr);
    } else {
      StepKeepsHealth(c, steps[0].0, steps[0].1);
      ReachedContextsSurvive(c.(scopes := Apply(c.scopes, steps[0].0, steps[0].1)), steps[1..], pyStr);
    }
  }

  lemma {:induction false} CreatedIsHealthy(runId: string, event: Value, vars: Value, id: Option<string>)
    requires NoShared(Dict(DictOr(event))) && NoShared(Dict(DictOr(vars)))
    ensures Healthy(ContextState(Strip(runId), FreshScopes(runId, event, vars), id, NO_ITEM))
  {
    FreshShape(runId, event, vars);
    StripTrims(runId);
    FreshIsFormed(runId, event, vars);
  }

  lemma {:induction false} FreshIsFormed(runId: string, event: Value, vars: Value)
    requires NoShared(Dict(DictOr(event))) && NoShared(Dict(DictOr(vars)))
    ensures WellFormed(FreshScopes(runId, event, vars)) && HasConstants(FreshScopes(runId, event, vars))
  {
    var s := FreshScopes(runId, event, vars);
    FreshShape(runId, event, vars);
    assert s.runEnvelope["event"] == Dict(DictOr(event)) && s.runEnvelope["constants"] == Dict(DictOr(vars));
    forall c, k | k in s.Get(c)
      ensures s.Get(c)[k].Shared? ==> (c == Local && k == "global" && s.Get(c)[k].scope == Global)
                                      || (c == Global && k == "runEnvelope" && s.Get(c)[k].scope == RunEnvelope)
      ensures !s.Get(c)[k].Shared? ==> NoShared(s.Get(c)[k])
    {
      FreshEntry(runId, event, vars, c, k);
    }
  }

  lemma {:induction false} FreshEntry(runId: string, event: Value, vars: Value, c: ConstantContext, k: string)
    requires NoShared(Dict(DictOr(event))) && NoShared(Dict(DictOr(vars))) && k in FreshScopes(runId, event, vars).Get(c)
    ensures var v := FreshScopes(runId, event, vars).Get(c)[k];
            && (v.Shared? ==> (c == Local && k == "global" && v.scope == Global)
                              || (c == Global && k == "runEnvelope" && v.scope == RunEnvelope))
            && (!v.Shared? ==> NoShared(v))
  {
    assert NoShared(Dict(map[]));
  }
}
