/** The target policy of commands (command_policy_validator.py): a check on the paths a command
    names, made before it runs, beside the planner's rules and the guard of the run context. */
module CommandPolicy {
  import opened Prelude
  import opened PyText
  import opened PyValues
  import opened PathTokens
  import opened ContextStore
  import opened ContextGuards
  import opened ConstantGraph

  /** The attributes the policy looks for on a configuration; absent ones are empty. */
  datatype Attributes = Attributes(
    target: string, context: string, name: string, resultTarget: string, resultName: string)

  function AttributesOf(cfg: Cfg): Attributes {
    match cfg
    case InitConstant(_, name, context, _, target) => Attributes(target, ContextName(context), name, "", "")
    case _ => Attributes("", "", "", "", if ResultOf(cfg).Some? then ResultOf(cfg).value.name else "")
  }

  predicate Blank(s: string) {
    Strip(s) == ""
  }

  function TargetPaths(a: Attributes): seq<string> {
    (if Blank(a.target) then [] else [a.target])
    + (if Blank(a.context) || Blank(a.name) then [] else ["$." + a.context + ".constants." + a.name])
    + (if Blank(a.resultTarget) then [] else [a.resultTarget])
    + (if a.resultName == "" then [] else ["$.result.constants." + a.resultName])
  }

  /** `_collect_target_paths`. */
  method CollectTargetPaths(a: Attributes) returns (targets: seq<string>)
    ensures targets == TargetPaths(a)
  {
    targets := [];
    if !Blank(a.target) {
      targets := targets + [a.target];
    }
    if !Blank(a.context) && !Blank(a.name) {
      targets := targets + ["$." + a.context + ".constants." + a.name];
    }
    if !Blank(a.resultTarget) {
      targets := targets + [a.resultTarget];
    }
    if a.resultName != "" {
      targets := targets + ["$.result.constants." + a.resultName];
    }
  }

  /** The policy lets a path pass: it has a root, and one that this kind of item may write. */
  predicate Passes(kind: ItemKind, path: string) {
    && WriterTokens(path).Some? && RootOf(WriterTokens(path).value).Some?
    && !Guarded(kind, RootOf(WriterTokens(path).value).value)
  }

  predicate AllPass(kind: ItemKind, paths: seq<string>) {
    forall i | 0 <= i < |paths| :: Passes(kind, paths[i])
  }

  /** The policy lets every path a command names pass. */
  predicate PolicyPasses(kind: ItemKind, cfg: Cfg) {
    AllPass(kind, TargetPaths(AttributesOf(cfg)))
  }

  /** `_validate_target_roots`, for the scope of a test or another one. */
  method ValidateTargetRoots(targets: seq<string>, kind: ItemKind) returns (accepted: bool)
    ensures accepted <==> AllPass(kind, targets)
  {
    for i := 0 to |targets|
      invariant forall j | 0 <= j < i :: Passes(kind, targets[j])
    {
      var tokens := WriterTokens(targets[i]);
      if tokens.None? || RootOf(tokens.value).None? {
        return false;
      }
      if Guarded(kind, RootOf(tokens.value).value) {
        return false;
      }
    }
    return true;
  }

  /** `validate_operation_policy`, the part about targets. */
  method ValidateOperationPolicy(cfg: Cfg, kind: ItemKind) returns (accepted: bool)
    ensures accepted <==> PolicyPasses(kind, cfg)
  {
    var targets := CollectTargetPaths(AttributesOf(cfg));
    accepted := ValidateTargetRoots(targets, kind);
  }

  // ----- What the policy amounts to -----

  /** The policy anticipates the run context: a path it refuses can never be written by such an
      item, and one it lets pass is written as if there were no guard. */
  lemma {:induction false} PolicyAnticipatesGuard(kind: ItemKind, path: string, s: Scopes, value: Value)
    ensures !Passes(kind, path) ==> WritePath(s, kind, path, value) == Written(s, false)
    ensures Passes(kind, path) ==> WritePath(s, kind, path, value) == WritePath(s, HookItem, path, value)
  {
  }

  lemma {:induction false} ConstantPathPasses(kind: ItemKind, c: ConstantContext, name: string)
    requires PlainName(name)
    ensures Passes(kind, ConstantPath(c, name)) <==> !Guarded(kind, ScopeTarget(c))
  {
    var s := Scopes(map["constants" := Dict(map[])], map["constants" := Dict(map[])],
                    map["constants" := Dict(map[])], map["constants" := Dict(map[])]);
    assert HasConstants(s);
    ConstantWrite(s, kind, c, name, Null);
    ConstantWrite(s, HookItem, c, name, Null);
    PolicyAnticipatesGuard(kind, ConstantPath(c, name), s, Null);
    PolicyAnticipatesGuard(HookItem, ConstantPath(c, name), s, Null);
  }

  lemma {:induction false} ResultPathText(name: string)
    ensures "$.result.constants." + name == ConstantPath(Results, name)
  {
    assert "$." + "result" + ".constants." == "$.result.constants.";
  }

  /** A plain name is neither empty nor blank, and no scope's name is. */
  lemma {:induction false} NamesAreNotBlank(c: ConstantContext, name: string)
    requires PlainName(name)
    ensures !Blank(name) && name != "" && !Blank(ContextName(c)) && Blank("")
  {
    TrimmedStrips(name);
    ContextNamePlain(c);
    TrimmedStrips(ContextName(c));
  }

  /** An initConstant passes exactly when its scope may be written and its target, unless blank,
      has a root that may be. */
  lemma {:induction false} InitPassesExactly(kind: ItemKind, cfg: Cfg)
    requires cfg.InitConstant? && PlainName(cfg.name)
    ensures PolicyPasses(kind, cfg) <==>
              !Guarded(kind, ScopeTarget(cfg.context)) && (Blank(cfg.target) || Passes(kind, cfg.target))
  {
    var own: seq<string> := if Blank(cfg.target) then [] else [cfg.target];
    InitPaths(cfg);
    LastPasses(kind, own, ConstantPath(cfg.context, cfg.name));
    ConstantPathPasses(kind, cfg.context, cfg.name);
    assert AllPass(kind, own) <==> Blank(cfg.target) || Passes(kind, cfg.target) by {
      LastPasses(kind, [], cfg.target);
      assert [] + [cfg.target] == [cfg.target];
    }
  }

  lemma {:induction false} LastPasses(kind: ItemKind, paths: seq<string>, last: string)
    ensures AllPass(kind, paths + [last]) <==> AllPass(kind, paths) && Passes(kind, last)
  {
    assert forall i | 0 <= i < |paths| :: (paths + [last])[i] == paths[i];
    assert (paths + [last])[|paths|] == last;
  }

  /** An initConstant names its target, unless blank, and the path of the constant it declares. */
  lemma {:induction false} InitPaths(cfg: Cfg)
    requires cfg.InitConstant? && PlainName(cfg.name)
    ensures TargetPaths(AttributesOf(cfg)) ==
            (if Blank(cfg.target) then [] else [cfg.target]) + [ConstantPath(cfg.context, cfg.name)]
  {
    NamesAreNotBlank(cfg.context, cfg.name);
  }

  /** Any other command passes: it names no path, or that of its result. */
  lemma {:induction false} OthersPass(kind: ItemKind, cfg: Cfg)
    requires !cfg.InitConstant? && (ResultOf(cfg).Some? ==> PlainName(ResultOf(cfg).value.name))
    ensures PolicyPasses(kind, cfg)
  {
    assert Blank("");
    if ResultOf(cfg).Some? {
      ResultPathText(ResultOf(cfg).value.name);
      ConstantPathPasses(kind, Results, ResultOf(cfg).value.name);
    }
  }
}
