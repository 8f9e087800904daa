/** Commands at run time (command_executor_composite.py and the command executors it calls): what
    each does to the run context, and sections run one command after another until one raises. */
module CommandRuntime {
  import opened Prelude
  import opened PyValues
  import opened PathTokens
  import opened ContextStore
  import opened ContextFrames
  import opened ContextTheorems
  import opened ContextGuards
  import opened RunContexts
  import opened CommandPolicy
  import opened ConstantGraph

  /** The persisted definition of an id, as far as `resolve_definition_path` reads it. */
  datatype Row = Row(context: ConstantContext, name: string)

  type DefinitionTable = map<string, Row>

  function PathOf(row: Row): string {
    ConstantPath(row.context, row.name)
  }

  /** What the outside world makes of one command: the value it produces, whether it raises, whether
      it returns early on empty rows, and whether an assert resolves its operands and evaluates
      them. */
  datatype Outcome = Outcome(value: Value, raises: bool, emptyRows: bool, evaluates: bool)

  /** The result constant a command is about to write, if it gets that far. */
  function WrittenResult(cfg: Cfg, o: Outcome): Option<ResultConstant> {
    if o.emptyRows && (cfg.SaveTable? || cfg.ExportDataset?) then None else ResultOf(cfg)
  }

  /** Every id a command refers to has a definition. */
  predicate RefsKnown(table: DefinitionTable, cfg: Cfg): (known: bool)
    ensures known && cfg.DeleteConstant? ==> cfg.target in table
  {
    assert cfg.DeleteConstant? ==> Refs(cfg)[0] == cfg.target;
    forall i | 0 <= i < |Refs(cfg)| :: Refs(cfg)[i] in table
  }

  /** An assert that evaluates leaves an artifact, passed or failed; one that raises before does
      not. */
  predicate LeavesArtifact(o: Outcome) {
    !o.raises || o.evaluates
  }

  /** One command's executor: it looks its references up first, so an unknown id raises before
      anything is written. */
  function Exec(s: Scopes, kind: ItemKind, table: DefinitionTable, cfg: Cfg, o: Outcome): Written {
    if !RefsKnown(table, cfg) then Written(s, false)
    else if cfg.Assert? then Written(if LeavesArtifact(o) then WithArtifact(s, o.value) else s, !o.raises)
    else if o.raises then Written(s, false)
    else
      match cfg
      case InitConstant(_, name, context, _, _) => WritePath(s, kind, ConstantPath(context, name), o.value)
      case DeleteConstant(target) => RemovePath(s, kind, PathOf(table[target]))
      case _ =>
        match WrittenResult(cfg, o)
        case None => Written(s, true)
        case Some(r) =>
          if r.definitionId !in table then Written(s, false)
          else WritePath(s, kind, PathOf(table[r.definitionId]), o.value)
  }

  /** The context before command k, and whether command k is reached. */
  function After(
    s: Scopes, kind: ItemKind, table: DefinitionTable, commands: seq<Command>, outs: seq<Outcome>, k: nat): Written
    requires k <= |commands| == |outs|
  {
    if k == 0 then Written(s, true)
    else
      var before := After(s, kind, table, commands, outs, k - 1);
      if !before.completed then before
      else Exec(before.scopes, kind, table, commands[k - 1].cfg, outs[k - 1])
  }

  method ExecuteOperation(context: RunContext, table: DefinitionTable, cfg: Cfg, o: Outcome) returns (completed: bool)
    modifies context
    ensures context.currentItemKind == old(context.currentItemKind)
    ensures Written(context.View(), completed)
         == Exec(old(context.View()), old(context.currentItemKind), table, cfg, o)
  {
    if !RefsKnown(table, cfg) {
      return false;
    }
    if cfg.Assert? {
      if LeavesArtifact(o) {
        context.AppendAssertArtifact(o.value);
      }
      return !o.raises;
    }
    if o.raises {
      return false;
    }
    if cfg.InitConstant? {
      completed := context.WriteContextPath(ConstantPath(cfg.context, cfg.name), o.value);
    } else if cfg.DeleteConstant? {
      completed := context.RemoveContextPath(PathOf(table[cfg.target]));
    } else {
      var result := WrittenResult(cfg, o);
      if result.None? {
        completed := true;
      } else if result.value.definitionId !in table {
        completed := false;
      } else {
        completed := context.WriteContextPath(PathOf(table[result.value.definitionId]), o.value);
      }
    }
  }

  /** The target policy is one more way to raise: a refused command's outcome raises. */
  function Screen(kind: ItemKind, cfg: Cfg, o: Outcome): Outcome {
    o.(raises := o.raises || !PolicyPasses(kind, cfg))
  }

  function Screened(kind: ItemKind, commands: seq<Command>, outs: seq<Outcome>): (screened: seq<Outcome>)
    requires |commands| == |outs|
    ensures |screened| == |outs|
  {
    seq(|outs|, i requires 0 <= i < |outs| => Screen(kind, commands[i].cfg, outs[i]))
  }

  /** A refused command leaves the context alone, as if it had raised by itself. */
  lemma {:induction false} RefusedRaises(s: Scopes, kind: ItemKind, table: DefinitionTable, cfg: Cfg, o: Outcome)
    requires !PolicyPasses(kind, cfg)
    ensures Exec(s, kind, table, cfg, o.(raises := true)) == Written(s, false)
  {
    assert Blank("");
    assert cfg.Assert? ==> TargetPaths(AttributesOf(cfg)) == [];
  }

  /** One turn of the loop: the policy, then the command. */
  method ExecuteChecked(context: RunContext, table: DefinitionTable, cfg: Cfg, o: Outcome) returns (completed: bool)
    modifies context
    ensures context.currentItemKind == old(context.currentItemKind)
    ensures Written(context.View(), completed)
         == Exec(old(context.View()), old(context.currentItemKind), table, cfg,
                 Screen(old(context.currentItemKind), cfg, o))
  {
    completed := ValidateOperationPolicy(cfg, context.currentItemKind);
    if completed {
      completed := ExecuteOperation(context, table, cfg, o);
    } else {
      RefusedRaises(context.View(), context.currentItemKind, table, cfg, o);
    }
  }

  predicate Completes(
    s: Scopes, kind: ItemKind, table: DefinitionTable, commands: seq<Command>, outs: seq<Outcome>, k: nat)
    requires k <= |commands| == |outs|
  {
    After(s, kind, table, commands, outs, k).completed
  }

  /** The `command_finished` events and status rows of the commands started so far, in order: each
      says whether its command completed. */
  predicate Started(
    s: Scopes, kind: ItemKind, table: DefinitionTable, commands: seq<Command>, outs: seq<Outcome>, finished: seq<bool>)
    requires |commands| == |outs|
  {
    |finished| <= |commands| && forall k | 0 <= k < |finished| :: StartedAt(s, kind, table, commands, outs, k, finished[k])
  }

  predicate StartedAt(
    s: Scopes, kind: ItemKind, table: DefinitionTable, commands: seq<Command>, outs: seq<Outcome>, k: nat, ok: bool)
    requires k < |commands| == |outs|
  {
    Completes(s, kind, table, commands, outs, k) && ok == Completes(s, kind, table, commands, outs, k + 1)
  }

  lemma {:induction false} StartedGrows(
    s: Scopes, kind: ItemKind, table: DefinitionTable, commands: seq<Command>, outs: seq<Outcome>, finished: seq<bool>,
    ok: bool)
    requires |finished| < |commands| == |outs| && Started(s, kind, table, commands, outs, finished)
    requires StartedAt(s, kind, table, commands, outs, |finished|, ok)
    ensures Started(s, kind, table, commands, outs, finished + [ok])
  {
    forall k | 0 <= k <= |finished| ensures StartedAt(s, kind, table, commands, outs, k, (finished + [ok])[k]) {
      assert k < |finished| ==> (finished + [ok])[k] == finished[k];
    }
  }

  /** One command further: what it leaves, and one more status row. */
  lemma {:induction false} OneCommandMore(
    s: Scopes, kind: ItemKind, table: DefinitionTable, commands: seq<Command>, outs: seq<Outcome>, finished: seq<bool>,
    before: Scopes, w: Written)
    requires |finished| < |commands| == |outs| && Started(s, kind, table, commands, outs, finished)
    requires After(s, kind, table, commands, outs, |finished|) == Written(before, true)
    requires w == Exec(before, kind, table, commands[|finished|].cfg, outs[|finished|])
    ensures After(s, kind, table, commands, outs, |finished| + 1) == w
    ensures Started(s, kind, table, commands, outs, finished + [w.completed])
  {
    StartedGrows(s, kind, table, commands, outs, finished, w.completed);
  }

  /** One turn, told from the context the loop started in. */
  method ExecuteNext(
    context: RunContext, table: DefinitionTable, commands: seq<Command>, outs: seq<Outcome>, finished: seq<bool>,
    ghost s: Scopes, ghost screened: seq<Outcome>)
    returns (completed: bool)
    requires |finished| < |commands| == |outs| && screened == Screened(context.currentItemKind, commands, outs)
    requires Started(s, context.currentItemKind, table, commands, screened, finished)
    requires After(s, context.currentItemKind, table, commands, screened, |finished|) == Written(context.View(), true)
    modifies context
    ensures context.currentItemKind == old(context.currentItemKind)
    ensures After(s, context.currentItemKind, table, commands, screened, |finished| + 1) == Written(context.View(), completed)
    ensures Started(s, context.currentItemKind, table, commands, screened, finished + [completed])
  {
    ghost var before, i := context.View(), |finished|;
    assert screened[i] == Screen(context.currentItemKind, commands[i].cfg, outs[i]);
    completed := ExecuteChecked(context, table, commands[|finished|].cfg, outs[|finished|]);
    OneCommandMore(s, context.currentItemKind, table, commands, screened, finished, before, Written(context.View(), completed));
  }

  /** `execute_operations`: in order, each after the target policy, stopping at the first command
      that raises. */
  method ExecuteOperations(context: RunContext, table: DefinitionTable, commands: seq<Command>, outs: seq<Outcome>)
    returns (completed: bool, finished: seq<bool>)
    requires |commands| == |outs|
    modifies context
    ensures context.currentItemKind == old(context.currentItemKind)
    ensures Written(context.View(), completed)
         == After(old(context.View()), old(context.currentItemKind), table, commands,
                  Screened(old(context.currentItemKind), commands, outs), |commands|)
    ensures Started(old(context.View()), old(context.currentItemKind), table, commands,
                    Screened(old(context.currentItemKind), commands, outs), finished)
    ensures if completed then |finished| == |commands| else finished != [] && !finished[|finished| - 1]
  {
    ghost var s, kind := context.View(), context.currentItemKind;
    ghost var screened := Screened(kind, commands, outs);
    finished := [];
    for i := 0 to |commands|
      invariant context.currentItemKind == kind && |finished| == i
      invariant Written(context.View(), true) == After(s, kind, table, commands, screened, i)
      invariant Started(s, kind, table, commands, screened, finished)
    {
      completed := ExecuteNext(context, table, commands, outs, finished, s, screened);
      finished := finished + [completed];
      if !completed {
        StoppedStays(s, kind, table, commands, screened, i + 1, |commands|);
        return;
      }
    }
    completed := true;
  }

  lemma {:induction false} StoppedStays(
    s: Scopes, kind: ItemKind, table: DefinitionTable, commands: seq<Command>, outs: seq<Outcome>, i: nat, k: nat)
    requires i <= k <= |commands| == |outs|
    requires !After(s, kind, table, commands, outs, i).completed
    ensures After(s, kind, table, commands, outs, k) == After(s, kind, table, commands, outs, i)
    decreases k
  {
    if i < k {
      StoppedStays(s, kind, table, commands, outs, i, k - 1);
    }
  }

  // ----- Bound constants -----

  predicate Bound(s: Scopes, row: Row) {
    HasConstants(s) && row.name in Constants(s, row.context)
  }

  predicate PlainRow(row: Row) {
    PlainName(row.name)
  }

  /** A bound constant is what the reader finds at its path; an unbound one it misses. */
  lemma {:induction false} BoundIsFound(s: Scopes, row: Row)
    requires HasConstants(s) && PlainRow(row)
    ensures Bound(s, row) <==> ResolveRef(s, PathOf(row)).Found?
    ensures !Bound(s, row) <==> ResolveRef(s, PathOf(row)) == Missing
  {
    ConstantLookup(s, row.context, row.name);
  }

  /** The row a command writes to when it completes. */
  function WrittenRow(table: DefinitionTable, cfg: Cfg, o: Outcome): Option<Row> {
    match cfg
    case InitConstant(_, name, context, _, _) => Some(Row(context, name))
    case _ =>
      match WrittenResult(cfg, o)
      case None => None
      case Some(r) => if r.definitionId in table then Some(table[r.definitionId]) else None
  }

  function RemovedRow(table: DefinitionTable, cfg: Cfg): Option<Row> {
    if cfg.DeleteConstant? && cfg.target in table then Some(table[cfg.target]) else None
  }

  lemma {:induction false} WithConstantsBound(s: Scopes, c: ConstantContext, m: map<string, Value>, row: Row)
    requires HasConstants(s)
    ensures HasConstants(WithConstants(s, c, m))
    ensures Bound(WithConstants(s, c, m), row) <==> if row.context == c then row.name in m else Bound(s, row)
  {
    SetGets(s, c, s.Get(c)["constants" := Dict(m)]);
  }

  lemma {:induction false} ArtifactBound(s: Scopes, artifact: Value, row: Row)
    requires HasConstants(s)
    ensures HasConstants(WithArtifact(s, artifact)) && (Bound(WithArtifact(s, artifact), row) <==> Bound(s, row))
  {
    assert "constants"[0] == 'c' && "artifacts"[0] == 'a';
    var s' := WithArtifact(s, artifact);
    SetGets(s, Results, s'.results);
    assert s.Set(Results, s'.results) == s' && s.Get(Results) == s.results;
  }

  predicate PlainTable(table: DefinitionTable) {
    forall id | id in table :: PlainRow(table[id])
  }

  predicate PlainCfg(cfg: Cfg) {
    cfg.InitConstant? ==> PlainName(cfg.name)
  }

  lemma {:induction false} WriteEffect(s: Scopes, kind: ItemKind, target: Row, value: Value, row: Row)
    requires HasConstants(s) && PlainRow(target)
    ensures var w := WritePath(s, kind, PathOf(target), value);
            && HasConstants(w.scopes)
            && (Bound(w.scopes, row) <==> Bound(s, row) || (w.completed && row == target))
  {
    ConstantWrite(s, kind, target.context, target.name, value);
    WithConstantsBound(s, target.context, Constants(s, target.context)[target.name := value], row);
  }

  lemma {:induction false} RemoveEffect(s: Scopes, kind: ItemKind, target: Row, row: Row)
    requires HasConstants(s) && PlainRow(target)
    ensures var w := RemovePath(s, kind, PathOf(target));
            && HasConstants(w.scopes)
            && (Bound(w.scopes, row) <==> Bound(s, row) && !(w.completed && row == target))
  {
    ConstantRemove(s, kind, target.context, target.name);
    WithConstantsBound(s, target.context, Constants(s, target.context) - {target.name}, row);
  }

  /** What a command may do to whether a row is bound. */
  predicate Effect(s: Scopes, w: Written, row: Row, written: Option<Row>, removed: Option<Row>) {
    && HasConstants(s) && HasConstants(w.scopes)
    && (Bound(s, row) && removed != Some(row) ==> Bound(w.scopes, row))
    && (!Bound(s, row) && written != Some(row) ==> !Bound(w.scopes, row))
    && (w.completed && written == Some(row) ==> Bound(w.scopes, row))
  }

  lemma {:induction false} InitEffect(s: Scopes, kind: ItemKind, table: DefinitionTable, cfg: Cfg, o: Outcome, row: Row)
    requires HasConstants(s) && cfg.InitConstant? && PlainCfg(cfg)
    ensures Effect(s, Exec(s, kind, table, cfg, o), row, WrittenRow(table, cfg, o), RemovedRow(table, cfg))
  {
    WriteEffect(s, kind, Row(cfg.context, cfg.name), o.value, row);
  }

  lemma {:induction false} DeleteEffect(
    s: Scopes, kind: ItemKind, table: DefinitionTable, cfg: Cfg, o: Outcome, row: Row)
    requires HasConstants(s) && PlainTable(table) && cfg.DeleteConstant?
    ensures Effect(s, Exec(s, kind, table, cfg, o), row, WrittenRow(table, cfg, o), RemovedRow(table, cfg))
  {
    if cfg.target in table {
      RemoveEffect(s, kind, table[cfg.target], row);
    }
  }

  lemma {:induction false} ResultEffect(
    s: Scopes, kind: ItemKind, table: DefinitionTable, cfg: Cfg, o: Outcome, row: Row)
    requires HasConstants(s) && PlainTable(table) && !cfg.InitConstant? && !cfg.DeleteConstant?
    ensures Effect(s, Exec(s, kind, table, cfg, o), row, WrittenRow(table, cfg, o), RemovedRow(table, cfg))
  {
    ArtifactBound(s, o.value, row);
    var r := WrittenResult(cfg, o);
    if r.Some? && r.value.definitionId in table {
      WriteEffect(s, kind, table[r.value.definitionId], o.value, row);
    }
  }

  /** A command binds at most the row it declares, unbinds at most the row it deletes, and leaves
      every other constant bound or unbound as it was. */
  lemma {:induction false} ExecEffect(s: Scopes, kind: ItemKind, table: DefinitionTable, cfg: Cfg, o: Outcome, row: Row)
    requires HasConstants(s) && PlainTable(table) && PlainCfg(cfg)
    ensures Effect(s, Exec(s, kind, table, cfg, o), row, WrittenRow(table, cfg, o), RemovedRow(table, cfg))
  {
    if cfg.InitConstant? {
      InitEffect(s, kind, table, cfg, o, row);
    } else if cfg.DeleteConstant? {
      DeleteEffect(s, kind, table, cfg, o, row);
    } else {
      ResultEffect(s, kind, table, cfg, o, row);
    }
  }

  /** A completed deletion leaves its row unbound. */
  lemma {:induction false} ExecUnbinds(
    s: Scopes, kind: ItemKind, table: DefinitionTable, cfg: Cfg, o: Outcome, row: Row)
    requires HasConstants(s) && PlainTable(table)
    requires RemovedRow(table, cfg) == Some(row) && Exec(s, kind, table, cfg, o).completed
    ensures !Bound(Exec(s, kind, table, cfg, o).scopes, row)
  {
    RemoveEffect(s, kind, row, row);
  }

  /** The row a command may touch. */
  function TouchedRow(table: DefinitionTable, cfg: Cfg, o: Outcome): Option<Row> {
    if cfg.DeleteConstant? then RemovedRow(table, cfg) else WrittenRow(table, cfg, o)
  }

  /** A command leaves every scope other than its row's and the results alone, and completes unless
      it is made to raise or its row is guarded. */
  lemma {:induction false} ExecTouches(
    s: Scopes, kind: ItemKind, table: DefinitionTable, cfg: Cfg, o: Outcome, e: ConstantContext)
    requires HasConstants(s) && PlainTable(table) && PlainCfg(cfg) && RefsKnown(table, cfg)
    requires WrittenResult(cfg, o).Some? ==> WrittenResult(cfg, o).value.definitionId in table
    ensures var w, row := Exec(s, kind, table, cfg, o), TouchedRow(table, cfg, o);
            && (!e.Results? && (row.None? || row.value.context != e) ==> w.scopes.Get(e) == s.Get(e))
            && (!o.raises && (row.None? || !Guarded(kind, ScopeTarget(row.value.context))) ==> w.completed)
  {
    var row := TouchedRow(table, cfg, o);
    if cfg.Assert? {
      SetGets(s, Results, WithArtifact(s, o.value).results);
    } else if row.Some? {
      ConstantWrite(s, kind, row.value.context, row.value.name, o.value);
      ConstantRemove(s, kind, row.value.context, row.value.name);
      var c, m := row.value.context, Constants(s, row.value.context);
      SetGets(s, c, s.Get(c)["constants" := Dict(m[row.value.name := o.value])]);
      SetGets(s, c, s.Get(c)["constants" := Dict(m - {row.value.name})]);
    }
  }
}
