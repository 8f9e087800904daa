/** The values commands store: what each command leaves under each constant, and what a section's
    later commands therefore find there. */
module CommandValues {
  import opened Prelude
  import opened PyValues
  import opened PathTokens
  import opened ContextStore
  import opened ContextTheorems
  import opened ContextGuards
  import opened RunContexts
  import opened ConstantGraph
  import opened CommandRuntime

  /** What the reader finds under a constant. */
  function Reading(s: Scopes, row: Row): Lookup {
    ResolveRef(s, PathOf(row))
  }

  /** A constant now reads as given, and every other constant as before. */
  ghost predicate Becomes(s: Scopes, s': Scopes, row: Row, now: Lookup) {
    && Reading(s', row) == now
    && forall other: Row | PlainRow(other) && other != row :: Reading(s', other) == Reading(s, other)
  }

  ghost predicate SameConstants(s: Scopes, s': Scopes) {
    forall row: Row | PlainRow(row) :: Reading(s', row) == Reading(s, row)
  }

  /** Tests may store nothing in the global scope or the run envelope. */
  predicate MayStore(kind: ItemKind, c: ConstantContext) {
    kind == HookItem || c == Local || c == Results
  }

  // ----- One constant -----

  lemma {:induction false} ReadingIs(s: Scopes, row: Row)
    requires HasConstants(s) && PlainRow(row)
    ensures Reading(s, row) ==
            if row.name in Constants(s, row.context) then Found(Constants(s, row.context)[row.name]) else Missing
  {
    ConstantLookup(s, row.context, row.name);
  }

  lemma {:induction false} ConstantsAfter(s: Scopes, c: ConstantContext, m: map<string, Value>, e: ConstantContext)
    requires HasConstants(s)
    ensures HasConstants(WithConstants(s, c, m))
    ensures Constants(WithConstants(s, c, m), e) == if e == c then m else Constants(s, e)
  {
    SetGets(s, c, s.Get(c)["constants" := Dict(m)]);
  }

  lemma {:induction false} StoredReads(s: Scopes, target: Row, value: Value, row: Row)
    requires HasConstants(s) && PlainRow(target) && PlainRow(row)
    ensures var s' := WithConstants(s, target.context, Constants(s, target.context)[target.name := value]);
            Reading(s', row) == if row == target then Found(value) else Reading(s, row)
  {
    var m := Constants(s, target.context)[target.name := value];
    ConstantsAfter(s, target.context, m, row.context);
    ReadingIs(s, row);
    ReadingIs(WithConstants(s, target.context, m), row);
  }

  lemma {:induction false} RemovedReads(s: Scopes, target: Row, row: Row)
    requires HasConstants(s) && PlainRow(target) && PlainRow(row)
    ensures var s' := WithConstants(s, target.context, Constants(s, target.context) - {target.name});
            Reading(s', row) == if row == target then Missing else Reading(s, row)
  {
    var m := Constants(s, target.context) - {target.name};
    ConstantsAfter(s, target.context, m, row.context);
    ReadingIs(s, row);
    ReadingIs(WithConstants(s, target.context, m), row);
  }

  /** Writing a constant stores the value, unless a test may not. */
  lemma {:induction false} WriteStores(s: Scopes, kind: ItemKind, row: Row, value: Value)
    requires HasConstants(s) && PlainRow(row)
    ensures var w := WritePath(s, kind, PathOf(row), value);
            && HasConstants(w.scopes) && (w.completed <==> MayStore(kind, row.context))
            && if w.completed then Becomes(s, w.scopes, row, Found(value)) else w.scopes == s
  {
    ConstantWrite(s, kind, row.context, row.name, value);
    ConstantsAfter(s, row.context, Constants(s, row.context)[row.name := value], row.context);
    forall other: Row | PlainRow(other)
      ensures Reading(WithConstants(s, row.context, Constants(s, row.context)[row.name := value]), other)
           == if other == row then Found(value) else Reading(s, other)
    {
      StoredReads(s, row, value, other);
    }
  }

  lemma {:induction false} RemoveDrops(s: Scopes, kind: ItemKind, row: Row)
    requires HasConstants(s) && PlainRow(row)
    ensures var w := RemovePath(s, kind, PathOf(row));
            && HasConstants(w.scopes) && (w.completed <==> MayStore(kind, row.context))
            && if w.completed then Becomes(s, w.scopes, row, Missing) else w.scopes == s
  {
    ConstantRemove(s, kind, row.context, row.name);
    ConstantsAfter(s, row.context, Constants(s, row.context) - {row.name}, row.context);
    forall other: Row | PlainRow(other)
      ensures Reading(WithConstants(s, row.context, Constants(s, row.context) - {row.name}), other)
           == if other == row then Missing else Reading(s, other)
    {
      RemovedReads(s, row, other);
    }
  }

  // ----- One command -----

  /** The ids in a command's own fields all have definitions. */
  predicate FieldsKnown(table: DefinitionTable, cfg: Cfg) {
    match cfg
    case InitConstant(_, _, _, _, _) => true
    case Action(_) => true
    case DeleteConstant(target) => target in table
    case SendMessageQueue(source, _) => source in table
    case SaveTable(source, _) => source in table
    case ExportDataset(source, _) => source in table
    case RunSuite(constants, _) => forall i | 0 <= i < |constants| :: constants[i] in table
    case Assert(_, actual) => actual in table
  }

  lemma {:induction false} OneFieldKnown(table: DefinitionTable, cfg: Cfg, id: string)
    requires |Refs(cfg)| == 1 && Refs(cfg)[0] == id
    ensures RefsKnown(table, cfg) <==> id in table
  {
  }

  lemma {:induction false} FieldsKnownExactly(table: DefinitionTable, cfg: Cfg)
    ensures RefsKnown(table, cfg) <==> FieldsKnown(table, cfg)
  {
    if cfg.DeleteConstant? {
      OneFieldKnown(table, cfg, cfg.target);
    } else if cfg.SendMessageQueue? || cfg.SaveTable? || cfg.ExportDataset? {
      OneFieldKnown(table, cfg, cfg.source);
    } else if cfg.Assert? {
      OneFieldKnown(table, cfg, cfg.actual);
    } else if cfg.RunSuite? {
      assert Refs(cfg) == cfg.constants;
    }
  }

  /** An initConstant stores its value under its name, in its scope. */
  lemma {:induction false} InitStores(s: Scopes, kind: ItemKind, table: DefinitionTable, cfg: Cfg, o: Outcome)
    requires HasConstants(s) && cfg.InitConstant? && PlainName(cfg.name)
    ensures var w := Exec(s, kind, table, cfg, o);
            && HasConstants(w.scopes)
            && (w.completed <==> !o.raises && MayStore(kind, cfg.context))
            && if w.completed then Becomes(s, w.scopes, Row(cfg.context, cfg.name), Found(o.value)) else w.scopes == s
  {
    FieldsKnownExactly(table, cfg);
    WriteStores(s, kind, Row(cfg.context, cfg.name), o.value);
  }

  /** A deletion drops its constant. */
  lemma {:induction false} DeleteDrops(s: Scopes, kind: ItemKind, table: DefinitionTable, cfg: Cfg, o: Outcome)
    requires HasConstants(s) && PlainTable(table) && cfg.DeleteConstant?
    ensures var w := Exec(s, kind, table, cfg, o);
            && HasConstants(w.scopes)
            && (w.completed <==> cfg.target in table && !o.raises && MayStore(kind, table[cfg.target].context))
            && if w.completed then Becomes(s, w.scopes, table[cfg.target], Missing) else w.scopes == s
  {
    FieldsKnownExactly(table, cfg);
    if cfg.target in table {
      RemoveDrops(s, kind, table[cfg.target]);
    }
  }

  /** Does the command return without storing its result? */
  predicate ReturnsEarly(cfg: Cfg, o: Outcome) {
    (cfg.SaveTable? || cfg.ExportDataset?) && o.emptyRows
  }

  /** A command with a result stores it under the result's definition; without one, or returning
      early, it stores nothing. */
  lemma {:induction false} ResultStores(s: Scopes, kind: ItemKind, table: DefinitionTable, cfg: Cfg, o: Outcome)
    requires HasConstants(s) && PlainTable(table)
    requires cfg.SendMessageQueue? || cfg.SaveTable? || cfg.ExportDataset? || cfg.RunSuite?
    ensures var w, runs := Exec(s, kind, table, cfg, o), FieldsKnown(table, cfg) && !o.raises;
            && HasConstants(w.scopes)
            && if cfg.result.None? || ReturnsEarly(cfg, o) then w == Written(s, runs)
               else
                 var id := cfg.result.value.definitionId;
                 && (w.completed <==> runs && id in table && MayStore(kind, table[id].context))
                 && if w.completed then Becomes(s, w.scopes, table[id], Found(o.value)) else w.scopes == s
  {
    FieldsKnownExactly(table, cfg);
    if cfg.result.Some? && cfg.result.value.definitionId in table {
      WriteStores(s, kind, table[cfg.result.value.definitionId], o.value);
    }
  }

  /** The asserts gathered in the results. */
  function Asserts(s: Scopes): seq<Value> {
    var artifacts := if "artifacts" in s.results && s.results["artifacts"].Dict? then s.results["artifacts"].entries else map[];
    if "asserts" in artifacts && artifacts["asserts"].List? then artifacts["asserts"].items else []
  }

  /** An assert, or an action, changes no constant; an assert that evaluates, passed or failed, adds
      its artifact to those gathered. */
  lemma {:induction false} OthersStoreNothing(s: Scopes, kind: ItemKind, table: DefinitionTable, cfg: Cfg, o: Outcome)
    requires HasConstants(s) && (cfg.Assert? || cfg.Action?)
    ensures var w := Exec(s, kind, table, cfg, o);
            && HasConstants(w.scopes) && SameConstants(s, w.scopes)
            && (w.completed <==> FieldsKnown(table, cfg) && !o.raises)
            && Asserts(w.scopes) == Asserts(s) +
                 (if cfg.Assert? && FieldsKnown(table, cfg) && (!o.raises || o.evaluates) then [o.value] else [])
  {
    FieldsKnownExactly(table, cfg);
    ArtifactAdds(s, o.value);
    assert Asserts(s) + [] == Asserts(s);
  }

  lemma {:induction false} ArtifactAdds(s: Scopes, artifact: Value)
    requires HasConstants(s)
    ensures HasConstants(WithArtifact(s, artifact)) && SameConstants(s, WithArtifact(s, artifact))
    ensures Asserts(WithArtifact(s, artifact)) == Asserts(s) + [artifact]
  {
    ArtifactBound(s, artifact, Row(Local, ""));
    ArtifactKeeps(s, artifact);
    var s' := WithArtifact(s, artifact);
    forall row: Row | PlainRow(row) ensures Reading(s', row) == Reading(s, row) {
      ReadingIs(s, row);
      ReadingIs(s', row);
    }
  }

  lemma {:induction false} ArtifactKeeps(s: Scopes, artifact: Value)
    requires HasConstants(s) && HasConstants(WithArtifact(s, artifact))
    ensures forall c :: Constants(WithArtifact(s, artifact), c) == Constants(s, c)
  {
    assert "constants"[0] == 'c' && "artifacts"[0] == 'a';
    var s' := WithArtifact(s, artifact);
    SetGets(s, Results, s'.results);
    assert s.Set(Results, s'.results) == s' && s.Get(Results) == s.results;
  }

  // ----- Any command -----

  /** How a row reads after a command that completes or raises. */
  predicate ReadsAfter(s: Scopes, w: Written, written: Option<Row>, removed: Option<Row>, value: Value, row: Row) {
    && HasConstants(w.scopes)
    && Reading(w.scopes, row) ==
         if w.completed && written == Some(row) then Found(value)
         else if w.completed && removed == Some(row) then Missing
         else Reading(s, row)
  }

  lemma {:induction false} ResultReads(s: Scopes, kind: ItemKind, table: DefinitionTable, cfg: Cfg, o: Outcome, row: Row)
    requires HasConstants(s) && PlainTable(table) && PlainRow(row)
    requires cfg.SendMessageQueue? || cfg.SaveTable? || cfg.ExportDataset? || cfg.RunSuite?
    ensures ReadsAfter(s, Exec(s, kind, table, cfg, o), WrittenRow(table, cfg, o), RemovedRow(table, cfg), o.value, row)
  {
    ResultStores(s, kind, table, cfg, o);
  }

  lemma {:induction false} DeleteReads(s: Scopes, kind: ItemKind, table: DefinitionTable, cfg: Cfg, o: Outcome, row: Row)
    requires HasConstants(s) && PlainTable(table) && PlainRow(row) && cfg.DeleteConstant?
    ensures ReadsAfter(s, Exec(s, kind, table, cfg, o), WrittenRow(table, cfg, o), RemovedRow(table, cfg), o.value, row)
  {
    DeleteDrops(s, kind, table, cfg, o);
  }

  /** A completed command leaves its value under the constant it writes, nothing under the one it
      deletes, and every other constant as it was; one that raises leaves all of them. */
  lemma {:induction false} ExecStores(s: Scopes, kind: ItemKind, table: DefinitionTable, cfg: Cfg, o: Outcome, row: Row)
    requires HasConstants(s) && PlainTable(table) && PlainCfg(cfg) && PlainRow(row)
    ensures ReadsAfter(s, Exec(s, kind, table, cfg, o), WrittenRow(table, cfg, o), RemovedRow(table, cfg), o.value, row)
  {
    if cfg.InitConstant? {
      InitStores(s, kind, table, cfg, o);
    } else if cfg.DeleteConstant? {
      DeleteReads(s, kind, table, cfg, o, row);
    } else if cfg.Action? || cfg.Assert? {
      OthersStoreNothing(s, kind, table, cfg, o);
    } else {
      ResultReads(s, kind, table, cfg, o, row);
    }
  }

  // ----- Sections -----

  /** Command j touches the row, and no command after it up to k does. */
  predicate LastTouches(table: DefinitionTable, commands: seq<Command>, outs: seq<Outcome>, j: nat, k: nat, row: Row)
    requires j < k <= |commands| == |outs|
  {
    TouchedRow(table, commands[j].cfg, outs[j]) == Some(row) && LeftAlone(table, commands, outs, j + 1, k, row)
  }

  predicate LeftAlone(table: DefinitionTable, commands: seq<Command>, outs: seq<Outcome>, from: nat, to: nat, row: Row)
    requires to <= |commands| == |outs|
  {
    forall i | from <= i < to :: TouchedRow(table, commands[i].cfg, outs[i]) != Some(row)
  }

  predicate PlainCommands(commands: seq<Command>) {
    forall i | 0 <= i < |commands| :: PlainCfg(commands[i].cfg)
  }

  lemma {:induction false} ConstantsStay(
    s: Scopes, kind: ItemKind, table: DefinitionTable, commands: seq<Command>, outs: seq<Outcome>, k: nat)
    requires HasConstants(s) && PlainTable(table) && PlainCommands(commands) && k <= |commands| == |outs|
    ensures HasConstants(After(s, kind, table, commands, outs, k).scopes)
    decreases k
  {
    if k > 0 {
      ConstantsStay(s, kind, table, commands, outs, k - 1);
      ContextNameIsPlain();
      ExecStores(After(s, kind, table, commands, outs, k - 1).scopes, kind, table, commands[k - 1].cfg, outs[k - 1],
                 Row(Local, "x"));
    }
  }

  lemma {:induction false} ContextNameIsPlain()
    ensures PlainRow(Row(Local, "x"))
  {
    assert "x"[0] == 'x';
  }

  /** One command later. */
  lemma {:induction false} ReadingStep(
    s: Scopes, kind: ItemKind, table: DefinitionTable, commands: seq<Command>, outs: seq<Outcome>, k: nat, row: Row)
    requires HasConstants(s) && PlainTable(table) && PlainCommands(commands) && PlainRow(row)
    requires k < |commands| == |outs|
    ensures var before, after := After(s, kind, table, commands, outs, k), After(s, kind, table, commands, outs, k + 1);
            Reading(after.scopes, row) ==
              if after.completed && WrittenRow(table, commands[k].cfg, outs[k]) == Some(row) then Found(outs[k].value)
              else if after.completed && RemovedRow(table, commands[k].cfg) == Some(row) then Missing
              else Reading(before.scopes, row)
  {
    ConstantsStay(s, kind, table, commands, outs, k);
    if Completes(s, kind, table, commands, outs, k) {
      ExecStores(After(s, kind, table, commands, outs, k).scopes, kind, table, commands[k].cfg, outs[k], row);
    }
  }

  function ReadingAt(
    s: Scopes, kind: ItemKind, table: DefinitionTable, commands: seq<Command>, outs: seq<Outcome>, k: nat, row: Row): Lookup
    requires k <= |commands| == |outs|
  {
    Reading(After(s, kind, table, commands, outs, k).scopes, row)
  }

  lemma {:induction false} UntouchedReads(
    s: Scopes, kind: ItemKind, table: DefinitionTable, commands: seq<Command>, outs: seq<Outcome>, k: nat, row: Row)
    requires HasConstants(s) && PlainTable(table) && PlainCommands(commands) && PlainRow(row)
    requires k < |commands| == |outs| && TouchedRow(table, commands[k].cfg, outs[k]) != Some(row)
    ensures ReadingAt(s, kind, table, commands, outs, k + 1, row) == ReadingAt(s, kind, table, commands, outs, k, row)
  {
    ReadingStep(s, kind, table, commands, outs, k, row);
  }

  predicate SameAt(readings: seq<Lookup>, i: nat)
    requires i + 1 < |readings|
  {
    readings[i + 1] == readings[i]
  }

  lemma {:induction false} ReadingsStay(readings: seq<Lookup>, from: nat, k: nat)
    requires from <= k < |readings| && forall i | from <= i < k :: SameAt(readings, i)
    ensures readings[k] == readings[from]
    decreases k
  {
    if from < k {
      ReadingsStay(readings, from, k - 1);
      assert SameAt(readings, k - 1);
    }
  }

  /** The readings of a row before each command and at the end. */
  lemma {:induction false} ReadingsOf(
    s: Scopes, kind: ItemKind, table: DefinitionTable, commands: seq<Command>, outs: seq<Outcome>, row: Row, n: nat)
    returns (readings: seq<Lookup>)
    requires n <= |commands| == |outs|
    ensures |readings| == n + 1
    ensures forall i | 0 <= i <= n :: readings[i] == ReadingAt(s, kind, table, commands, outs, i, row)
  {
    readings := seq(n + 1, i requires 0 <= i <= n => ReadingAt(s, kind, table, commands, outs, i, row));
  }

  lemma {:induction false} UntouchedSame(
    s: Scopes, kind: ItemKind, table: DefinitionTable, commands: seq<Command>, outs: seq<Outcome>, i: nat, row: Row,
    readings: seq<Lookup>)
    requires HasConstants(s) && PlainTable(table) && PlainCommands(commands) && PlainRow(row)
    requires i < |commands| == |outs| && TouchedRow(table, commands[i].cfg, outs[i]) != Some(row)
    requires i + 1 < |readings| && readings[i] == ReadingAt(s, kind, table, commands, outs, i, row)
    requires readings[i + 1] == ReadingAt(s, kind, table, commands, outs, i + 1, row)
    ensures SameAt(readings, i)
  {
    UntouchedReads(s, kind, table, commands, outs, i, row);
  }

  /** A constant that no command touches reads as before. */
  lemma {:induction false} LeftAloneReads(
    s: Scopes, kind: ItemKind, table: DefinitionTable, commands: seq<Command>, outs: seq<Outcome>, from: nat, k: nat, row: Row)
    requires HasConstants(s) && PlainTable(table) && PlainCommands(commands) && PlainRow(row)
    requires from <= k <= |commands| == |outs| && LeftAlone(table, commands, outs, from, k, row)
    ensures ReadingAt(s, kind, table, commands, outs, k, row) == ReadingAt(s, kind, table, commands, outs, from, row)
  {
    var readings := ReadingsOf(s, kind, table, commands, outs, row, k);
    forall i | from <= i < k ensures SameAt(readings, i) {
      UntouchedSame(s, kind, table, commands, outs, i, row, readings);
    }
    ReadingsStay(readings, from, k);
  }

  lemma {:induction false} CompletedBefore(
    s: Scopes, kind: ItemKind, table: DefinitionTable, commands: seq<Command>, outs: seq<Outcome>, j: nat, k: nat)
    requires j <= k <= |commands| == |outs| && Completes(s, kind, table, commands, outs, k)
    ensures Completes(s, kind, table, commands, outs, j)
  {
    if !Completes(s, kind, table, commands, outs, j) {
      StoppedStays(s, kind, table, commands, outs, j, k);
    }
  }

  lemma {:induction false} TouchedReads(
    s: Scopes, kind: ItemKind, table: DefinitionTable, commands: seq<Command>, outs: seq<Outcome>, j: nat, row: Row)
    requires HasConstants(s) && PlainTable(table) && PlainCommands(commands) && PlainRow(row)
    requires j < |commands| == |outs| && Completes(s, kind, table, commands, outs, j + 1)
    requires TouchedRow(table, commands[j].cfg, outs[j]) == Some(row)
    ensures Reading(After(s, kind, table, commands, outs, j + 1).scopes, row)
         == if commands[j].cfg.DeleteConstant? then Missing else Found(outs[j].value)
  {
    ReadingStep(s, kind, table, commands, outs, j, row);
  }

  /** At a reached command, and at the end, a constant holds the value of the last command that
      wrote it, and is gone if the last to touch it deleted it. */
  lemma {:induction false} LastTouchDecides(
    s: Scopes, kind: ItemKind, table: DefinitionTable, commands: seq<Command>, outs: seq<Outcome>, j: nat, k: nat, row: Row)
    requires HasConstants(s) && PlainTable(table) && PlainCommands(commands) && PlainRow(row)
    requires j < k <= |commands| == |outs| && Completes(s, kind, table, commands, outs, k)
    requires LastTouches(table, commands, outs, j, k, row)
    ensures Reading(After(s, kind, table, commands, outs, k).scopes, row)
         == if commands[j].cfg.DeleteConstant? then Missing else Found(outs[j].value)
  {
    CompletedBefore(s, kind, table, commands, outs, j + 1, k);
    TouchedReads(s, kind, table, commands, outs, j, row);
    LeftAloneReads(s, kind, table, commands, outs, j + 1, k, row);
  }
}
