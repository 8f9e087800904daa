/** The planner against the run-time store: an accepted section never reads an unbound constant,
    exactly from the stores that bind what it inherits and refers to. */
module SectionSoundness {
  import opened Prelude
  import opened PyValues
  import opened ContextStore
  import opened ContextGuards
  import opened ConstantGraph
  import opened ConstantGraphLaws
  import opened CommandRuntime

  /** One execution of a section: what was planned, where it starts, how its commands turn out. */
  datatype SectionRun = SectionRun(
    section: Section, commands: seq<Command>, carried: Definitions, table: DefinitionTable,
    kind: ItemKind, start: Scopes, outs: seq<Outcome>)

  function RowOf(d: PlannedDefinition): Row {
    Row(d.context, d.name)
  }

  /** The persisted table holds every live definition under its id. */
  ghost predicate Agrees(table: DefinitionTable, defs: Definitions) {
    forall id | Live(defs, id) :: id in table && table[id] == RowOf(defs[id])
  }

  predicate DeclarationsAgree(table: DefinitionTable, commands: seq<Command>, section: Section) {
    forall k, j | 0 <= k < |commands| && 0 <= j < |Declarations(commands[k], section)| ::
      var d := Declarations(commands[k], section)[j];
      d.id in table && table[d.id] == RowOf(d)
  }

  /** The planner accepted the section, and the table was built from its definitions. */
  ghost predicate Accepted(r: SectionRun) {
    && InOrder(r.commands) && Positive(r.commands)
    && Consistent(r.carried, 0)
    && PlanFrom(r.commands, r.section, r.carried).Ok?
    && PlainTable(r.table) && Agrees(r.table, r.carried) && DeclarationsAgree(r.table, r.commands, r.section)
  }

  /** The run starts from scope dicts with constants, with an outcome for every command. */
  predicate Startable(r: SectionRun) {
    |r.outs| == |r.commands| && HasConstants(r.start)
  }

  /** Moreover each command that declares a result and does not raise writes it. */
  predicate Runnable(r: SectionRun) {
    && Startable(r)
    && forall k | 0 <= k < |r.commands| ::
         !r.outs[k].raises ==> WrittenResult(r.commands[k].cfg, r.outs[k]) == ResultOf(r.commands[k].cfg)
  }

  /** No command before the k-th raises. */
  predicate Reached(outs: seq<Outcome>, k: nat)
    requires k <= |outs|
  {
    forall j | 0 <= j < k :: !outs[j].raises
  }

  function DefinitionsBefore(r: SectionRun, k: nat): Definitions
    requires k <= |r.commands|
  {
    StateAfter(r.commands, r.section, r.carried, k)
  }

  function Running(r: SectionRun, k: nat): Written
    requires k <= |r.commands| == |r.outs|
  {
    After(r.start, r.kind, r.table, r.commands, r.outs, k)
  }

  /** Every reference of command k resolves in the context it runs in. */
  predicate ReadsBound(r: SectionRun, k: nat)
    requires k < |r.commands| == |r.outs|
  {
    forall i | 0 <= i < |Refs(r.commands[k].cfg)| ::
      var id := Refs(r.commands[k].cfg)[i];
      id in r.table && ResolveRef(Running(r, k).scopes, PathOf(r.table[id])).Found?
  }

  /** No reached command reads an unbound constant. */
  predicate Sound(r: SectionRun)
    requires |r.commands| == |r.outs|
  {
    forall k | 0 <= k < |r.commands| && Running(r, k).completed :: ReadsBound(r, k)
  }

  predicate Uses(cfg: Cfg, id: string) {
    id in Refs(cfg)
  }

  /** The start context binds every inherited definition a reached command refers to. */
  ghost predicate InheritsBound(r: SectionRun)
    requires |r.outs| == |r.commands|
  {
    forall id, k | Live(r.carried, id) && 0 <= k < |r.commands| && Reached(r.outs, k) && Uses(r.commands[k].cfg, id) ::
      Bound(r.start, RowOf(r.carried[id]))
  }

  // ----- The planner's side -----

  lemma {:induction false} CommandAccepted(r: SectionRun, k: nat)
    requires Accepted(r) && k < |r.commands|
    ensures CommandError(r.commands[k], r.section, DefinitionsBefore(r, k)).None?
  {
    PlanFromMatchesRule(r.commands, r.section, r.carried, 0);
    AllowedFromEach(r.commands, r.section, r.carried, 0);
    assert r.commands[0..] == r.commands;
    ChecksMatchRule(r.commands, r.section, r.carried, k);
  }

  function OrderBefore(r: SectionRun, k: nat): int
    requires k <= |r.commands|
  {
    if k == 0 then 0 else r.commands[k - 1].order
  }

  lemma {:induction false} UpdatedAgrees(r: SectionRun, k: nat)
    requires Accepted(r) && k < |r.commands| && Agrees(r.table, DefinitionsBefore(r, k))
    ensures Agrees(r.table, DefinitionsBefore(r, k + 1))
  {
    var declared := Declarations(r.commands[k], r.section);
    if declared != [] {
      assert declared[0].id in r.table && r.table[declared[0].id] == RowOf(declared[0]);
    }
  }

  lemma {:induction false} StateConsistent(r: SectionRun, k: nat)
    requires Accepted(r) && k <= |r.commands|
    ensures Consistent(DefinitionsBefore(r, k), OrderBefore(r, k))
    ensures Agrees(r.table, DefinitionsBefore(r, k))
    ensures k < |r.commands| ==> CommandError(r.commands[k], r.section, DefinitionsBefore(r, k)).None?
    decreases k
  {
    if k < |r.commands| {
      CommandAccepted(r, k);
    }
    if k > 0 {
      StateConsistent(r, k - 1);
      UpdatedAgrees(r, k - 1);
      StepKeepsConsistent(r.commands[k - 1], r.section, DefinitionsBefore(r, k - 1), OrderBefore(r, k - 1));
    }
  }

  lemma {:induction false} RefErrorNone(c: Command, section: Section, defs: Definitions, refs: seq<string>, i: nat)
    requires RefError(c, section, defs, refs).None? && i < |refs|
    ensures refs[i] in defs && Active(defs[refs[i]], Readable(section), c.order)
    ensures c.cfg.DeleteConstant? ==> defs[refs[i]].context in Writable(section)
    decreases |refs|
  {
    if i > 0 {
      RefErrorNone(c, section, defs, refs[1..], i - 1);
    }
  }

  /** A reference of an accepted command is a live definition, known to the table. */
  lemma {:induction false} RefsAreLive(r: SectionRun, k: nat, i: nat)
    requires Accepted(r) && k < |r.commands| && i < |Refs(r.commands[k].cfg)|
    ensures var id := Refs(r.commands[k].cfg)[i];
            Live(DefinitionsBefore(r, k), id) && id in r.table && r.table[id] == RowOf(DefinitionsBefore(r, k)[id])
    ensures r.commands[k].cfg.DeleteConstant? ==> r.table[r.commands[k].cfg.target].context in Writable(r.section)
  {
    StateConsistent(r, k);
    var c := r.commands[k];
    StateWithin(r.commands, r.section, r.carried, k);
    RefErrorNone(c, r.section, DefinitionsBefore(r, k), Refs(c.cfg), i);
  }

  lemma {:induction false} RefsKnownAt(r: SectionRun, k: nat)
    requires Accepted(r) && k < |r.commands|
    ensures RefsKnown(r.table, r.commands[k].cfg)
  {
    forall i | 0 <= i < |Refs(r.commands[k].cfg)| ensures Refs(r.commands[k].cfg)[i] in r.table {
      RefsAreLive(r, k, i);
    }
  }

  /** An accepted command declares at most a writable row that no live definition has. */
  lemma {:induction false} DeclaresWritable(r: SectionRun, k: nat)
    requires Accepted(r) && k < |r.commands|
    ensures var c, declared := r.commands[k], Declarations(r.commands[k], r.section);
            && PlainCfg(c.cfg)
            && (declared != [] ==> !c.cfg.DeleteConstant? && declared[0].context in Writable(r.section)
                                   && !NameLive(DefinitionsBefore(r, k), declared[0]))
  {
    StateConsistent(r, k);
    StateWithin(r.commands, r.section, r.carried, k);
    var declared := Declarations(r.commands[k], r.section);
    if declared != [] {
      NameTakenIsLive(DefinitionsBefore(r, k), declared[0], r.commands[k].order);
      assert declared[0].id in r.table && r.table[declared[0].id] == RowOf(declared[0]);
    }
  }

  /** What an accepted command writes is what it declares; it writes nothing if it returns early. */
  lemma {:induction false} WritesDeclared(r: SectionRun, k: nat)
    requires Accepted(r) && k < |r.commands| == |r.outs|
    ensures var cfg, declared := r.commands[k].cfg, Declarations(r.commands[k], r.section);
            var row := if declared == [] then None else Some(RowOf(declared[0]));
            && (WrittenRow(r.table, cfg, r.outs[k]).Some? ==> WrittenRow(r.table, cfg, r.outs[k]) == row)
            && (WrittenResult(cfg, r.outs[k]) == ResultOf(cfg) ==> WrittenRow(r.table, cfg, r.outs[k]) == row)
  {
    var declared := Declarations(r.commands[k], r.section);
    if declared != [] {
      assert declared[0].id in r.table && r.table[declared[0].id] == RowOf(declared[0]);
    }
  }

  // ----- Running -----

  lemma {:induction false} EarlierCompletes(r: SectionRun, k: nat)
    requires 0 < k <= |r.commands| == |r.outs| && Running(r, k).completed
    ensures Running(r, k - 1).completed && !r.outs[k - 1].raises
    ensures Running(r, k) == Exec(Running(r, k - 1).scopes, r.kind, r.table, r.commands[k - 1].cfg, r.outs[k - 1])
  {
  }

  lemma {:induction false} EarlierCompleted(r: SectionRun, k: nat)
    requires 0 < k <= |r.commands| == |r.outs| && Running(r, k).completed
    ensures Running(r, k - 1).completed && !r.outs[k - 1].raises
  {
    EarlierCompletes(r, k);
  }

  lemma {:induction false} CompletedIsReached(r: SectionRun, k: nat)
    requires k <= |r.commands| == |r.outs| && Running(r, k).completed
    ensures Reached(r.outs, k)
    decreases k
  {
    if k > 0 {
      EarlierCompleted(r, k);
      CompletedIsReached(r, k - 1);
      ReachedNext(r.outs, k);
    }
  }

  lemma {:induction false} ReachedNext(outs: seq<Outcome>, k: nat)
    requires 0 < k <= |outs|
    ensures Reached(outs, k) <==> Reached(outs, k - 1) && !outs[k - 1].raises
  {
    assert Reached(outs, k - 1) && !outs[k - 1].raises ==> forall j | 0 <= j < k :: !outs[j].raises;
  }

  /** What a reached command does to a row, whatever the planner says of it. */
  lemma {:induction false} CommandEffect(r: SectionRun, k: nat, row: Row)
    requires 0 < k <= |r.commands| == |r.outs| && Running(r, k - 1).completed
    requires HasConstants(Running(r, k - 1).scopes) && PlainTable(r.table) && PlainCfg(r.commands[k - 1].cfg)
    ensures Effect(Running(r, k - 1).scopes, Running(r, k), row,
                   WrittenRow(r.table, r.commands[k - 1].cfg, r.outs[k - 1]), RemovedRow(r.table, r.commands[k - 1].cfg))
  {
    ExecEffect(Running(r, k - 1).scopes, r.kind, r.table, r.commands[k - 1].cfg, r.outs[k - 1], row);
  }

  lemma {:induction false} RunningHasConstants(r: SectionRun, k: nat)
    requires Accepted(r) && Startable(r) && k <= |r.commands|
    ensures HasConstants(Running(r, k).scopes)
    decreases k
  {
    if k > 0 {
      RunningHasConstants(r, k - 1);
      PlainCommand(r, k - 1);
      if Running(r, k - 1).completed {
        CommandEffect(r, k, Row(Local, ""));
      }
    }
  }

  lemma {:induction false} PlainCommand(r: SectionRun, k: nat)
    requires Accepted(r) && k < |r.commands|
    ensures PlainCfg(r.commands[k].cfg) && PlainTable(r.table)
  {
    DeclaresWritable(r, k);
  }

  /** The same for a command of an accepted section. */
  lemma {:induction false} AcceptedEffect(r: SectionRun, k: nat, row: Row)
    requires Accepted(r) && Startable(r) && 0 < k <= |r.commands| && Running(r, k - 1).completed
    ensures Effect(Running(r, k - 1).scopes, Running(r, k), row,
                   WrittenRow(r.table, r.commands[k - 1].cfg, r.outs[k - 1]), RemovedRow(r.table, r.commands[k - 1].cfg))
  {
    RunningHasConstants(r, k - 1);
    PlainCommand(r, k - 1);
    CommandEffect(r, k, row);
  }

  // ----- Soundness -----

  /** Inherited from a store that lacks it. */
  predicate Lacking(r: SectionRun, id: string) {
    Live(r.carried, id) && !Bound(r.start, RowOf(r.carried[id]))
  }

  /** A definition live after a command was written by it, or was live before and not deleted. */
  lemma {:induction false} LivePlanned(r: SectionRun, k: nat, id: string)
    requires Accepted(r) && Runnable(r) && 0 < k <= |r.commands| && !r.outs[k - 1].raises
    requires Live(DefinitionsBefore(r, k), id)
    ensures var cfg, d := r.commands[k - 1].cfg, DefinitionsBefore(r, k)[id];
            || WrittenRow(r.table, cfg, r.outs[k - 1]) == Some(RowOf(d))
            || (Live(DefinitionsBefore(r, k - 1), id) && DefinitionsBefore(r, k - 1)[id] == d
                && RemovedRow(r.table, cfg) != Some(RowOf(d)))
  {
    WritesDeclared(r, k - 1);
    if Live(DefinitionsBefore(r, k - 1), id) && DefinitionsBefore(r, k - 1)[id] == DefinitionsBefore(r, k)[id] {
      SurvivesCommand(r, k - 1, id);
    }
  }

  lemma {:induction false} LiveStep(r: SectionRun, k: nat, id: string)
    requires Accepted(r) && Runnable(r) && 0 < k <= |r.commands| && Running(r, k).completed
    requires Live(DefinitionsBefore(r, k), id)
    requires Live(DefinitionsBefore(r, k - 1), id) ==>
               Bound(Running(r, k - 1).scopes, RowOf(DefinitionsBefore(r, k - 1)[id]))
    ensures Bound(Running(r, k).scopes, RowOf(DefinitionsBefore(r, k)[id]))
  {
    EarlierCompletes(r, k);
    LivePlanned(r, k, id);
    AcceptedEffect(r, k, RowOf(DefinitionsBefore(r, k)[id]));
  }

  /** At every reached command the store binds every live definition, but for those it lacked
      from the start. */
  lemma {:induction false} LiveStaysBound(r: SectionRun, k: nat, id: string)
    requires Accepted(r) && Runnable(r) && k <= |r.commands| && Running(r, k).completed
    requires Live(DefinitionsBefore(r, k), id) && !Lacking(r, id)
    ensures Bound(Running(r, k).scopes, RowOf(DefinitionsBefore(r, k)[id]))
    decreases k
  {
    if k > 0 {
      EarlierCompletes(r, k);
      if Live(DefinitionsBefore(r, k - 1), id) {
        LiveStaysBound(r, k - 1, id);
      }
      LiveStep(r, k, id);
    }
  }

  /** Section soundness: from a store binding the inherited definitions its reached commands refer
      to, an accepted section reads only bound constants, whichever commands raise. */
  lemma {:induction false} SectionSound(r: SectionRun)
    requires Accepted(r) && Runnable(r) && InheritsBound(r)
    ensures Sound(r)
  {
    forall k | 0 <= k < |r.commands| && Running(r, k).completed ensures ReadsBound(r, k) {
      forall i | 0 <= i < |Refs(r.commands[k].cfg)|
        ensures var id := Refs(r.commands[k].cfg)[i];
                id in r.table && ResolveRef(Running(r, k).scopes, PathOf(r.table[id])).Found?
      {
        var id := Refs(r.commands[k].cfg)[i];
        RefsAreLive(r, k, i);
        CompletedIsReached(r, k);
        assert Uses(r.commands[k].cfg, id);
        assert !Lacking(r, id);
        RunningHasConstants(r, k);
        LiveStaysBound(r, k, id);
        BoundIsFound(Running(r, k).scopes, r.table[id]);
      }
    }
  }

  // ----- Exactness -----

  /** Only test sections run under the guard. */
  predicate KindFits(r: SectionRun) {
    r.kind.TestItem? ==> r.section.Test?
  }

  /** The guard never fires on an accepted command: it raises only if the world makes it. */
  lemma {:induction false} GuardNeverFires(r: SectionRun, k: nat)
    requires Accepted(r) && Startable(r) && KindFits(r) && 0 < k <= |r.commands|
    requires Running(r, k - 1).completed && !r.outs[k - 1].raises
    ensures Running(r, k).completed
  {
    RunningHasConstants(r, k - 1);
    TouchesWritable(r, k - 1);
    ExecTouches(Running(r, k - 1).scopes, r.kind, r.table, r.commands[k - 1].cfg, r.outs[k - 1], Local);
  }

  /** An accepted command only touches rows its section may write. */
  lemma {:induction false} TouchesWritable(r: SectionRun, k: nat)
    requires Accepted(r) && k < |r.commands| == |r.outs|
    ensures var cfg, row := r.commands[k].cfg, TouchedRow(r.table, r.commands[k].cfg, r.outs[k]);
            && (row.Some? ==> row.value.context in Writable(r.section))
            && PlainCfg(cfg) && RefsKnown(r.table, cfg)
            && (WrittenResult(cfg, r.outs[k]).Some? ==> WrittenResult(cfg, r.outs[k]).value.definitionId in r.table)
  {
    RefsKnownAt(r, k);
    DeclaresWritable(r, k);
    WritesDeclared(r, k);
    var c := r.commands[k];
    if c.cfg.DeleteConstant? {
      assert Refs(c.cfg)[0] == c.cfg.target;
      RefsAreLive(r, k, 0);
    } else if ResultOf(c.cfg).Some? {
      var d := Declarations(c, r.section)[0];
      assert d.id in r.table;
    }
  }

  lemma {:induction false} ReachedCompletes(r: SectionRun, k: nat)
    requires Accepted(r) && Startable(r) && KindFits(r) && k <= |r.commands| && Reached(r.outs, k)
    ensures Running(r, k).completed
    decreases k
  {
    if k == 0 {
      assert Running(r, 0) == Written(r.start, true);
    } else {
      ReachedNext(r.outs, k);
      ReachedCompletes(r, k - 1);
      GuardNeverFires(r, k);
    }
  }

  /** A live definition survives an accepted command that does not delete it, and the command
      touches another row. */
  lemma {:induction false} SurvivesCommand(r: SectionRun, k: nat, id: string)
    requires Accepted(r) && k < |r.commands| == |r.outs|
    requires Live(DefinitionsBefore(r, k), id) && r.commands[k].cfg != DeleteConstant(id)
    ensures Live(DefinitionsBefore(r, k + 1), id) && DefinitionsBefore(r, k + 1)[id] == DefinitionsBefore(r, k)[id]
    ensures WrittenRow(r.table, r.commands[k].cfg, r.outs[k]) != Some(RowOf(DefinitionsBefore(r, k)[id]))
    ensures RemovedRow(r.table, r.commands[k].cfg) != Some(RowOf(DefinitionsBefore(r, k)[id]))
  {
    var c, defs := r.commands[k], DefinitionsBefore(r, k);
    DeclaresWritable(r, k);
    WritesDeclared(r, k);
    StateConsistent(r, k);
    var declared := Declarations(c, r.section);
    if declared != [] {
      assert !(defs[id].name == declared[0].name && defs[id].context == declared[0].context);
      assert declared[0].id in r.table && r.table[declared[0].id] == RowOf(declared[0]);
      assert declared[0].id != id;
    }
    if c.cfg.DeleteConstant? {
      assert Refs(c.cfg)[0] == c.cfg.target;
      RefsAreLive(r, k, 0);
    }
  }

  /** The store lacks an inherited definition that is still live for the planner. */
  ghost predicate StillLacking(r: SectionRun, k: nat, id: string)
    requires k <= |r.commands| == |r.outs|
  {
    && Live(r.carried, id) && Live(DefinitionsBefore(r, k), id) && DefinitionsBefore(r, k)[id] == r.carried[id]
    && HasConstants(Running(r, k).scopes) && !Bound(Running(r, k).scopes, RowOf(r.carried[id]))
  }

  lemma {:induction false} DeletingIsUsing(cfg: Cfg, id: string)
    ensures cfg == DeleteConstant(id) ==> Uses(cfg, id)
  {
    assert cfg == DeleteConstant(id) ==> Refs(cfg)[0] == id;
  }

  lemma {:induction false} LackingPlanned(r: SectionRun, k: nat, id: string)
    requires Accepted(r) && Startable(r) && 0 < k <= |r.commands|
    requires !Uses(r.commands[k - 1].cfg, id) && Live(r.carried, id)
    requires Live(DefinitionsBefore(r, k - 1), id) && DefinitionsBefore(r, k - 1)[id] == r.carried[id]
    ensures Live(DefinitionsBefore(r, k), id) && DefinitionsBefore(r, k)[id] == r.carried[id]
    ensures WrittenRow(r.table, r.commands[k - 1].cfg, r.outs[k - 1]) != Some(RowOf(r.carried[id]))
  {
    DeletingIsUsing(r.commands[k - 1].cfg, id);
    SurvivesCommand(r, k - 1, id);
  }

  /** A command that does not refer to a lacking definition leaves it lacking. */
  lemma {:induction false} LackingStep(r: SectionRun, k: nat, id: string)
    requires Accepted(r) && Startable(r) && 0 < k <= |r.commands| && Running(r, k).completed
    requires !Uses(r.commands[k - 1].cfg, id) && StillLacking(r, k - 1, id)
    ensures StillLacking(r, k, id)
  {
    LackingPlanned(r, k, id);
    EarlierCompletes(r, k);
    AcceptedEffect(r, k, RowOf(r.carried[id]));
  }

  /** None of the first k commands refers to the definition. */
  predicate Unused(r: SectionRun, k: nat, id: string)
    requires k <= |r.commands|
  {
    k > 0 ==> !Uses(r.commands[k - 1].cfg, id) && Unused(r, k - 1, id)
  }

  /** Until it is first referred to, an inherited definition the store lacks stays lacking: no
      accepted command can bind its name meanwhile. */
  lemma {:induction false} LackingStays(r: SectionRun, k: nat, id: string)
    requires Accepted(r) && Startable(r) && k <= |r.commands| && Running(r, k).completed
    requires StillLacking(r, 0, id) && Unused(r, k, id)
    ensures StillLacking(r, k, id)
    decreases k
  {
    if k > 0 {
      EarlierCompletes(r, k);
      LackingStays(r, k - 1, id);
      LackingStep(r, k, id);
    }
  }

  lemma {:induction false} FirstUse(r: SectionRun, id: string, k: nat) returns (first: nat)
    requires k < |r.commands| && Uses(r.commands[k].cfg, id)
    ensures first <= k && Uses(r.commands[first].cfg, id) && Unused(r, first, id)
  {
    first := 0;
    while !Uses(r.commands[first].cfg, id)
      invariant first <= k && Unused(r, first, id)
      decreases k - first
    {
      first := first + 1;
    }
  }

  /** An accepted section, whichever of its commands raise, reads only bound constants exactly when
      its start context binds every inherited definition its reached commands refer to. */
  lemma {:induction false} SectionSoundExactly(r: SectionRun)
    requires Accepted(r) && Runnable(r) && KindFits(r)
    ensures Sound(r) <==> InheritsBound(r)
  {
    if InheritsBound(r) {
      SectionSound(r);
    } else {
      var id, k :| Live(r.carried, id) && 0 <= k < |r.commands| && Reached(r.outs, k) && Uses(r.commands[k].cfg, id)
                   && !Bound(r.start, RowOf(r.carried[id]));
      var first := FirstUse(r, id, k);
      assert Reached(r.outs, first);
      ReachedCompletes(r, first);
      assert StillLacking(r, 0, id);
      LackingStays(r, first, id);
      StateConsistent(r, first);
      BoundIsFound(Running(r, first).scopes, RowOf(r.carried[id]));
      var i :| 0 <= i < |Refs(r.commands[first].cfg)| && Refs(r.commands[first].cfg)[i] == id;
      assert !ReadsBound(r, first);
    }
  }

  // ----- Exactness without assumptions on results -----

  /** Whether a row is bound after the first k commands, read off the commands and outcomes: of
      those that ran without raising, the last that touches the row decides. */
  predicate Flow(
    table: DefinitionTable, commands: seq<Command>, outs: seq<Outcome>, k: nat, row: Row, before: bool)
    requires k <= |commands| == |outs|
  {
    if k == 0 then before
    else if !Reached(outs, k) then Flow(table, commands, outs, k - 1, row, before)
    else if WrittenRow(table, commands[k - 1].cfg, outs[k - 1]) == Some(row) then true
    else if RemovedRow(table, commands[k - 1].cfg) == Some(row) then false
    else Flow(table, commands, outs, k - 1, row, before)
  }

  /** One command that is reached and does not raise. */
  lemma {:induction false} FlowStep(r: SectionRun, k: nat, row: Row)
    requires Accepted(r) && Startable(r) && 0 < k <= |r.commands| && Running(r, k).completed
    requires HasConstants(Running(r, k - 1).scopes)
    ensures var cfg, before := r.commands[k - 1].cfg, Bound(Running(r, k - 1).scopes, row);
            Bound(Running(r, k).scopes, row) <==>
              if WrittenRow(r.table, cfg, r.outs[k - 1]) == Some(row) then true
              else if RemovedRow(r.table, cfg) == Some(row) then false
              else before
  {
    var cfg, o := r.commands[k - 1].cfg, r.outs[k - 1];
    EarlierCompletes(r, k);
    AcceptedEffect(r, k, row);
    if RemovedRow(r.table, cfg) == Some(row) {
      ExecUnbinds(Running(r, k - 1).scopes, r.kind, r.table, cfg, o, row);
    }
  }

  /** A command that raises, and any after it, binds and unbinds nothing. */
  lemma {:induction false} StoppedBindsNothing(r: SectionRun, k: nat, row: Row)
    requires Accepted(r) && Startable(r) && 0 < k <= |r.commands| && !Reached(r.outs, k)
    ensures Bound(Running(r, k).scopes, row) <==> Bound(Running(r, k - 1).scopes, row)
  {
    RunningHasConstants(r, k - 1);
    if Running(r, k - 1).completed {
      CompletedIsReached(r, k - 1);
      ReachedNext(r.outs, k);
      ArtifactBound(Running(r, k - 1).scopes, r.outs[k - 1].value, row);
    }
  }

  lemma {:induction false} FlowIsBound(r: SectionRun, k: nat, row: Row)
    requires Accepted(r) && Startable(r) && KindFits(r) && k <= |r.commands|
    ensures Bound(Running(r, k).scopes, row) <==> Flow(r.table, r.commands, r.outs, k, row, Bound(r.start, row))
    decreases k
  {
    if k > 0 {
      FlowIsBound(r, k - 1, row);
      if Reached(r.outs, k) {
        FlowGoesOn(r, k, row);
      } else {
        StoppedBindsNothing(r, k, row);
      }
    }
  }

  lemma {:induction false} FlowGoesOn(r: SectionRun, k: nat, row: Row)
    requires Accepted(r) && Startable(r) && KindFits(r) && 0 < k <= |r.commands| && Reached(r.outs, k)
    ensures var cfg, before := r.commands[k - 1].cfg, Bound(Running(r, k - 1).scopes, row);
            Bound(Running(r, k).scopes, row) <==>
              if WrittenRow(r.table, cfg, r.outs[k - 1]) == Some(row) then true
              else if RemovedRow(r.table, cfg) == Some(row) then false
              else before
  {
    ReachedCompletes(r, k);
    RunningHasConstants(r, k - 1);
    FlowStep(r, k, row);
  }

  /** Every reference of every reached command was last written, not removed, by the commands before
      it, or bound from the start and not touched since. */
  ghost predicate ReadsWritten(
    table: DefinitionTable, commands: seq<Command>, outs: seq<Outcome>, initially: Row -> bool)
    requires |commands| == |outs|
  {
    forall k | 0 <= k < |commands| && Reached(outs, k) :: ReadsWrittenAt(table, commands, outs, initially, k)
  }

  ghost predicate ReadsWrittenAt(
    table: DefinitionTable, commands: seq<Command>, outs: seq<Outcome>, initially: Row -> bool, k: nat)
    requires k < |commands| == |outs|
  {
    forall i | 0 <= i < |Refs(commands[k].cfg)| ::
      var id := Refs(commands[k].cfg)[i];
      id in table && Flow(table, commands, outs, k, table[id], initially(table[id]))
  }

  /** An accepted section, whichever commands raise or return early, reads only bound constants
      exactly when the last command that touched each constant a reached command refers to wrote
      it. */
  lemma {:induction false} SectionFlowExactly(r: SectionRun, initially: Row -> bool)
    requires Accepted(r) && Startable(r) && KindFits(r)
    requires forall row :: initially(row) == Bound(r.start, row)
    ensures Sound(r) <==> ReadsWritten(r.table, r.commands, r.outs, initially)
  {
    forall k | 0 <= k < |r.commands|
      ensures Running(r, k).completed <==> Reached(r.outs, k)
      ensures ReadsBound(r, k) <==> ReadsWrittenAt(r.table, r.commands, r.outs, initially, k)
    {
      if Running(r, k).completed {
        CompletedIsReached(r, k);
      }
      if Reached(r.outs, k) {
        ReachedCompletes(r, k);
      }
      ReadsAreFlow(r, initially, k);
    }
  }

  lemma {:induction false} ReadsAreFlow(r: SectionRun, initially: Row -> bool, k: nat)
    requires Accepted(r) && Startable(r) && KindFits(r) && k < |r.commands|
    requires forall row :: initially(row) == Bound(r.start, row)
    ensures ReadsBound(r, k) <==> ReadsWrittenAt(r.table, r.commands, r.outs, initially, k)
  {
    RefsKnownAt(r, k);
    RunningHasConstants(r, k);
    forall i | 0 <= i < |Refs(r.commands[k].cfg)|
      ensures var row := r.table[Refs(r.commands[k].cfg)[i]];
              ResolveRef(Running(r, k).scopes, PathOf(row)).Found?
              <==> Flow(r.table, r.commands, r.outs, k, row, initially(row))
    {
      var row := r.table[Refs(r.commands[k].cfg)[i]];
      BoundIsFound(Running(r, k).scopes, row);
      FlowIsBound(r, k, row);
    }
  }

  // ----- What a section leaves behind -----

  /** A section that runs to its end binds every definition it hands on, if it started with all it
      inherited. */
  lemma {:induction false} CompletedBindsAll(r: SectionRun, id: string)
    requires Accepted(r) && Runnable(r) && Running(r, |r.commands|).completed
    requires forall i | Live(r.carried, i) :: Bound(r.start, RowOf(r.carried[i]))
    requires Live(DefinitionsBefore(r, |r.commands|), id)
    ensures Bound(Running(r, |r.commands|).scopes, RowOf(DefinitionsBefore(r, |r.commands|)[id]))
  {
    LiveStaysBound(r, |r.commands|, id);
  }

  /** An inherited definition the section never deletes stays bound to the end, even if the section
      stops early. */
  lemma {:induction false} UndeletedStaysBound(r: SectionRun, k: nat, id: string)
    requires Accepted(r) && Startable(r) && k <= |r.commands|
    requires Live(r.carried, id) && Bound(r.start, RowOf(r.carried[id]))
    requires forall j | 0 <= j < |r.commands| :: r.commands[j].cfg != DeleteConstant(id)
    ensures HasConstants(Running(r, k).scopes) && Bound(Running(r, k).scopes, RowOf(r.carried[id]))
    ensures Live(DefinitionsBefore(r, k), id) && DefinitionsBefore(r, k)[id] == r.carried[id]
    decreases k
  {
    if k > 0 {
      UndeletedStaysBound(r, k - 1, id);
      SurvivesCommand(r, k - 1, id);
      if Running(r, k - 1).completed {
        AcceptedEffect(r, k, RowOf(r.carried[id]));
      }
    }
  }

  lemma {:induction false} TestStepLeavesScope(r: SectionRun, k: nat, e: ConstantContext)
    requires Accepted(r) && Startable(r) && r.section.Test? && 0 < k <= |r.commands|
    requires (e == Global || e == RunEnvelope) && Running(r, k - 1).completed
    ensures Running(r, k).scopes.Get(e) == Running(r, k - 1).scopes.Get(e)
  {
    RunningHasConstants(r, k - 1);
    RunningStep(r, k);
    TestCommandLeavesScope(r, k - 1, Running(r, k - 1).scopes, Running(r, k), e);
  }

  lemma {:induction false} TestCommandLeavesScope(r: SectionRun, k: nat, s: Scopes, w: Written, e: ConstantContext)
    requires Accepted(r) && r.section.Test? && k < |r.commands| == |r.outs| && HasConstants(s)
    requires PlainTable(r.table) && (e == Global || e == RunEnvelope)
    requires w == Exec(s, r.kind, r.table, r.commands[k].cfg, r.outs[k])
    ensures w.scopes.Get(e) == s.Get(e)
  {
    TouchesWritable(r, k);
    ExecTouches(s, r.kind, r.table, r.commands[k].cfg, r.outs[k], e);
  }

  lemma {:induction false} RunningStep(r: SectionRun, k: nat)
    requires 0 < k <= |r.commands| == |r.outs| && Running(r, k - 1).completed
    ensures Running(r, k) == Exec(Running(r, k - 1).scopes, r.kind, r.table, r.commands[k - 1].cfg, r.outs[k - 1])
  {
  }

  lemma {:induction false} TestsLeaveScope(r: SectionRun, k: nat, e: ConstantContext)
    requires Accepted(r) && Startable(r) && r.section.Test? && k <= |r.commands|
    requires e == Global || e == RunEnvelope
    ensures Running(r, k).scopes.Get(e) == r.start.Get(e)
    decreases k
  {
    if k > 0 {
      TestsLeaveScope(r, k - 1, e);
      if Running(r, k - 1).completed {
        TestStepLeavesScope(r, k, e);
      }
    }
  }

  /** Running an accepted test section never changes the global scope or the run envelope. */
  lemma {:induction false} TestsLeaveSharedScopes(r: SectionRun, k: nat)
    requires Accepted(r) && Startable(r) && r.section.Test? && k <= |r.commands|
    ensures Running(r, k).scopes.global == r.start.global && Running(r, k).scopes.runEnvelope == r.start.runEnvelope
  {
    TestsLeaveScope(r, k, Global);
    TestsLeaveScope(r, k, RunEnvelope);
    assert forall s: Scopes :: s.Get(Global) == s.global && s.Get(RunEnvelope) == s.runEnvelope;
  }
}
