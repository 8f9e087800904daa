/** What a reached command finds under the constants in its own fields: that they are bound, and
    which values they hold. */
module SectionReadings {
  import opened Prelude
  import opened ContextStore
  import opened ContextGuards
  import opened ConstantGraph
  import opened ConstantGraphLaws
  import opened ConstantGraphMeaning
  import opened CommandRuntime
  import opened CommandValues
  import opened SectionSoundness
  import opened SuiteRuns
  import opened SuiteSoundness
  import opened SuiteCourses

  /** The id has a definition, and resolving its path finds a value. */
  predicate Finds(r: SectionRun, k: nat, id: string)
    requires k < |r.commands| == |r.outs|
  {
    id in r.table && ResolveRef(Running(r, k).scopes, PathOf(r.table[id])).Found?
  }

  /** The constants in the fields of command k are found when it is reached. */
  predicate FindsItsConstants(r: SectionRun, k: nat)
    requires k < |r.commands| == |r.outs|
  {
    match r.commands[k].cfg
    case InitConstant(_, _, _, _, _) => true
    case Action(_) => true
    case DeleteConstant(target) => Finds(r, k, target)
    case SendMessageQueue(source, _) => Finds(r, k, source)
    case SaveTable(source, _) => Finds(r, k, source)
    case ExportDataset(source, _) => Finds(r, k, source)
    case RunSuite(constants, _) => forall i | 0 <= i < |constants| :: Finds(r, k, constants[i])
    case Assert(_, actual) => Finds(r, k, actual)
  }

  lemma {:induction false} OneIsFound(r: SectionRun, k: nat, id: string)
    requires k < |r.commands| == |r.outs| && |Refs(r.commands[k].cfg)| == 1 && Refs(r.commands[k].cfg)[0] == id
    ensures ReadsBound(r, k) <==> Finds(r, k, id)
  {
  }

  /** Reading only bound constants is finding those in the fields. */
  lemma {:induction false} BoundIsFinding(r: SectionRun, k: nat)
    requires k < |r.commands| == |r.outs|
    ensures ReadsBound(r, k) <==> FindsItsConstants(r, k)
  {
    var cfg := r.commands[k].cfg;
    if cfg.DeleteConstant? {
      OneIsFound(r, k, cfg.target);
    } else if cfg.SendMessageQueue? || cfg.SaveTable? || cfg.ExportDataset? {
      OneIsFound(r, k, cfg.source);
    } else if cfg.Assert? {
      OneIsFound(r, k, cfg.actual);
    } else if cfg.RunSuite? {
      assert Refs(cfg) == cfg.constants;
      assert forall i | 0 <= i < |cfg.constants| :: Finds(r, k, cfg.constants[i]) <==> Finds(r, k, Refs(cfg)[i]);
    }
  }

  /** From a store binding what its reached commands inherit, every reached command of an accepted
      section finds the constants in its fields, whichever commands raise. */
  lemma {:induction false} SectionFinds(r: SectionRun, k: nat)
    requires Accepted(r) && Runnable(r) && InheritsBound(r)
    requires k < |r.commands| && Running(r, k).completed
    ensures FindsItsConstants(r, k)
  {
    SectionSound(r);
    BoundIsFinding(r, k);
  }

  /** So does every reached command of an accepted suite. */
  lemma {:induction false} SuiteFinds(
    setting: Setting, suite: Suite, all: Definitions, each: Definitions, start: Scopes, i: nat, k: nat)
    requires SuiteReady(setting, suite, all, each) && HasConstants(start)
    requires HooksUntroubled(SuiteCourse(setting, suite))
    requires i < |SuiteTrace(setting, suite, all, each, start)|
    requires var r := SuiteTrace(setting, suite, all, each, start)[i];
             |r.commands| == |r.outs| && k < |r.commands| && Running(r, k).completed
    ensures FindsItsConstants(SuiteTrace(setting, suite, all, each, start)[i], k)
  {
    SuiteSound(setting, suite, all, each, start);
    BoundIsFinding(SuiteTrace(setting, suite, all, each, start)[i], k);
  }

  // ----- The values found -----

  /** A definition that stands is live for the planner. */
  lemma {:induction false} StandsIsLive(r: SectionRun, k: nat, id: string, d: PlannedDefinition, j: nat)
    requires j < k <= |r.commands| && DeclaredAt(r.commands, r.section, k, id, d, j)
    ensures Live(DefinitionsBefore(r, k), id) && DefinitionsBefore(r, k)[id] == d
    decreases k
  {
    DeclaresExactly(r.commands[j], r.section, d);
    if j + 1 < k {
      DeclaredAtGrows(r.commands, r.section, k - 1, id, d, j);
      StandsIsLive(r, k - 1, id, d, j);
      TouchesExactly(r.commands[k - 1], r.section, id);
    }
  }

  /** No command of an accepted section touches the row of a constant declared before it, unless it
      declares or deletes that constant itself. */
  lemma {:induction false} RowIsItsOwn(r: SectionRun, k: nat, id: string)
    requires Accepted(r) && k < |r.commands| == |r.outs|
    requires Live(DefinitionsBefore(r, k), id) && !Touches(r.commands[k], id)
    ensures TouchedRow(r.table, r.commands[k].cfg, r.outs[k]) != Some(RowOf(DefinitionsBefore(r, k)[id]))
  {
    SurvivesCommand(r, k, id);
  }

  lemma {:induction false} RowLeftAlone(r: SectionRun, k: nat, id: string, d: PlannedDefinition, j: nat)
    requires Accepted(r) && j < k <= |r.commands| == |r.outs| && DeclaredAt(r.commands, r.section, k, id, d, j)
    ensures LeftAlone(r.table, r.commands, r.outs, j + 1, k, RowOf(d))
    decreases k
  {
    if j + 1 < k {
      DeclaredAtGrows(r.commands, r.section, k - 1, id, d, j);
      RowLeftAlone(r, k - 1, id, d, j);
      StandsIsLive(r, k - 1, id, d, j);
      RowIsItsOwn(r, k - 1, id);
    }
  }

  lemma {:induction false} AcceptedIsPlain(r: SectionRun)
    requires Accepted(r)
    ensures PlainTable(r.table) && PlainCommands(r.commands)
  {
    forall i | 0 <= i < |r.commands| ensures PlainCfg(r.commands[i].cfg) {
      PlainCommand(r, i);
    }
  }

  /** Under a constant that stands for a declaration of the section, a reached command finds the
      value of the command that declared it. */
  lemma {:induction false} DeclaredValueIsFound(r: SectionRun, k: nat, id: string, d: PlannedDefinition, j: nat)
    requires Accepted(r) && Runnable(r) && j < k <= |r.commands| && Running(r, k).completed
    requires DeclaredAt(r.commands, r.section, k, id, d, j)
    ensures id in r.table && r.table[id] == RowOf(d)
    ensures ResolveRef(Running(r, k).scopes, PathOf(r.table[id])) == Found(r.outs[j].value)
  {
    StandsIsLive(r, k, id, d, j);
    StateConsistent(r, k);
    AcceptedIsPlain(r);
    DeclaringWrites(r, k, d, j);
    RowLeftAlone(r, k, id, d, j);
    LastTouchDecides(r.start, r.kind, r.table, r.commands, r.outs, j, k, RowOf(d));
  }

  lemma {:induction false} DeclaringWrites(r: SectionRun, k: nat, d: PlannedDefinition, j: nat)
    requires Accepted(r) && Runnable(r) && j < k <= |r.commands| && Running(r, k).completed
    requires Declares(r.commands[j], r.section, d)
    ensures !r.commands[j].cfg.DeleteConstant?
    ensures TouchedRow(r.table, r.commands[j].cfg, r.outs[j]) == Some(RowOf(d))
  {
    CompletedIsReached(r, k);
    DeclaresExactly(r.commands[j], r.section, d);
    WritesDeclared(r, j);
  }

  /** Under an inherited one that still stands, it finds what the section started with. */
  lemma {:induction false} InheritedValueIsFound(r: SectionRun, k: nat, id: string)
    requires Accepted(r) && Startable(r) && k <= |r.commands|
    requires Live(r.carried, id) && Undisturbed(r.commands, 0, k, id)
    ensures id in r.table && r.table[id] == RowOf(r.carried[id])
    ensures ResolveRef(Running(r, k).scopes, PathOf(r.table[id])) == ResolveRef(r.start, PathOf(r.table[id]))
  {
    AcceptedIsPlain(r);
    StateConsistent(r, 0);
    InheritedLeftAlone(r, k, id);
    LeftAloneReads(r.start, r.kind, r.table, r.commands, r.outs, 0, k, RowOf(r.carried[id]));
  }

  lemma {:induction false} InheritedStays(r: SectionRun, k: nat, id: string)
    requires Accepted(r) && 0 < k <= |r.commands| == |r.outs| && !Touches(r.commands[k - 1], id)
    requires Live(r.carried, id)
    requires Live(DefinitionsBefore(r, k - 1), id) && DefinitionsBefore(r, k - 1)[id] == r.carried[id]
    ensures Live(DefinitionsBefore(r, k), id) && DefinitionsBefore(r, k)[id] == r.carried[id]
    ensures TouchedRow(r.table, r.commands[k - 1].cfg, r.outs[k - 1]) != Some(RowOf(r.carried[id]))
  {
    SurvivesCommand(r, k - 1, id);
  }

  lemma {:induction false} InheritedLives(r: SectionRun, k: nat, id: string)
    requires Accepted(r) && k <= |r.commands| == |r.outs|
    requires Live(r.carried, id) && Undisturbed(r.commands, 0, k, id)
    ensures Live(DefinitionsBefore(r, k), id) && DefinitionsBefore(r, k)[id] == r.carried[id]
    decreases k
  {
    if k > 0 {
      UndisturbedGrows(r.commands, 0, k, id);
      InheritedLives(r, k - 1, id);
      InheritedStays(r, k, id);
    }
  }

  lemma {:induction false} InheritedLeftAlone(r: SectionRun, k: nat, id: string)
    requires Accepted(r) && k <= |r.commands| == |r.outs|
    requires Live(r.carried, id) && Undisturbed(r.commands, 0, k, id)
    ensures LeftAlone(r.table, r.commands, r.outs, 0, k, RowOf(r.carried[id]))
  {
    forall i | 0 <= i < k ensures TouchedRow(r.table, r.commands[i].cfg, r.outs[i]) != Some(RowOf(r.carried[id])) {
      InheritedLives(r, i, id);
      InheritedStays(r, i + 1, id);
    }
  }
}
