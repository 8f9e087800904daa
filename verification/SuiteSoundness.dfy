/** What an accepted constant graph guarantees about whole runs of the suite: what each item needs
    bound, keeps bound and binds, chained along the runner. */
module SuiteSoundness {
  import opened Prelude
  import opened PyValues
  import opened ContextStore
  import opened ContextGuards
  import opened RunContexts
  import opened ConstantGraph
  import opened ConstantGraphLaws
  import opened ConstantGraphOrder
  import opened CommandRuntime
  import opened SectionSoundness
  import opened StoredOrder
  import opened SuiteRuns

  // ----- Maps handed on -----

  /** The section as the planner saw it. */
  function PlannedRun(setting: Setting, raw: seq<RawCommand>, section: Section, inherited: Definitions): SectionRun {
    SectionRun(section, Schedule(raw), CarryOver(inherited), setting.table, KindOf(section),
               Scopes(map[], map[], map[], map[]), [])
  }

  lemma {:induction false} PlannedAccepted(
    setting: Setting, raw: seq<RawCommand>, section: Section, inherited: Definitions)
    requires SettingFits(setting) && GoodMap(setting.table, inherited)
    requires ItemFits(setting.table, raw, section) && Plan(raw, section, inherited).Ok?
    ensures var r := PlannedRun(setting, raw, section, inherited);
            && Accepted(r) && KindFits(r)
            && DefinitionsBefore(r, |r.commands|) == Plan(raw, section, inherited).value.visible
  {
    SchedulePositive(raw);
    CarryOverConsistent(inherited);
    PlanRefinesRule(raw, section, inherited);
    assert forall id | Live(CarryOver(inherited), id) :: RowOf(CarryOver(inherited)[id]) == RowOf(inherited[id]);
  }

  /** Acceptance does not look at ids. */
  lemma {:induction false} AcceptedUnderIds(planned: SectionRun, r: SectionRun)
    requires Accepted(planned) && SameButIds(planned.commands, r.commands)
    requires r.section == planned.section && r.carried == planned.carried && r.table == planned.table
    ensures Accepted(r)
    ensures AlikeAll(DefinitionsBefore(planned, |planned.commands|), DefinitionsBefore(r, |r.commands|))
  {
    var a, b := planned.commands, r.commands;
    assert forall i | 0 <= i < |a| :: Key(a[i]) == Key(b[i]);
    PlanAlike(a, b, r.section, r.carried, r.carried);
    PlanFromReaches(a, r.section, r.carried, 0);
    PlanFromReaches(b, r.section, r.carried, 0);
    assert a[0..] == a && b[0..] == b;
    DeclarationsStillAgree(r.table, a, b, r.section);
  }

  lemma {:induction false} DeclarationsStillAgree(
    table: DefinitionTable, a: seq<Command>, b: seq<Command>, section: Section)
    requires DeclarationsAgree(table, a, section) && SameButIds(a, b)
    ensures DeclarationsAgree(table, b, section)
  {
    forall k, j | 0 <= k < |b| && 0 <= j < |Declarations(b[k], section)|
      ensures var d := Declarations(b[k], section)[j]; d.id in table && table[d.id] == RowOf(d)
    {
      assert Key(a[k]) == Key(b[k]);
      DeclaredAlike(a[k], b[k], section);
      assert Alike(Declarations(a[k], section)[j], Declarations(b[k], section)[j]);
    }
  }

  /** The run of an accepted item is accepted, and hands on what was planned. */
  lemma {:induction false} ItemAccepted(
    setting: Setting, raw: seq<RawCommand>, section: Section, inherited: Definitions, s: Scopes,
    locals: map<string, Value>, position: nat)
    requires SettingFits(setting) && GoodMap(setting.table, inherited)
    requires ItemFits(setting.table, raw, section) && Plan(raw, section, inherited).Ok?
    ensures var r := ItemRun(setting, raw, section, inherited, s, locals, position);
            && Accepted(r) && KindFits(r) && SameButIds(Schedule(raw), r.commands)
            && HandsOn(DefinitionsBefore(r, |r.commands|), Plan(raw, section, inherited).value.visible)
            && HandsOn(Plan(raw, section, inherited).value.visible, DefinitionsBefore(r, |r.commands|))
  {
    var r, planned := ItemRun(setting, raw, section, inherited, s, locals, position),
                      PlannedRun(setting, raw, section, inherited);
    PlannedAccepted(setting, raw, section, inherited);
    assert Fetched(raw, setting.fetch(position, raw));
    FetchedAsPlanned(raw, r.commands);
    AcceptedUnderIds(planned, r);
    AlikeHandsOn(DefinitionsBefore(planned, |planned.commands|), DefinitionsBefore(r, |r.commands|));
  }

  /** Every live definition of the earlier map is live in the later one, in the same place. */
  ghost predicate HandsOn(earlier: Definitions, later: Definitions) {
    forall id | Live(earlier, id) :: Live(later, id) && RowOf(later[id]) == RowOf(earlier[id])
  }

  lemma {:induction false} HandsOnOn(a: Definitions, b: Definitions, c: Definitions)
    requires HandsOn(a, b) && HandsOn(b, c)
    ensures HandsOn(a, c)
  {
  }

  lemma {:induction false} AlikeHandsOn(a: Definitions, b: Definitions)
    requires AlikeAll(a, b)
    ensures HandsOn(a, b) && HandsOn(b, a)
  {
    assert forall id | id in a :: Alike(a[id], b[id]);
  }

  lemma {:induction false} HookGood(
    setting: Setting, hook: Option<seq<RawCommand>>, section: Section, inherited: Definitions)
    requires SettingFits(setting) && GoodMap(setting.table, inherited)
    requires HookFits(setting.table, hook, section) && HookMap(hook, section, inherited).Ok?
    ensures GoodMap(setting.table, HookMap(hook, section, inherited).value)
  {
    if hook.Some? {
      var r := PlannedRun(setting, hook.value, section, inherited);
      PlannedAccepted(setting, hook.value, section, inherited);
      PlanHandsOnConsistent(hook.value, section, inherited);
      StateConsistent(r, |r.commands|);
    }
  }

  ghost predicate NoneLocal(defs: Definitions) {
    forall id | Live(defs, id) :: !defs[id].context.Local?
  }

  lemma {:induction false} DeclaredWritable(commands: seq<Command>, section: Section, defs: Definitions)
    requires PlanFrom(commands, section, defs).Ok? && Local !in Writable(section) && NoneLocal(defs)
    ensures NoneLocal(PlanFrom(commands, section, defs).value)
    decreases |commands|
  {
    if commands != [] {
      DeclaredWritable(commands[1..], section, Updated(commands[0], section, defs));
    }
  }

  lemma {:induction false} BeforeAllNoneLocal(hook: Option<seq<RawCommand>>)
    requires HookMap(hook, BeforeAll, map[]).Ok?
    ensures NoneLocal(HookMap(hook, BeforeAll, map[]).value)
  {
    if hook.Some? {
      DeclaredWritable(Schedule(hook.value), BeforeAll, CarryOver(map[]));
    }
  }

  // ----- One item -----

  /** With these locals bound, the context binds every live definition. */
  ghost predicate Binds(s: Scopes, locals: map<string, Value>, defs: Definitions) {
    HasConstants(s) && forall id | Live(defs, id) :: Bound(WithLocals(s, locals), RowOf(defs[id]))
  }

  lemma {:induction false} WithLocalsBound(s: Scopes, locals: map<string, Value>, row: Row)
    requires HasConstants(s)
    ensures HasConstants(WithLocals(s, locals))
    ensures Bound(WithLocals(s, locals), row) <==> if row.context.Local? then row.name in locals else Bound(s, row)
  {
    assert s.Get(Local) == s.local;
    assert WithLocals(s, locals) == WithConstants(s, Local, locals);
    WithConstantsBound(s, Local, locals, row);
  }

  lemma {:induction false} RebindLocals(s: Scopes, locals: map<string, Value>)
    requires HasConstants(s)
    ensures WithLocals(WithLocals(s, locals), LocalsOf(s)) == s
  {
    assert s.Get(Local) == s.local;
    assert s.local["constants" := Dict(locals)]["constants" := Dict(LocalsOf(s))] == s.local;
  }

  ghost predicate AllSound(trace: seq<SectionRun>) {
    forall i | 0 <= i < |trace| :: RunSound(trace[i])
  }

  ghost predicate RunSound(r: SectionRun) {
    |r.outs| == |r.commands| && Sound(r)
  }

  /** The hooks that prepare tests ran to their end. */
  predicate HooksComplete(trace: seq<SectionRun>) {
    forall i | 0 <= i < |trace| && (trace[i].section.BeforeAll? || trace[i].section.BeforeEach?) ::
      |trace[i].outs| == |trace[i].commands| && Ended(trace[i]).completed
  }

  lemma {:induction false} AdvanceRunnable(
    setting: Setting, p: Progress, raw: seq<RawCommand>, section: Section, inherited: Definitions)
    requires HasConstants(p.scopes) && RowsArrive(setting.world)
    ensures Runnable(ItemRun(setting, raw, section, inherited, p.scopes, p.locals, p.position + 1))
  {
    WithLocalsBound(p.scopes, p.locals, Row(Local, ""));
  }

  /** A context that binds every live definition. */
  ghost predicate EndBinds(end: Scopes, defs: Definitions) {
    HasConstants(end) && forall id | Live(defs, id) :: Bound(end, RowOf(defs[id]))
  }

  /** A section that deletes nothing it inherits keeps that bound and hands it on, even if it stops
      early. */
  lemma {:induction false} SectionKeeps(r: SectionRun)
    requires Accepted(r) && Runnable(r) && InheritsAll(r)
    requires forall id, k | Live(r.carried, id) && 0 <= k < |r.commands| :: r.commands[k].cfg != DeleteConstant(id)
    ensures EndBinds(Ended(r).scopes, r.carried) && HandsOn(r.carried, DefinitionsBefore(r, |r.commands|))
  {
    RunningHasConstants(r, |r.commands|);
    forall id | Live(r.carried, id)
      ensures Bound(Ended(r).scopes, RowOf(r.carried[id])) && Live(DefinitionsBefore(r, |r.commands|), id)
      ensures DefinitionsBefore(r, |r.commands|)[id] == r.carried[id]
    {
      UndeletedStaysBound(r, |r.commands|, id);
    }
  }

  /** A section that completes binds all it hands on. */
  lemma {:induction false} SectionBinds(r: SectionRun)
    requires Accepted(r) && Runnable(r) && InheritsAll(r) && Ended(r).completed
    ensures EndBinds(Ended(r).scopes, DefinitionsBefore(r, |r.commands|))
  {
    RunningHasConstants(r, |r.commands|);
    forall id | Live(DefinitionsBefore(r, |r.commands|), id)
      ensures Bound(Ended(r).scopes, RowOf(DefinitionsBefore(r, |r.commands|)[id]))
    {
      CompletedBindsAll(r, id);
    }
  }

  /** The start context of a section binds every live definition carried into it. */
  ghost predicate InheritsAll(r: SectionRun) {
    forall id | Live(r.carried, id) :: Bound(r.start, RowOf(r.carried[id]))
  }

  /** The run of an accepted item that starts with all it inherits. */
  ghost predicate Ready(r: SectionRun) {
    Accepted(r) && Runnable(r) && InheritsAll(r)
  }

  /** The run of an item: what it needs of the definitions it inherits, and how they are carried. */
  lemma {:induction false} ItemReady(
    setting: Setting, p: Progress, raw: seq<RawCommand>, section: Section, inherited: Definitions)
    requires SettingFits(setting) && GoodMap(setting.table, inherited) && RowsArrive(setting.world)
    requires ItemFits(setting.table, raw, section) && Plan(raw, section, inherited).Ok?
    requires Binds(p.scopes, p.locals, inherited)
    ensures var r := ItemRun(setting, raw, section, inherited, p.scopes, p.locals, p.position + 1);
            && Ready(r) && SameButIds(Schedule(raw), r.commands)
            && HandsOn(DefinitionsBefore(r, |r.commands|), Plan(raw, section, inherited).value.visible)
            && HandsOn(Plan(raw, section, inherited).value.visible, DefinitionsBefore(r, |r.commands|))
            && HandsOn(inherited, r.carried) && HandsOn(r.carried, inherited)
  {
    ItemAccepted(setting, raw, section, inherited, p.scopes, p.locals, p.position + 1);
    AdvanceRunnable(setting, p, raw, section, inherited);
    CarryOverConsistent(inherited);
  }

  /** Restoring the locals leaves the context an item ended with, its own locals beside it. */
  lemma {:induction false} LocalsRestored(p: Progress, r: SectionRun, end: Written, defs: Definitions)
    requires HasConstants(end.scopes)
    ensures HasConstants(AfterItem(p, r, end).scopes)
    ensures EndBinds(end.scopes, defs) ==> Binds(AfterItem(p, r, end).scopes, AfterItem(p, r, end).locals, defs)
  {
    WithLocalsBound(end.scopes, LocalsOf(p.scopes), Row(Local, ""));
    RebindLocals(end.scopes, LocalsOf(p.scopes));
  }

  lemma {:induction false} OneMoreSound(trace: seq<SectionRun>, r: SectionRun)
    requires AllSound(trace) && RunSound(r)
    ensures AllSound(trace + [r])
  {
    forall i | 0 <= i < |trace + [r]|
      ensures RunSound((trace + [r])[i])
    {
      assert (trace + [r])[i] == if i < |trace| then trace[i] else r;
    }
  }

  /** One item of a run is sound if what it inherits is bound. */
  lemma {:induction false} ReadyReads(p: Progress, r: SectionRun)
    requires Ready(r) && AllSound(p.trace)
    ensures AllSound(AfterItem(p, r, Ended(r)).trace) && HasConstants(AfterItem(p, r, Ended(r)).scopes)
  {
    SectionSound(r);
    OneMoreSound(p.trace, r);
    RunningHasConstants(r, |r.commands|);
    LocalsRestored(p, r, Ended(r), r.carried);
  }

  /** It keeps what it inherits bound, and hands it on, if it deletes none of it. */
  lemma {:induction false} ReadyKeeps(p: Progress, r: SectionRun, inherited: Definitions, visible: Definitions)
    requires Ready(r) && HandsOn(inherited, r.carried) && HandsOn(r.carried, inherited)
    requires HandsOn(DefinitionsBefore(r, |r.commands|), visible)
    requires forall id, k | Live(inherited, id) && 0 <= k < |r.commands| :: r.commands[k].cfg != DeleteConstant(id)
    ensures var p' := AfterItem(p, r, Ended(r)); Binds(p'.scopes, p'.locals, inherited)
    ensures HandsOn(inherited, visible)
  {
    SectionKeeps(r);
    LocalsRestored(p, r, Ended(r), r.carried);
    HandsOnOn(inherited, r.carried, DefinitionsBefore(r, |r.commands|));
    HandsOnOn(inherited, DefinitionsBefore(r, |r.commands|), visible);
  }

  /** It binds all it hands on if it completes. */
  lemma {:induction false} ReadyBinds(p: Progress, r: SectionRun, visible: Definitions)
    requires Ready(r) && Ended(r).completed && HandsOn(visible, DefinitionsBefore(r, |r.commands|))
    ensures var p' := AfterItem(p, r, Ended(r)); Binds(p'.scopes, p'.locals, visible)
  {
    var p' := AfterItem(p, r, Ended(r));
    SectionBinds(r);
    LocalsRestored(p, r, Ended(r), DefinitionsBefore(r, |r.commands|));
    BindsEarlier(p'.scopes, p'.locals, visible, DefinitionsBefore(r, |r.commands|));
  }

  lemma {:induction false} StillKeeps(raw: seq<RawCommand>, inherited: Definitions, commands: seq<Command>)
    requires KeepsInherited(raw, inherited) && SameButIds(Schedule(raw), commands)
    ensures forall id, k | Live(inherited, id) && 0 <= k < |commands| :: commands[k].cfg != DeleteConstant(id)
  {
    assert forall k | 0 <= k < |commands| :: Key(Schedule(raw)[k]) == Key(commands[k]);
  }

  lemma {:induction false} ItemReads(
    setting: Setting, p: Progress, raw: seq<RawCommand>, section: Section, inherited: Definitions)
    requires SettingFits(setting) && GoodMap(setting.table, inherited) && RowsArrive(setting.world)
    requires ItemFits(setting.table, raw, section) && Plan(raw, section, inherited).Ok?
    requires Binds(p.scopes, p.locals, inherited) && AllSound(p.trace)
    ensures var r := ItemRun(setting, raw, section, inherited, p.scopes, p.locals, p.position + 1);
            AllSound(AfterItem(p, r, Ended(r)).trace) && HasConstants(AfterItem(p, r, Ended(r)).scopes)
  {
    ItemReady(setting, p, raw, section, inherited);
    ReadyReads(p, ItemRun(setting, raw, section, inherited, p.scopes, p.locals, p.position + 1));
  }

  lemma {:induction false} ItemKeeps(
    setting: Setting, p: Progress, raw: seq<RawCommand>, section: Section, inherited: Definitions)
    requires SettingFits(setting) && GoodMap(setting.table, inherited) && RowsArrive(setting.world)
    requires ItemFits(setting.table, raw, section) && Plan(raw, section, inherited).Ok?
    requires Binds(p.scopes, p.locals, inherited) && KeepsInherited(raw, inherited)
    ensures var r := ItemRun(setting, raw, section, inherited, p.scopes, p.locals, p.position + 1);
            Binds(AfterItem(p, r, Ended(r)).scopes, AfterItem(p, r, Ended(r)).locals, inherited)
    ensures HandsOn(inherited, Plan(raw, section, inherited).value.visible)
  {
    var r := ItemRun(setting, raw, section, inherited, p.scopes, p.locals, p.position + 1);
    ItemReady(setting, p, raw, section, inherited);
    StillKeeps(raw, inherited, r.commands);
    ReadyKeeps(p, r, inherited, Plan(raw, section, inherited).value.visible);
  }

  lemma {:induction false} ItemBinds(
    setting: Setting, p: Progress, raw: seq<RawCommand>, section: Section, inherited: Definitions)
    requires SettingFits(setting) && GoodMap(setting.table, inherited) && RowsArrive(setting.world)
    requires ItemFits(setting.table, raw, section) && Plan(raw, section, inherited).Ok?
    requires Binds(p.scopes, p.locals, inherited)
    requires Ended(ItemRun(setting, raw, section, inherited, p.scopes, p.locals, p.position + 1)).completed
    ensures var r := ItemRun(setting, raw, section, inherited, p.scopes, p.locals, p.position + 1);
            Binds(AfterItem(p, r, Ended(r)).scopes, AfterItem(p, r, Ended(r)).locals,
                  Plan(raw, section, inherited).value.visible)
  {
    ItemReady(setting, p, raw, section, inherited);
    ReadyBinds(p, ItemRun(setting, raw, section, inherited, p.scopes, p.locals, p.position + 1),
               Plan(raw, section, inherited).value.visible);
  }

  /** The same for a hook that may be missing. */
  lemma {:induction false} AdvanceReads(
    setting: Setting, p: Progress, item: Option<seq<RawCommand>>, section: Section, inherited: Definitions)
    requires SettingFits(setting) && GoodMap(setting.table, inherited) && RowsArrive(setting.world)
    requires HookFits(setting.table, item, section) && HookMap(item, section, inherited).Ok?
    requires Binds(p.scopes, p.locals, inherited) && AllSound(p.trace)
    ensures var p' := Advance(setting, p, item, section, inherited);
            AllSound(p'.trace) && HasConstants(p'.scopes)
  {
    match item {
      case None =>
      case Some(raw) =>
        ItemReads(setting, p, raw, section, inherited);
        AdvanceIs(setting, p, raw, section, inherited,
                  ItemRun(setting, raw, section, inherited, p.scopes, p.locals, p.position + 1));
    }
  }

  lemma {:induction false} AdvanceKeeps(
    setting: Setting, p: Progress, item: Option<seq<RawCommand>>, section: Section, inherited: Definitions)
    requires SettingFits(setting) && GoodMap(setting.table, inherited) && RowsArrive(setting.world)
    requires HookFits(setting.table, item, section) && HookMap(item, section, inherited).Ok?
    requires HookKeepsInherited(item, inherited) && Binds(p.scopes, p.locals, inherited)
    ensures var p' := Advance(setting, p, item, section, inherited); Binds(p'.scopes, p'.locals, inherited)
    ensures HandsOn(inherited, HookMap(item, section, inherited).value)
  {
    match item {
      case None =>
      case Some(raw) =>
        ItemKeeps(setting, p, raw, section, inherited);
        AdvanceIs(setting, p, raw, section, inherited,
                  ItemRun(setting, raw, section, inherited, p.scopes, p.locals, p.position + 1));
    }
  }

  lemma {:induction false} AdvanceBinds(
    setting: Setting, p: Progress, item: Option<seq<RawCommand>>, section: Section, inherited: Definitions,
    later: seq<SectionRun>)
    requires SettingFits(setting) && GoodMap(setting.table, inherited) && RowsArrive(setting.world)
    requires HookFits(setting.table, item, section) && HookMap(item, section, inherited).Ok?
    requires Binds(p.scopes, p.locals, inherited) && (section.BeforeAll? || section.BeforeEach?)
    requires Advance(setting, p, item, section, inherited).trace <= later && HooksComplete(later)
    ensures var p' := Advance(setting, p, item, section, inherited);
            Binds(p'.scopes, p'.locals, HookMap(item, section, inherited).value)
  {
    match item {
      case None =>
      case Some(raw) =>
        AdvanceIs(setting, p, raw, section, inherited,
                  ItemRun(setting, raw, section, inherited, p.scopes, p.locals, p.position + 1));
        LastCompletes(Advance(setting, p, item, section, inherited).trace, later);
        ItemBinds(setting, p, raw, section, inherited);
    }
  }

  // ----- One test with its hooks -----

  /** The suite was accepted, its table built from it, and nothing that runs once per test deletes
      what it inherits. */
  ghost predicate SuiteReady(setting: Setting, suite: Suite, all: Definitions, each: Definitions) {
    && SuiteFits(setting, suite)
    && MapsOf(suite, all, each)
    && PerTestItemsKeepInherited(suite, all, each)
    && RowsArrive(setting.world)
  }

  lemma {:induction false} MapsGood(setting: Setting, suite: Suite, all: Definitions, each: Definitions)
    requires SuiteFits(setting, suite) && MapsOf(suite, all, each)
    ensures GoodMap(setting.table, map[]) && GoodMap(setting.table, all) && GoodMap(setting.table, each) && NoneLocal(all)
  {
    HookGood(setting, suite.beforeAll, BeforeAll, map[]);
    HookGood(setting, suite.beforeEach, BeforeEach, all);
    BeforeAllNoneLocal(suite.beforeAll);
  }

  lemma {:induction false} TestPlanned(tests: seq<SuiteTest>, initial: Definitions, i: nat)
    requires TestsError(tests, initial).None? && i < |tests|
    ensures Plan(tests[i].commands, Test, initial).Ok?
    decreases i
  {
    if i > 0 {
      TestPlanned(tests[1..], initial, i - 1);
    }
  }

  lemma {:induction false} SharedSurvives(s: Scopes, a: map<string, Value>, b: map<string, Value>, defs: Definitions)
    requires Binds(s, a, defs) && NoneLocal(defs)
    ensures Binds(s, b, defs) && Binds(WithLocals(s, a), b, defs)
  {
    WithLocalsBound(s, a, Row(Local, ""));
    forall id | Live(defs, id)
      ensures Bound(WithLocals(s, b), RowOf(defs[id]))
      ensures Bound(WithLocals(WithLocals(s, a), b), RowOf(defs[id]))
    {
      WithLocalsBound(s, a, RowOf(defs[id]));
      WithLocalsBound(s, b, RowOf(defs[id]));
      WithLocalsBound(WithLocals(s, a), b, RowOf(defs[id]));
    }
  }

  /** What the inherited map holds of an earlier one, the store binds as well. */
  lemma {:induction false} BindsEarlier(s: Scopes, locals: map<string, Value>, earlier: Definitions, later: Definitions)
    requires Binds(s, locals, later)
    requires HandsOn(earlier, later)
    ensures Binds(s, locals, earlier)
  {
  }

  /** The start of a group: once beforeEach has completed, all that tests inherit is bound. */
  lemma {:induction false} GroupStart(
    setting: Setting, suite: Suite, all: Definitions, each: Definitions, p: Progress, later: seq<SectionRun>)
    requires SuiteReady(setting, suite, all, each)
    requires Binds(p.scopes, p.locals, all) && AllSound(p.trace)
    requires Advance(setting, p, suite.beforeEach, BeforeEach, all).trace <= later && HooksComplete(later)
    ensures var p1 := Advance(setting, p, suite.beforeEach, BeforeEach, all);
            AllSound(p1.trace) && Binds(p1.scopes, p1.locals, each)
    ensures HandsOn(all, each)
  {
    MapsGood(setting, suite, all, each);
    AdvanceReads(setting, p, suite.beforeEach, BeforeEach, all);
    AdvanceKeeps(setting, p, suite.beforeEach, BeforeEach, all);
    AdvanceBinds(setting, p, suite.beforeEach, BeforeEach, all, later);
  }

  lemma {:induction false} GroupEnd(p: Progress, all: Definitions, each: Definitions)
    requires Binds(p.scopes, p.locals, each) && NoneLocal(all)
    requires HandsOn(all, each)
    ensures Binds(WithLocals(p.scopes, map[]), map[], all)
  {
    BindsEarlier(p.scopes, p.locals, all, each);
    SharedSurvives(p.scopes, p.locals, map[], all);
    WithLocalsBound(p.scopes, map[], Row(Local, ""));
    SharedSurvives(p.scopes, map[], map[], all);
  }

  /** A test group reads only bound constants if its beforeEach completes, and keeps the constants
      of beforeAll bound for the next one. */
  lemma {:induction false} GroupSound(
    setting: Setting, suite: Suite, all: Definitions, each: Definitions, p: Progress, i: nat)
    requires SuiteReady(setting, suite, all, each) && i < |suite.tests|
    requires Binds(p.scopes, map[], all) && AllSound(p.trace)
    requires HooksComplete(TestGroup(setting, suite, all, each, p, suite.tests[i]).trace)
    ensures var next := TestGroup(setting, suite, all, each, p, suite.tests[i]);
            AllSound(next.trace) && Binds(next.scopes, map[], all)
  {
    MapsGood(setting, suite, all, each);
    TestPlanned(suite.tests, each, i);
    var test := Some(suite.tests[i].commands);
    var p0 := p.(locals := map[], failed := false);
    var p1 := Advance(setting, p0, suite.beforeEach, BeforeEach, all);
    var p2 := Advance(setting, p1, test, Test, each);
    var p3 := Advance(setting, p2, suite.afterEach, AfterEach, each);
    TraceGrows(setting, p1, test, Test, each);
    TraceGrows(setting, p2, suite.afterEach, AfterEach, each);
    GroupStart(setting, suite, all, each, p0, p3.trace);
    AdvanceReads(setting, p1, test, Test, each);
    AdvanceKeeps(setting, p1, test, Test, each);
    AdvanceReads(setting, p2, suite.afterEach, AfterEach, each);
    AdvanceKeeps(setting, p2, suite.afterEach, AfterEach, each);
    GroupEnd(p3, all, each);
  }

  lemma {:induction false} TraceGrows(
    setting: Setting, p: Progress, item: Option<seq<RawCommand>>, section: Section, inherited: Definitions)
    ensures p.trace <= Advance(setting, p, item, section, inherited).trace
  {
  }

  lemma {:induction false} LastCompletes(a: seq<SectionRun>, b: seq<SectionRun>)
    requires a != [] && a <= b && HooksComplete(b)
    requires a[|a| - 1].section.BeforeEach? || a[|a| - 1].section.BeforeAll?
    requires |a[|a| - 1].outs| == |a[|a| - 1].commands|
    ensures Ended(a[|a| - 1]).completed
  {
    assert b[|a| - 1] == a[|a| - 1];
  }

  // ----- Whole runs -----

  lemma {:induction false} GroupsGrow(
    setting: Setting, suite: Suite, all: Definitions, each: Definitions, p: Progress, tests: seq<SuiteTest>)
    ensures p.trace <= TestGroups(setting, suite, all, each, p, tests).trace
    decreases |tests|
  {
    if tests != [] {
      var next := TestGroup(setting, suite, all, each, p, tests[0]);
      GroupsGrow(setting, suite, all, each, next, tests[1..]);
    }
  }

  lemma {:induction false} CompletePrefix(a: seq<SectionRun>, b: seq<SectionRun>)
    requires a <= b && HooksComplete(b)
    ensures HooksComplete(a)
  {
    assert forall i | 0 <= i < |a| :: a[i] == b[i];
  }

  lemma {:induction false} GroupsSound(
    setting: Setting, suite: Suite, all: Definitions, each: Definitions, p: Progress, i: nat)
    requires SuiteReady(setting, suite, all, each) && i <= |suite.tests|
    requires Binds(p.scopes, map[], all) && AllSound(p.trace)
    requires HooksComplete(TestGroups(setting, suite, all, each, p, suite.tests[i..]).trace)
    ensures var end := TestGroups(setting, suite, all, each, p, suite.tests[i..]);
            AllSound(end.trace) && Binds(end.scopes, map[], all)
    decreases |suite.tests| - i
  {
    if i < |suite.tests| {
      var tests := suite.tests[i..];
      assert tests[0] == suite.tests[i] && tests[1..] == suite.tests[i + 1..];
      var next := TestGroup(setting, suite, all, each, p, tests[0]);
      GroupsGrow(setting, suite, all, each, next, tests[1..]);
      CompletePrefix(next.trace, TestGroups(setting, suite, all, each, p, tests).trace);
      GroupSound(setting, suite, all, each, p, i);
      if !(next.failed && tests[0].abortOnFailure) {
        GroupsSound(setting, suite, all, each, next, i + 1);
      }
    }
  }

  /** After beforeAll has completed, all it declares is bound, whatever locals come next. */
  lemma {:induction false} SuiteStart(
    setting: Setting, suite: Suite, all: Definitions, each: Definitions, start: Scopes, later: seq<SectionRun>)
    requires SuiteReady(setting, suite, all, each) && HasConstants(start)
    requires Advance(setting, Progress([], start, map[], 0, false), suite.beforeAll, BeforeAll, map[]).trace <= later
    requires HooksComplete(later)
    ensures var p1 := Advance(setting, Progress([], start, map[], 0, false), suite.beforeAll, BeforeAll, map[]);
            AllSound(p1.trace) && Binds(p1.scopes, map[], all)
  {
    MapsGood(setting, suite, all, each);
    var p0 := Progress([], start, map[], 0, false);
    var p1 := Advance(setting, p0, suite.beforeAll, BeforeAll, map[]);
    AdvanceReads(setting, p0, suite.beforeAll, BeforeAll, map[]);
    AdvanceBinds(setting, p0, suite.beforeAll, BeforeAll, map[], later);
    SharedSurvives(p1.scopes, p1.locals, map[], all);
  }

  /** Suite soundness for a run whose preparing hooks run to their end; `SuiteCourses.SuiteSound`
      reads that off the outcomes of their commands. */
  lemma {:induction false} CompleteSuiteSound(
    setting: Setting, suite: Suite, all: Definitions, each: Definitions, start: Scopes)
    requires SuiteReady(setting, suite, all, each) && HasConstants(start)
    requires HooksComplete(SuiteTrace(setting, suite, all, each, start))
    ensures AllSound(SuiteTrace(setting, suite, all, each, start))
  {
    var p1 := Advance(setting, Progress([], start, map[], 0, false), suite.beforeAll, BeforeAll, map[]);
    var p2 := if p1.failed then p1 else TestGroups(setting, suite, all, each, p1, suite.tests);
    var trace := SuiteTrace(setting, suite, all, each, start);
    TraceGrows(setting, p2.(locals := map[]), suite.afterAll, AfterAll, all);
    GroupsGrow(setting, suite, all, each, p1, suite.tests);
    SuiteStart(setting, suite, all, each, start, trace);
    if !p1.failed {
      CompletePrefix(p2.trace, trace);
      assert suite.tests[0..] == suite.tests;
      GroupsSound(setting, suite, all, each, p1, 0);
    }
    AfterAllSound(setting, suite, all, each, p2);
  }

  lemma {:induction false} AfterAllSound(
    setting: Setting, suite: Suite, all: Definitions, each: Definitions, p: Progress)
    requires SuiteReady(setting, suite, all, each) && Binds(p.scopes, map[], all) && AllSound(p.trace)
    ensures AllSound(Advance(setting, p.(locals := map[]), suite.afterAll, AfterAll, all).trace)
  {
    MapsGood(setting, suite, all, each);
    AdvanceReads(setting, p.(locals := map[]), suite.afterAll, AfterAll, all);
  }
}
