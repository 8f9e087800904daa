/** A whole test suite: the check of its constant graph, and the runner that executes its hooks and
    tests (test_suite_executor_thread.py) with fresh locals for every test. */
module SuiteRuns {
  import opened Prelude
  import opened PyValues
  import opened ContextStore
  import opened RunContexts
  import opened ConstantGraph
  import opened ConstantGraphLaws
  import opened CommandRuntime
  import opened SectionSoundness
  import opened StoredOrder

  /** A test and what its failure does to the tests after it. */
  datatype SuiteTest = SuiteTest(commands: seq<RawCommand>, abortOnFailure: bool)

  datatype Suite = Suite(
    beforeAll: Option<seq<RawCommand>>, beforeEach: Option<seq<RawCommand>>, tests: seq<SuiteTest>,
    afterEach: Option<seq<RawCommand>>, afterAll: Option<seq<RawCommand>>)

  // ----- validate_suite_constant_graph -----

  /** What planning a hook hands on: its own map, or the inherited one where there is no hook. */
  function HookMap(
    hook: Option<seq<RawCommand>>, section: Section, initial: Definitions): Result<Definitions, PlanError> {
    match hook
    case None => Ok(initial)
    case Some(raw) =>
      match Plan(raw, section, initial)
      case Raised(e) => Raised(e)
      case Ok(planned) => Ok(planned.visible)
  }

  function TestsError(tests: seq<SuiteTest>, initial: Definitions): Option<PlanError> {
    if tests == [] then None
    else
      match Plan(tests[0].commands, Test, initial)
      case Raised(e) => Some(e)
      case Ok(_) => TestsError(tests[1..], initial)
  }

  function ErrorOf<T>(r: Result<T, PlanError>): Option<PlanError> {
    match r
    case Ok(_) => None
    case Raised(e) => Some(e)
  }

  /** The first refusal in the order the sections are planned. */
  function SuiteError(suite: Suite): Option<PlanError> {
    match HookMap(suite.beforeAll, BeforeAll, map[])
    case Raised(e) => Some(e)
    case Ok(all) =>
      match HookMap(suite.beforeEach, BeforeEach, all)
      case Raised(e) => Some(e)
      case Ok(each) =>
        if TestsError(suite.tests, each).Some? then TestsError(suite.tests, each)
        else if HookMap(suite.afterEach, AfterEach, each).Raised? then ErrorOf(HookMap(suite.afterEach, AfterEach, each))
        else ErrorOf(HookMap(suite.afterAll, AfterAll, all))
  }

  method PlanHook(hook: Option<seq<RawCommand>>, section: Section, initial: Definitions)
    returns (r: Result<Definitions, PlanError>)
    ensures r == HookMap(hook, section, initial)
  {
    match hook
    case None => r := Ok(initial);
    case Some(raw) =>
      var planned := PlanDefinitionsForCommands(raw, section, initial);
      match planned
      case Raised(e) => r := Raised(e);
      case Ok(p) => r := Ok(p.visible);
  }

  method ValidateSuiteConstantGraph(suite: Suite) returns (refused: Option<PlanError>)
    ensures refused == SuiteError(suite)
  {
    var all := PlanHook(suite.beforeAll, BeforeAll, map[]);
    if all.Raised? {
      return Some(all.error);
    }
    var each := PlanHook(suite.beforeEach, BeforeEach, all.value);
    if each.Raised? {
      return Some(each.error);
    }
    for i := 0 to |suite.tests|
      invariant TestsError(suite.tests, each.value) == TestsError(suite.tests[i..], each.value)
    {
      var planned := PlanDefinitionsForCommands(suite.tests[i].commands, Test, each.value);
      if planned.Raised? {
        return Some(planned.error);
      }
    }
    var afterEach := PlanHook(suite.afterEach, AfterEach, each.value);
    if afterEach.Raised? {
      return Some(afterEach.error);
    }
    var afterAll := PlanHook(suite.afterAll, AfterAll, all.value);
    refused := ErrorOf(afterAll);
  }

  // ----- The runner -----

  /** How the k-th command of the item at a position turns out, the target policy apart. */
  type World = (nat, nat) -> Outcome

  /** The stored commands of the item at a position, as the database returns them. */
  type Fetch = (nat, seq<RawCommand>) -> seq<Command>

  function KindOf(section: Section): ItemKind {
    if section.Test? then TestItem else HookItem
  }

  /** The outcomes of an item's commands, those the policy refuses raising. */
  function ItemOuts(world: World, commands: seq<Command>, section: Section, position: nat): (outs: seq<Outcome>)
    ensures |outs| == |commands|
  {
    seq(|commands|, k requires 0 <= k < |commands| => Screen(KindOf(section), commands[k].cfg, world(position, k)))
  }

  /** What stays fixed during a run. */
  datatype Setting = Setting(table: DefinitionTable, world: World, fetch: Fetch)

  /** The execution of one item, its commands as stored and its locals bound for its duration. */
  function ItemRun(setting: Setting, raw: seq<RawCommand>, section: Section, inherited: Definitions,
                   s: Scopes, locals: map<string, Value>, position: nat): (r: SectionRun)
    ensures |r.outs| == |r.commands|
  {
    var commands := setting.fetch(position, raw);
    SectionRun(section, commands, CarryOver(inherited), setting.table, KindOf(section),
               WithLocals(s, locals), ItemOuts(setting.world, commands, section, position))
  }

  function Ended(r: SectionRun): Written
    requires |r.outs| == |r.commands|
  {
    Running(r, |r.commands|)
  }

  function LocalsOf(s: Scopes): map<string, Value> {
    if "constants" in s.local && s.local["constants"].Dict? then s.local["constants"].entries else map[]
  }

  /** The runner's variables between two items. */
  datatype Progress = Progress(trace: seq<SectionRun>, scopes: Scopes, locals: map<string, Value>, position: nat, failed: bool)

  /** After an item the locals bound before it are restored; the shared dict of the test's locals
      keeps what the item did to it. */
  function AfterItem(p: Progress, r: SectionRun, end: Written): Progress {
    Progress(p.trace + [r], WithLocals(end.scopes, LocalsOf(p.scopes)), LocalsOf(end.scopes), p.position + 1,
             p.failed || !end.completed)
  }

  /** `_execute_item`, or nothing where there is no item. */
  function Advance(
    setting: Setting, p: Progress, item: Option<seq<RawCommand>>, section: Section,
    inherited: Definitions): Progress {
    match item
    case None => p
    case Some(raw) =>
      var r := ItemRun(setting, raw, section, inherited, p.scopes, p.locals, p.position + 1);
      AfterItem(p, r, Ended(r))
  }

  lemma {:induction false} AdvanceIs(
    setting: Setting, p: Progress, raw: seq<RawCommand>, section: Section, inherited: Definitions, r: SectionRun)
    requires r == ItemRun(setting, raw, section, inherited, p.scopes, p.locals, p.position + 1)
    ensures Advance(setting, p, Some(raw), section, inherited) == AfterItem(p, r, Ended(r))
  {
  }

  /** One test with its hooks: fresh locals, and the test runs even if beforeEach failed. */
  function TestGroup(
    setting: Setting, suite: Suite, all: Definitions, each: Definitions, p: Progress, test: SuiteTest): Progress {
    var p0 := p.(locals := map[], failed := false);
    var p1 := Advance(setting, p0, suite.beforeEach, BeforeEach, all);
    var p2 := Advance(setting, p1, Some(test.commands), Test, each);
    var p3 := Advance(setting, p2, suite.afterEach, AfterEach, each);
    p3.(scopes := WithLocals(p3.scopes, map[]))
  }

  function TestGroups(
    setting: Setting, suite: Suite, all: Definitions, each: Definitions, p: Progress,
    tests: seq<SuiteTest>): Progress
    decreases |tests|
  {
    if tests == [] then p
    else
      var next := TestGroup(setting, suite, all, each, p, tests[0]);
      if next.failed && tests[0].abortOnFailure then next
      else TestGroups(setting, suite, all, each, next, tests[1..])
  }

  /** `_execute`: a failed beforeAll skips the tests; afterAll always runs. */
  function SuiteTrace(
    setting: Setting, suite: Suite, all: Definitions, each: Definitions, start: Scopes): seq<SectionRun> {
    var p0 := Progress([], start, map[], 0, false);
    var p1 := Advance(setting, p0, suite.beforeAll, BeforeAll, map[]);
    var p2 := if p1.failed then p1 else TestGroups(setting, suite, all, each, p1, suite.tests);
    Advance(setting, p2.(locals := map[]), suite.afterAll, AfterAll, all).trace
  }

  // ----- What is assumed of a suite and its world -----

  /** An item whose orders are explicit, positive and distinct and whose declarations the table
      holds. */
  predicate ItemFits(table: DefinitionTable, raw: seq<RawCommand>, section: Section) {
    WellOrdered(raw) && DeclarationsAgree(table, Schedule(raw), section)
  }

  predicate HookFits(table: DefinitionTable, hook: Option<seq<RawCommand>>, section: Section) {
    hook.Some? ==> ItemFits(table, hook.value, section)
  }

  /** The database returns an item's commands by ascending stored order. */
  ghost predicate DatabaseFetches(fetch: Fetch) {
    forall position, raw :: Fetched(raw, fetch(position, raw))
  }

  ghost predicate SettingFits(setting: Setting) {
    PlainTable(setting.table) && DatabaseFetches(setting.fetch)
  }

  /** The table was built from the suite. */
  ghost predicate SuiteFits(setting: Setting, suite: Suite) {
    && SettingFits(setting)
    && HookFits(setting.table, suite.beforeAll, BeforeAll) && HookFits(setting.table, suite.beforeEach, BeforeEach)
    && (forall i | 0 <= i < |suite.tests| :: ItemFits(setting.table, suite.tests[i].commands, Test))
    && HookFits(setting.table, suite.afterEach, AfterEach) && HookFits(setting.table, suite.afterAll, AfterAll)
  }

  /** The item deletes nothing it inherits. */
  ghost predicate KeepsInherited(raw: seq<RawCommand>, inherited: Definitions) {
    forall id, k | Live(inherited, id) && 0 <= k < |Schedule(raw)| :: Schedule(raw)[k].cfg != DeleteConstant(id)
  }

  ghost predicate HookKeepsInherited(hook: Option<seq<RawCommand>>, inherited: Definitions) {
    hook.Some? ==> KeepsInherited(hook.value, inherited)
  }

  /** Nothing that runs once per test deletes what a hook before it declared. */
  ghost predicate PerTestItemsKeepInherited(suite: Suite, all: Definitions, each: Definitions) {
    && HookKeepsInherited(suite.beforeEach, all)
    && (forall i | 0 <= i < |suite.tests| :: KeepsInherited(suite.tests[i].commands, each))
    && HookKeepsInherited(suite.afterEach, each)
  }

  /** No command returns early on empty rows. */
  ghost predicate RowsArrive(world: World) {
    forall p, k :: !world(p, k).emptyRows
  }

  /** The definitions a suite hands from beforeAll and from beforeEach. */
  ghost predicate MapsOf(suite: Suite, all: Definitions, each: Definitions) {
    && SuiteError(suite).None?
    && HookMap(suite.beforeAll, BeforeAll, map[]) == Ok(all)
    && HookMap(suite.beforeEach, BeforeEach, all) == Ok(each)
  }

  ghost predicate GoodMap(table: DefinitionTable, defs: Definitions) {
    KeysMatch(defs) && LiveInjective(defs) && Agrees(table, defs)
  }
}
