/** The course of a suite: which items run, with which commands and outcomes, told from the suite
    and the outside world alone. An accepted suite's run follows its course. */
module SuiteCourses {
  import opened Prelude
  import opened PyValues
  import opened ContextStore
  import opened ContextGuards
  import opened RunContexts
  import opened ConstantGraph
  import opened CommandRuntime
  import opened SectionSoundness
  import opened SuiteRuns
  import opened SuiteSoundness

  /** An item that runs: its commands in order, and how each turns out if it is reached. */
  datatype Script = Script(section: Section, commands: seq<Command>, outs: seq<Outcome>)

  /** No command raises. */
  predicate Untroubled(s: Script) {
    Reached(s.outs, |s.outs|)
  }

  predicate Shaped(scripts: seq<Script>) {
    forall i | 0 <= i < |scripts| :: |scripts[i].outs| == |scripts[i].commands|
  }

  function ItemScript(setting: Setting, raw: seq<RawCommand>, section: Section, position: nat): (s: Script)
    ensures |s.outs| == |s.commands|
  {
    var commands := setting.fetch(position, raw);
    Script(section, commands, ItemOuts(setting.world, commands, section, position))
  }

  datatype Course = Course(scripts: seq<Script>, position: nat, failed: bool)

  /** The course one item further. */
  function AfterScript(c: Course, s: Script): Course {
    Course(c.scripts + [s], c.position + 1, c.failed || !Untroubled(s))
  }

  function AdvanceCourse(setting: Setting, c: Course, item: Option<seq<RawCommand>>, section: Section): Course {
    match item
    case None => c
    case Some(raw) => AfterScript(c, ItemScript(setting, raw, section, c.position + 1))
  }

  function GroupCourse(setting: Setting, suite: Suite, c: Course, test: SuiteTest): Course {
    var c1 := AdvanceCourse(setting, c.(failed := false), suite.beforeEach, BeforeEach);
    var c2 := AdvanceCourse(setting, c1, Some(test.commands), Test);
    AdvanceCourse(setting, c2, suite.afterEach, AfterEach)
  }

  function GroupsCourse(setting: Setting, suite: Suite, c: Course, tests: seq<SuiteTest>): Course
    decreases |tests|
  {
    if tests == [] then c
    else
      var next := GroupCourse(setting, suite, c, tests[0]);
      if next.failed && tests[0].abortOnFailure then next
      else GroupsCourse(setting, suite, next, tests[1..])
  }

  /** The items of a run in order: the first aborting failure ends the tests, a troubled beforeAll
      skips them. */
  function SuiteCourse(setting: Setting, suite: Suite): seq<Script> {
    var c1 := AdvanceCourse(setting, Course([], 0, false), suite.beforeAll, BeforeAll);
    var c2 := if c1.failed then c1 else GroupsCourse(setting, suite, c1, suite.tests);
    AdvanceCourse(setting, c2, suite.afterAll, AfterAll).scripts
  }

  // ----- A run follows its course -----

  function ScriptOf(r: SectionRun): Script {
    Script(r.section, r.commands, r.outs)
  }

  function ScriptsOf(trace: seq<SectionRun>): (scripts: seq<Script>)
    ensures |scripts| == |trace|
    ensures forall i | 0 <= i < |trace| :: scripts[i] == ScriptOf(trace[i])
  {
    if trace == [] then [] else ScriptsOf(trace[..|trace| - 1]) + [ScriptOf(trace[|trace| - 1])]
  }

  ghost predicate Fine(r: SectionRun) {
    Accepted(r) && Startable(r) && KindFits(r)
  }

  ghost predicate AllFine(trace: seq<SectionRun>) {
    forall i | 0 <= i < |trace| :: Fine(trace[i])
  }

  /** The runner and the course have seen the same items, all of them accepted. */
  ghost predicate Mirrors(c: Course, p: Progress) {
    && HasConstants(p.scopes) && AllFine(p.trace)
    && c.scripts == ScriptsOf(p.trace) && c.position == p.position && c.failed == p.failed
  }

  /** What the runner may rely on: the suite was accepted, and its table built from it. */
  ghost predicate Fitting(setting: Setting, suite: Suite, all: Definitions, each: Definitions) {
    SuiteFits(setting, suite) && MapsOf(suite, all, each)
  }

  lemma {:induction false} ItemIsFine(
    setting: Setting, p: Progress, raw: seq<RawCommand>, section: Section, inherited: Definitions)
    requires SettingFits(setting) && GoodMap(setting.table, inherited) && HasConstants(p.scopes)
    requires ItemFits(setting.table, raw, section) && Plan(raw, section, inherited).Ok?
    ensures Fine(ItemRun(setting, raw, section, inherited, p.scopes, p.locals, p.position + 1))
  {
    ItemAccepted(setting, raw, section, inherited, p.scopes, p.locals, p.position + 1);
    WithLocalsBound(p.scopes, p.locals, Row(Local, ""));
  }

  /** An accepted section runs to its end exactly when none of its commands is made to raise. */
  lemma {:induction false} EndsAsTold(r: SectionRun)
    requires Fine(r)
    ensures Ended(r).completed <==> Untroubled(ScriptOf(r))
    ensures HasConstants(Ended(r).scopes)
  {
    RunningHasConstants(r, |r.commands|);
    if Untroubled(ScriptOf(r)) {
      ReachedCompletes(r, |r.commands|);
    } else if Ended(r).completed {
      CompletedIsReached(r, |r.commands|);
    }
  }

  lemma {:induction false} AdvanceMirrors(
    setting: Setting, c: Course, p: Progress, item: Option<seq<RawCommand>>, section: Section, inherited: Definitions)
    requires SettingFits(setting) && GoodMap(setting.table, inherited)
    requires HookFits(setting.table, item, section) && HookMap(item, section, inherited).Ok?
    requires Mirrors(c, p)
    ensures Mirrors(AdvanceCourse(setting, c, item, section), Advance(setting, p, item, section, inherited))
  {
    match item {
      case None =>
      case Some(raw) =>
        ItemIsFine(setting, p, raw, section, inherited);
        var r := ItemRun(setting, raw, section, inherited, p.scopes, p.locals, p.position + 1);
        assert ScriptOf(r) == ItemScript(setting, raw, section, p.position + 1);
        MirrorsGrow(c, p, r);
        AdvanceIs(setting, p, raw, section, inherited, r);
    }
  }

  lemma {:induction false} MirrorsGrow(c: Course, p: Progress, r: SectionRun)
    requires Mirrors(c, p) && Fine(r)
    ensures Mirrors(AfterScript(c, ScriptOf(r)), AfterItem(p, r, Ended(r)))
  {
    FineEnd(r, LocalsOf(p.scopes));
    OneMore(p.trace, r);
  }

  /** What the end of an item gives the runner: a verdict as told, and scopes to go on with. */
  lemma {:induction false} FineEnd(r: SectionRun, previous: map<string, Value>)
    requires Fine(r)
    ensures Ended(r).completed <==> Untroubled(ScriptOf(r))
    ensures HasConstants(WithLocals(Ended(r).scopes, previous))
  {
    EndsAsTold(r);
    WithLocalsBound(Ended(r).scopes, previous, Row(Local, ""));
  }

  lemma {:induction false} OneMore(trace: seq<SectionRun>, r: SectionRun)
    requires AllFine(trace) && Fine(r)
    ensures AllFine(trace + [r]) && ScriptsOf(trace + [r]) == ScriptsOf(trace) + [ScriptOf(r)]
  {
    assert (trace + [r])[..|trace|] == trace;
    forall i | 0 <= i < |trace + [r]| ensures Fine((trace + [r])[i]) {
      assert (trace + [r])[i] == if i < |trace| then trace[i] else r;
    }
  }

  lemma {:induction false} GroupMirrors(
    setting: Setting, suite: Suite, all: Definitions, each: Definitions, c: Course, p: Progress, i: nat)
    requires Fitting(setting, suite, all, each) && i < |suite.tests| && Mirrors(c, p)
    ensures Mirrors(GroupCourse(setting, suite, c, suite.tests[i]),
                    TestGroup(setting, suite, all, each, p, suite.tests[i]))
  {
    MapsGood(setting, suite, all, each);
    TestPlanned(suite.tests, each, i);
    var test := Some(suite.tests[i].commands);
    var c0, p0 := c.(failed := false), p.(locals := map[], failed := false);
    var c1 := AdvanceCourse(setting, c0, suite.beforeEach, BeforeEach);
    var p1 := Advance(setting, p0, suite.beforeEach, BeforeEach, all);
    var c2, p2 := AdvanceCourse(setting, c1, test, Test), Advance(setting, p1, test, Test, each);
    AdvanceMirrors(setting, c0, p0, suite.beforeEach, BeforeEach, all);
    AdvanceMirrors(setting, c1, p1, test, Test, each);
    AdvanceMirrors(setting, c2, p2, suite.afterEach, AfterEach, each);
    WithLocalsBound(Advance(setting, p2, suite.afterEach, AfterEach, each).scopes, map[], Row(Local, ""));
  }

  lemma {:induction false} GroupsMirror(
    setting: Setting, suite: Suite, all: Definitions, each: Definitions, c: Course, p: Progress, i: nat)
    requires Fitting(setting, suite, all, each) && i <= |suite.tests| && Mirrors(c, p)
    ensures Mirrors(GroupsCourse(setting, suite, c, suite.tests[i..]),
                    TestGroups(setting, suite, all, each, p, suite.tests[i..]))
    decreases |suite.tests| - i
  {
    if i < |suite.tests| {
      var tests := suite.tests[i..];
      assert tests[0] == suite.tests[i] && tests[1..] == suite.tests[i + 1..];
      GroupMirrors(setting, suite, all, each, c, p, i);
      GroupsMirror(setting, suite, all, each, GroupCourse(setting, suite, c, tests[0]),
                   TestGroup(setting, suite, all, each, p, tests[0]), i + 1);
    }
  }

  /** The run of an accepted suite follows its course, whatever raises. */
  lemma {:induction false} RunFollowsCourse(
    setting: Setting, suite: Suite, all: Definitions, each: Definitions, start: Scopes)
    requires Fitting(setting, suite, all, each) && HasConstants(start)
    ensures var trace := SuiteTrace(setting, suite, all, each, start);
            && ScriptsOf(trace) == SuiteCourse(setting, suite)
            && AllFine(trace)
  {
    MapsGood(setting, suite, all, each);
    var c0, p0 := Course([], 0, false), Progress([], start, map[], 0, false);
    AdvanceMirrors(setting, c0, p0, suite.beforeAll, BeforeAll, map[]);
    var c1 := AdvanceCourse(setting, c0, suite.beforeAll, BeforeAll);
    var p1 := Advance(setting, p0, suite.beforeAll, BeforeAll, map[]);
    assert suite.tests[0..] == suite.tests;
    GroupsMirror(setting, suite, all, each, c1, p1, 0);
    var c2 := if c1.failed then c1 else GroupsCourse(setting, suite, c1, suite.tests);
    var p2 := if p1.failed then p1 else TestGroups(setting, suite, all, each, p1, suite.tests);
    AfterAllMirrors(setting, suite, all, each, c2, p2);
  }

  lemma {:induction false} AfterAllMirrors(
    setting: Setting, suite: Suite, all: Definitions, each: Definitions, c: Course, p: Progress)
    requires Fitting(setting, suite, all, each) && Mirrors(c, p)
    ensures Mirrors(AdvanceCourse(setting, c, suite.afterAll, AfterAll),
                    Advance(setting, p.(locals := map[]), suite.afterAll, AfterAll, all))
  {
    MapsGood(setting, suite, all, each);
    AdvanceMirrors(setting, c, p.(locals := map[]), suite.afterAll, AfterAll, all);
  }

  // ----- Soundness from the outcomes -----

  /** No command of a hook that prepares tests raises. */
  predicate HooksUntroubled(scripts: seq<Script>) {
    forall i | 0 <= i < |scripts| && (scripts[i].section.BeforeAll? || scripts[i].section.BeforeEach?) ::
      Untroubled(scripts[i])
  }

  /** Suite soundness: if the constant graph is accepted, nothing that runs once per test deletes
      what a hook declared, and no command of the hooks before the tests raises, then in every run,
      for any number of tests and whichever commands of the tests and of the hooks after them raise,
      no reached command reads an unbound constant. */
  lemma {:induction false} SuiteSound(
    setting: Setting, suite: Suite, all: Definitions, each: Definitions, start: Scopes)
    requires SuiteReady(setting, suite, all, each) && HasConstants(start)
    requires HooksUntroubled(SuiteCourse(setting, suite))
    ensures AllSound(SuiteTrace(setting, suite, all, each, start))
  {
    RunFollowsCourse(setting, suite, all, each, start);
    HooksEnd(SuiteTrace(setting, suite, all, each, start));
    CompleteSuiteSound(setting, suite, all, each, start);
  }

  lemma {:induction false} HooksEnd(trace: seq<SectionRun>)
    requires AllFine(trace) && HooksUntroubled(ScriptsOf(trace))
    ensures HooksComplete(trace)
  {
    forall i | 0 <= i < |trace| && (trace[i].section.BeforeAll? || trace[i].section.BeforeEach?)
      ensures |trace[i].outs| == |trace[i].commands| && Ended(trace[i]).completed
    {
      assert ScriptsOf(trace)[i] == ScriptOf(trace[i]);
      EndsAsTold(trace[i]);
    }
  }
}
