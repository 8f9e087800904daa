/** Exactly which runs of an accepted suite are sound, told from the order its items run in, their
    commands and how these turn out. */
module SuiteExactness {
  import opened Prelude
  import opened PyValues
  import opened ContextStore
  import opened ContextGuards
  import opened RunContexts
  import opened ConstantGraph
  import opened CommandRuntime
  import opened SectionSoundness
  import opened SuiteRuns
  import opened SuiteSoundness
  import opened SuiteCourses

  /** What a run starts from. */
  datatype RunStart = RunStart(suite: Suite, table: DefinitionTable, start: Scopes)

  // ----- The last effect on a row -----

  /** Items whose locals start empty: the hooks around the suite and the first item of a test. */
  predicate FreshLocals(suite: Suite, section: Section) {
    section.BeforeAll? || section.AfterAll? || section.BeforeEach? || (section.Test? && suite.beforeEach.None?)
  }

  /** Whether a row is bound when item i starts, read off the commands of the items before it: the
      last of them that ran and touched the row decides. */
  predicate BoundBefore(o: RunStart, scripts: seq<Script>, i: nat, row: Row)
    requires Shaped(scripts) && i <= |scripts|
    decreases i
  {
    if i < |scripts| && row.context.Local? && FreshLocals(o.suite, scripts[i].section) then false
    else if i == 0 then Bound(o.start, row)
    else BoundAfter(o, scripts[i - 1], row, BoundBefore(o, scripts, i - 1, row))
  }

  predicate BoundAfter(o: RunStart, s: Script, row: Row, before: bool)
    requires |s.outs| == |s.commands|
  {
    Flow(o.table, s.commands, s.outs, |s.commands|, row, before)
  }

  function BoundAt(o: RunStart, scripts: seq<Script>, i: nat): Row -> bool
    requires Shaped(scripts) && i <= |scripts|
  {
    row => BoundBefore(o, scripts, i, row)
  }

  /** For every constant a reached command refers to, the last command before it that touched that
      constant wrote it, or none touched it and it was bound from the start. */
  ghost predicate LastEffectsWrite(o: RunStart, scripts: seq<Script>)
    requires Shaped(scripts)
  {
    forall i | 0 <= i < |scripts| :: LastEffectsWriteAt(o, scripts, i)
  }

  ghost predicate LastEffectsWriteAt(o: RunStart, scripts: seq<Script>, i: nat)
    requires Shaped(scripts) && i < |scripts|
  {
    ReadsWritten(o.table, scripts[i].commands, scripts[i].outs, BoundAt(o, scripts, i))
  }

  lemma {:induction false} BoundBeforePrefix(o: RunStart, a: seq<Script>, b: seq<Script>, i: nat, row: Row)
    requires Shaped(b) && a <= b && Shaped(a) && i < |a|
    ensures BoundBefore(o, a, i, row) == BoundBefore(o, b, i, row)
    decreases i
  {
    assert a[i] == b[i];
    if i > 0 {
      assert a[i - 1] == b[i - 1];
      BoundBeforePrefix(o, a, b, i - 1, row);
    }
  }

  // ----- The runner follows the flow -----

  /** Item i started from a context that binds what the flow says. */
  ghost predicate StartsAsFlow(o: RunStart, r: SectionRun, scripts: seq<Script>, i: nat)
    requires Shaped(scripts) && i <= |scripts|
  {
    r.table == o.table && forall row: Row :: Bound(r.start, row) == BoundBefore(o, scripts, i, row)
  }

  /** The flow tells, for every item so far, what its start context binds. */
  ghost predicate FlowHolds(o: RunStart, trace: seq<SectionRun>) {
    && AllFine(trace) && Shaped(ScriptsOf(trace))
    && forall i | 0 <= i < |trace| :: StartsAsFlow(o, trace[i], ScriptsOf(trace), i)
  }

  /** Between items the shared scopes bind what the flow says; so do the locals, unless they are
      about to be replaced. */
  ghost predicate Follows(o: RunStart, p: Progress, withLocals: bool) {
    && HasConstants(p.scopes) && FlowHolds(o, p.trace)
    && (forall row: Row | !row.context.Local? :: Bound(p.scopes, row) == BoundBefore(o, ScriptsOf(p.trace), |p.trace|, row))
    && (withLocals ==> forall row: Row | row.context.Local? ::
          (row.name in p.locals) == BoundBefore(o, ScriptsOf(p.trace), |p.trace|, row))
    && (!withLocals ==> p.locals == map[])
  }

  lemma {:induction false} StartFlows(o: RunStart, scripts: seq<Script>, s: Script, row: Row)
    requires Shaped(scripts) && Shaped(scripts + [s])
    ensures BoundBefore(o, scripts + [s], |scripts|, row) ==
            if row.context.Local? && FreshLocals(o.suite, s.section) then false
            else BoundBefore(o, scripts, |scripts|, row)
  {
    var n := |scripts|;
    if n > 0 {
      BoundBeforePrefix(o, scripts, scripts + [s], n - 1, row);
      assert (scripts + [s])[n - 1] == scripts[n - 1];
    }
  }

  /** An item starts with what the flow says, if it starts where the last one left off. */
  lemma {:induction false} ItemStarts(o: RunStart, p: Progress, r: SectionRun)
    requires Follows(o, p, !FreshLocals(o.suite, r.section)) && Fine(r) && r.table == o.table
    requires r.start == WithLocals(p.scopes, p.locals)
    ensures Shaped(ScriptsOf(p.trace) + [ScriptOf(r)])
    ensures StartsAsFlow(o, r, ScriptsOf(p.trace) + [ScriptOf(r)], |p.trace|)
  {
    forall row: Row
      ensures Bound(r.start, row) == BoundBefore(o, ScriptsOf(p.trace) + [ScriptOf(r)], |p.trace|, row)
    {
      WithLocalsBound(p.scopes, p.locals, row);
      StartFlows(o, ScriptsOf(p.trace), ScriptOf(r), row);
    }
  }

  lemma {:induction false} StartKeeps(o: RunStart, r: SectionRun, scripts: seq<Script>, s: Script, i: nat)
    requires Shaped(scripts) && Shaped(scripts + [s]) && i < |scripts| && StartsAsFlow(o, r, scripts, i)
    ensures StartsAsFlow(o, r, scripts + [s], i)
  {
    forall row: Row ensures Bound(r.start, row) == BoundBefore(o, scripts + [s], i, row) {
      BoundBeforePrefix(o, scripts, scripts + [s], i, row);
    }
  }

  /** The flow holds of a trace one item longer. */
  lemma {:induction false} FlowExtends(o: RunStart, before: seq<SectionRun>, r: SectionRun)
    requires FlowHolds(o, before) && Fine(r) && Shaped(ScriptsOf(before) + [ScriptOf(r)])
    requires StartsAsFlow(o, r, ScriptsOf(before) + [ScriptOf(r)], |before|)
    ensures FlowHolds(o, before + [r])
  {
    OneMore(before, r);
    forall i | 0 <= i < |before + [r]| ensures StartsAsFlow(o, (before + [r])[i], ScriptsOf(before + [r]), i) {
      if i < |before| {
        StartKeeps(o, before[i], ScriptsOf(before), ScriptOf(r), i);
      }
    }
  }

  lemma {:induction false} SectionEnds(o: RunStart, before: seq<SectionRun>, r: SectionRun)
    requires AllFine(before) && Fine(r) && Shaped(ScriptsOf(before) + [ScriptOf(r)])
    requires StartsAsFlow(o, r, ScriptsOf(before) + [ScriptOf(r)], |before|)
    ensures var scripts := ScriptsOf(before) + [ScriptOf(r)];
            forall row: Row :: Bound(Ended(r).scopes, row) == BoundBefore(o, scripts, |scripts|, row)
  {
    var scripts := ScriptsOf(before) + [ScriptOf(r)];
    forall row: Row ensures Bound(Ended(r).scopes, row) == BoundBefore(o, scripts, |scripts|, row) {
      FlowIsBound(r, |r.commands|, row);
      assert scripts[|before|] == ScriptOf(r);
    }
  }

  /** A context that binds what the flow says after these items. */
  ghost predicate EndsAsFlow(o: RunStart, end: Scopes, trace: seq<SectionRun>) {
    && HasConstants(end) && FlowHolds(o, trace)
    && forall row: Row :: Bound(end, row) == BoundBefore(o, ScriptsOf(trace), |trace|, row)
  }

  lemma {:induction false} RestoredFollows(o: RunStart, end: Scopes, previous: map<string, Value>, p: Progress)
    requires EndsAsFlow(o, end, p.trace)
    requires p.scopes == WithLocals(end, previous) && p.locals == LocalsOf(end)
    ensures Follows(o, p, true)
  {
    WithLocalsBound(end, previous, Row(Local, ""));
    forall row: Row
      ensures !row.context.Local? ==> Bound(p.scopes, row) == Bound(end, row)
      ensures row.context.Local? ==> (row.name in p.locals) == Bound(end, row)
    {
      WithLocalsBound(end, previous, row);
      assert end.Get(Local) == end.local;
    }
  }

  lemma {:induction false} ItemFlows(o: RunStart, p: Progress, r: SectionRun)
    requires Follows(o, p, !FreshLocals(o.suite, r.section)) && Fine(r) && r.table == o.table
    requires r.start == WithLocals(p.scopes, p.locals)
    ensures EndsAsFlow(o, Ended(r).scopes, p.trace + [r])
  {
    ItemStarts(o, p, r);
    FlowExtends(o, p.trace, r);
    SectionEnds(o, p.trace, r);
    OneMore(p.trace, r);
    EndsAsTold(r);
  }

  lemma {:induction false} RestoredIsFollowed(o: RunStart, p: Progress, r: SectionRun, end: Written)
    requires EndsAsFlow(o, end.scopes, p.trace + [r])
    ensures Follows(o, AfterItem(p, r, end), true)
  {
    RestoredFollows(o, end.scopes, LocalsOf(p.scopes), AfterItem(p, r, end));
  }

  lemma {:induction false} ItemFollows(o: RunStart, p: Progress, r: SectionRun)
    requires o.table == r.table && Follows(o, p, !FreshLocals(o.suite, r.section))
    requires Fine(r) && r.start == WithLocals(p.scopes, p.locals)
    ensures Follows(o, AfterItem(p, r, Ended(r)), true)
  {
    ItemFlows(o, p, r);
    RestoredIsFollowed(o, p, r, Ended(r));
  }

  lemma {:induction false} AdvanceFollows(
    setting: Setting, o: RunStart, p: Progress, item: Option<seq<RawCommand>>, section: Section, inherited: Definitions)
    requires SettingFits(setting) && GoodMap(setting.table, inherited) && o.table == setting.table
    requires HookFits(setting.table, item, section) && HookMap(item, section, inherited).Ok?
    requires Follows(o, p, !FreshLocals(o.suite, section))
    ensures item.Some? ==> Follows(o, Advance(setting, p, item, section, inherited), true)
  {
    match item {
      case None =>
      case Some(raw) =>
        ItemIsFine(setting, p, raw, section, inherited);
        var r := ItemRun(setting, raw, section, inherited, p.scopes, p.locals, p.position + 1);
        ItemFollows(o, p, r);
        AdvanceIs(setting, p, raw, section, inherited, r);
    }
  }

  lemma {:induction false} DropLocals(o: RunStart, p: Progress, withLocals: bool)
    requires Follows(o, p, withLocals)
    ensures Follows(o, p.(locals := map[]), false)
    ensures Follows(o, p.(locals := map[], failed := false), false)
    ensures Follows(o, p.(scopes := WithLocals(p.scopes, map[])), withLocals)
  {
    WithLocalsBound(p.scopes, map[], Row(Local, ""));
    forall row: Row | !row.context.Local? ensures Bound(WithLocals(p.scopes, map[]), row) == Bound(p.scopes, row) {
      WithLocalsBound(p.scopes, map[], row);
    }
  }

  lemma {:induction false} GroupFollows(
    setting: Setting, suite: Suite, all: Definitions, each: Definitions, start: Scopes, p: Progress, i: nat,
    withLocals: bool)
    requires Fitting(setting, suite, all, each) && i < |suite.tests|
    requires Follows(RunStart(suite, setting.table, start), p, withLocals)
    ensures Follows(RunStart(suite, setting.table, start), TestGroup(setting, suite, all, each, p, suite.tests[i]), true)
  {
    var o, test := RunStart(suite, setting.table, start), Some(suite.tests[i].commands);
    var p0 := p.(locals := map[], failed := false);
    DropLocals(o, p, withLocals);
    var p1 := Advance(setting, p0, suite.beforeEach, BeforeEach, all);
    var p2 := Advance(setting, p1, test, Test, each);
    StartedFollows(setting, suite, all, each, start, p0, i);
    EndedFollows(setting, suite, all, each, start, p2);
    DropLocals(o, Advance(setting, p2, suite.afterEach, AfterEach, each), true);
  }

  /** beforeEach and the test. */
  lemma {:induction false} StartedFollows(
    setting: Setting, suite: Suite, all: Definitions, each: Definitions, start: Scopes, p: Progress, i: nat)
    requires Fitting(setting, suite, all, each) && i < |suite.tests|
    requires Follows(RunStart(suite, setting.table, start), p, false)
    ensures var p1 := Advance(setting, p, suite.beforeEach, BeforeEach, all);
            Follows(RunStart(suite, setting.table, start),
                    Advance(setting, p1, Some(suite.tests[i].commands), Test, each), true)
  {
    var p1 := Advance(setting, p, suite.beforeEach, BeforeEach, all);
    HookFollows(setting, suite, all, each, start, p);
    TestFollows(setting, suite, all, each, start, p1, i);
  }

  lemma {:induction false} TestFollows(
    setting: Setting, suite: Suite, all: Definitions, each: Definitions, start: Scopes, p: Progress, i: nat)
    requires Fitting(setting, suite, all, each) && i < |suite.tests|
    requires Follows(RunStart(suite, setting.table, start), p, suite.beforeEach.Some?)
    ensures Follows(RunStart(suite, setting.table, start),
                    Advance(setting, p, Some(suite.tests[i].commands), Test, each), true)
  {
    MapsGood(setting, suite, all, each);
    TestPlanned(suite.tests, each, i);
    AdvanceFollows(setting, RunStart(suite, setting.table, start), p, Some(suite.tests[i].commands), Test, each);
  }

  lemma {:induction false} HookFollows(
    setting: Setting, suite: Suite, all: Definitions, each: Definitions, start: Scopes, p: Progress)
    requires Fitting(setting, suite, all, each) && Follows(RunStart(suite, setting.table, start), p, false)
    ensures Follows(RunStart(suite, setting.table, start), Advance(setting, p, suite.beforeEach, BeforeEach, all),
                    suite.beforeEach.Some?)
  {
    MapsGood(setting, suite, all, each);
    AdvanceFollows(setting, RunStart(suite, setting.table, start), p, suite.beforeEach, BeforeEach, all);
  }

  /** afterEach. */
  lemma {:induction false} EndedFollows(
    setting: Setting, suite: Suite, all: Definitions, each: Definitions, start: Scopes, p: Progress)
    requires Fitting(setting, suite, all, each) && Follows(RunStart(suite, setting.table, start), p, true)
    ensures Follows(RunStart(suite, setting.table, start), Advance(setting, p, suite.afterEach, AfterEach, each), true)
  {
    MapsGood(setting, suite, all, each);
    AdvanceFollows(setting, RunStart(suite, setting.table, start), p, suite.afterEach, AfterEach, each);
  }

  lemma {:induction false} GroupsFollow(
    setting: Setting, suite: Suite, all: Definitions, each: Definitions, start: Scopes, p: Progress, i: nat,
    withLocals: bool)
    requires Fitting(setting, suite, all, each) && i <= |suite.tests|
    requires Follows(RunStart(suite, setting.table, start), p, withLocals)
    ensures var o, end := RunStart(suite, setting.table, start), TestGroups(setting, suite, all, each, p, suite.tests[i..]);
            Follows(o, end, true) || Follows(o, end, false)
    decreases |suite.tests| - i
  {
    if i < |suite.tests| {
      var tests := suite.tests[i..];
      assert tests[0] == suite.tests[i] && tests[1..] == suite.tests[i + 1..];
      var next := TestGroup(setting, suite, all, each, p, tests[0]);
      GroupFollows(setting, suite, all, each, start, p, i, withLocals);
      if !(next.failed && tests[0].abortOnFailure) {
        GroupsFollow(setting, suite, all, each, start, next, i + 1, true);
      }
    }
  }

  lemma {:induction false} AfterAllFollows(
    setting: Setting, suite: Suite, all: Definitions, each: Definitions, start: Scopes, p: Progress, withLocals: bool)
    requires Fitting(setting, suite, all, each) && Follows(RunStart(suite, setting.table, start), p, withLocals)
    ensures FlowHolds(RunStart(suite, setting.table, start),
                      Advance(setting, p.(locals := map[]), suite.afterAll, AfterAll, all).trace)
  {
    var o := RunStart(suite, setting.table, start);
    MapsGood(setting, suite, all, each);
    DropLocals(o, p, withLocals);
    AdvanceFlows(setting, o, p.(locals := map[]), suite.afterAll, AfterAll, all);
  }

  lemma {:induction false} AdvanceFlows(
    setting: Setting, o: RunStart, p: Progress, item: Option<seq<RawCommand>>, section: Section, inherited: Definitions)
    requires SettingFits(setting) && GoodMap(setting.table, inherited) && o.table == setting.table
    requires HookFits(setting.table, item, section) && HookMap(item, section, inherited).Ok?
    requires Follows(o, p, !FreshLocals(o.suite, section))
    ensures FlowHolds(o, Advance(setting, p, item, section, inherited).trace)
  {
    AdvanceFollows(setting, o, p, item, section, inherited);
  }

  lemma {:induction false} FirstFollows(
    setting: Setting, suite: Suite, all: Definitions, each: Definitions, start: Scopes)
    requires Fitting(setting, suite, all, each) && HasConstants(start)
    ensures Follows(RunStart(suite, setting.table, start),
                    Advance(setting, Progress([], start, map[], 0, false), suite.beforeAll, BeforeAll, map[]),
                    suite.beforeAll.Some?)
  {
    var o, p0 := RunStart(suite, setting.table, start), Progress([], start, map[], 0, false);
    MapsGood(setting, suite, all, each);
    assert Follows(o, p0, false);
    AdvanceFollows(setting, o, p0, suite.beforeAll, BeforeAll, map[]);
  }

  /** In every run of an accepted suite the flow tells what every item starts with. */
  lemma {:induction false} TraceFollows(
    setting: Setting, suite: Suite, all: Definitions, each: Definitions, start: Scopes)
    requires Fitting(setting, suite, all, each) && HasConstants(start)
    ensures FlowHolds(RunStart(suite, setting.table, start), SuiteTrace(setting, suite, all, each, start))
  {
    var o, p0 := RunStart(suite, setting.table, start), Progress([], start, map[], 0, false);
    FirstFollows(setting, suite, all, each, start);
    var p1 := Advance(setting, p0, suite.beforeAll, BeforeAll, map[]);
    assert suite.tests[0..] == suite.tests;
    GroupsFollow(setting, suite, all, each, start, p1, 0, suite.beforeAll.Some?);
    var p2 := if p1.failed then p1 else TestGroups(setting, suite, all, each, p1, suite.tests);
    AfterAllFollows(setting, suite, all, each, start, p2, Follows(o, p2, true));
  }

  // ----- The condition -----

  lemma {:induction false} ItemSoundExactly(o: RunStart, r: SectionRun, scripts: seq<Script>, i: nat)
    requires Fine(r) && Shaped(scripts) && i < |scripts| && scripts[i] == ScriptOf(r) && StartsAsFlow(o, r, scripts, i)
    ensures Sound(r) <==> LastEffectsWriteAt(o, scripts, i)
  {
    SectionFlowExactly(r, BoundAt(o, scripts, i));
  }

  /** A run of an accepted suite, whichever commands raise or return early, reads only bound
      constants exactly when, for every constant a reached command refers to, the last command
      before it that touched that constant wrote it. */
  lemma {:induction false} SuiteSoundExactly(
    setting: Setting, suite: Suite, all: Definitions, each: Definitions, start: Scopes)
    requires Fitting(setting, suite, all, each) && HasConstants(start)
    ensures var scripts := SuiteCourse(setting, suite);
            && Shaped(scripts)
            && (AllSound(SuiteTrace(setting, suite, all, each, start))
                <==> LastEffectsWrite(RunStart(suite, setting.table, start), scripts))
  {
    var o, trace := RunStart(suite, setting.table, start), SuiteTrace(setting, suite, all, each, start);
    RunFollowsCourse(setting, suite, all, each, start);
    TraceFollows(setting, suite, all, each, start);
    TraceSoundExactly(o, trace);
  }

  lemma {:induction false} TraceSoundExactly(o: RunStart, trace: seq<SectionRun>)
    requires FlowHolds(o, trace)
    ensures AllSound(trace) <==> LastEffectsWrite(o, ScriptsOf(trace))
  {
    var scripts := ScriptsOf(trace);
    forall i | 0 <= i < |trace|
      ensures Fine(trace[i]) && |trace[i].outs| == |trace[i].commands|
      ensures Sound(trace[i]) <==> LastEffectsWriteAt(o, scripts, i)
    {
      ItemSoundExactly(o, trace[i], scripts, i);
    }
  }
}
