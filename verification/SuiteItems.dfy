/** Which items a suite runs, one after the other, and what each starts from: the hooks around every
    test, the hooks around them all, and the locals that last as long as a test. */
module SuiteItems {
  import opened Prelude
  import opened PyValues
  import opened ContextStore
  import opened RunContexts
  import opened CommandPolicy
  import opened ConstantGraph
  import opened CommandRuntime
  import opened SectionSoundness
  import opened SuiteRuns

  /** An item, and whether it starts with empty locals. */
  datatype Item = Item(section: Section, raw: seq<RawCommand>, bare: bool)

  function HookItems(hook: Option<seq<RawCommand>>, section: Section, bare: bool): seq<Item> {
    match hook
    case None => []
    case Some(raw) => [Item(section, raw, bare)]
  }

  /** A test between its hooks: the first of them starts with empty locals. */
  function GroupItems(suite: Suite, test: SuiteTest): seq<Item> {
    HookItems(suite.beforeEach, BeforeEach, true)
    + [Item(Test, test.commands, suite.beforeEach.None?)]
    + HookItems(suite.afterEach, AfterEach, false)
  }

  /** beforeAll and the first n tests. */
  function ItemsUpTo(suite: Suite, n: nat): seq<Item>
    requires n <= |suite.tests|
  {
    if n == 0 then HookItems(suite.beforeAll, BeforeAll, true)
    else ItemsUpTo(suite, n - 1) + GroupItems(suite, suite.tests[n - 1])
  }

  function ItemsRun(suite: Suite, n: nat): seq<Item>
    requires n <= |suite.tests|
  {
    ItemsUpTo(suite, n) + HookItems(suite.afterAll, AfterAll, true)
  }

  /** Only tests run as tests. */
  function Guard(section: Section): ItemKind {
    if section == Test then TestItem else HookItem
  }

  /** Some command of the item raised. */
  predicate Raises(r: SectionRun) {
    |r.outs| == |r.commands| && !Running(r, |r.commands|).completed
  }

  /** The context an item leaves. */
  function Left(r: SectionRun): Scopes {
    if |r.outs| == |r.commands| then Running(r, |r.commands|).scopes else r.start
  }

  /** The context as the last item of a trace left it. */
  function LeftBy(start: Scopes, trace: seq<SectionRun>): Scopes {
    if trace == [] then start else Left(trace[|trace| - 1])
  }

  /** Each command turns out as the world has it, unless the policy refuses it. */
  predicate TurnsOut(world: World, r: SectionRun, position: nat) {
    && |r.outs| == |r.commands|
    && forall j | 0 <= j < |r.outs| ::
         r.outs[j] == Outcome(world(position, j).value,
                              world(position, j).raises || !PolicyPasses(r.kind, r.commands[j].cfg),
                              world(position, j).emptyRows, world(position, j).evaluates)
  }

  /** The run is that of the item, at its place: its stored commands, in the context as the item
      before left it, with empty locals or with those left there. */
  predicate RunsItem(setting: Setting, r: SectionRun, item: Item, position: nat, before: Scopes) {
    && r.section == item.section && r.commands == setting.fetch(position, item.raw)
    && r.table == setting.table && r.kind == Guard(item.section)
    && TurnsOut(setting.world, r, position)
    && r.start == WithLocals(before, if item.bare then map[] else LocalsOf(before))
  }

  /** The trace is that of the items, one after the other. */
  predicate RunsItems(setting: Setting, start: Scopes, items: seq<Item>, trace: seq<SectionRun>) {
    && |trace| == |items|
    && (items != [] ==>
          var n := |items| - 1;
          && RunsItems(setting, start, items[..n], trace[..n])
          && RunsItem(setting, trace[n], items[n], n + 1, LeftBy(start, trace[..n])))
  }

  /** So each run is that of its item. */
  lemma {:induction false} EachRunsItsItem(setting: Setting, start: Scopes, items: seq<Item>, trace: seq<SectionRun>, k: nat)
    requires RunsItems(setting, start, items, trace) && k < |items|
    ensures RunsItem(setting, trace[k], items[k], k + 1, LeftBy(start, trace[..k]))
    decreases |items|
  {
    var n := |items| - 1;
    if k < n {
      EachRunsItsItem(setting, start, items[..n], trace[..n], k);
      assert trace[..n][..k] == trace[..k];
    }
  }

  lemma {:induction false} OneItemMore(
    setting: Setting, start: Scopes, items: seq<Item>, trace: seq<SectionRun>, item: Item, r: SectionRun)
    requires RunsItems(setting, start, items, trace)
    requires RunsItem(setting, r, item, |items| + 1, LeftBy(start, trace))
    ensures RunsItems(setting, start, items + [item], trace + [r])
  {
    assert (items + [item])[..|items|] == items && (trace + [r])[..|items|] == trace;
  }

  // ----- One item -----

  /** The runner has run the items, and goes on from where the last one ended, locals apart. */
  ghost predicate HasRun(setting: Setting, start: Scopes, items: seq<Item>, p: Progress) {
    && RunsItems(setting, start, items, p.trace) && p.position == |items|
    && WithLocals(p.scopes, map[]) == WithLocals(LeftBy(start, p.trace), map[])
  }

  lemma {:induction false} LocalsReplaced(s: Scopes, a: map<string, Value>, b: map<string, Value>)
    ensures WithLocals(WithLocals(s, a), b) == WithLocals(s, b) && LocalsOf(WithLocals(s, a)) == a
  {
    assert s.local["constants" := Dict(a)]["constants" := Dict(b)] == s.local["constants" := Dict(b)];
  }

  /** Contexts that differ in their locals alone. */
  lemma {:induction false} LocalsApart(s: Scopes, t: Scopes, locals: map<string, Value>)
    requires WithLocals(s, map[]) == WithLocals(t, map[])
    ensures WithLocals(s, locals) == WithLocals(t, locals)
  {
    LocalsReplaced(s, map[], locals);
    LocalsReplaced(t, map[], locals);
  }

  lemma {:induction false} ItemTurnsOut(
    setting: Setting, raw: seq<RawCommand>, section: Section, inherited: Definitions, s: Scopes,
    locals: map<string, Value>, position: nat)
    ensures var r := ItemRun(setting, raw, section, inherited, s, locals, position);
            && TurnsOut(setting.world, r, position) && r.kind == Guard(section)
            && r.section == section && r.commands == setting.fetch(position, raw) && r.table == setting.table
            && r.start == WithLocals(s, locals)
  {
    var r := ItemRun(setting, raw, section, inherited, s, locals, position);
    forall j | 0 <= j < |r.outs| ensures r.outs[j] == Screen(r.kind, r.commands[j].cfg, setting.world(position, j)) {
    }
  }

  predicate RaisedFrom(trace: seq<SectionRun>, from: nat) {
    exists k | from <= k < |trace| :: Raises(trace[k])
  }

  /** From one moment of the runner to another: the items in between are run, and it has failed if it
      had before or if one of them raised. */
  ghost predicate Moves(setting: Setting, start: Scopes, items: seq<Item>, p: Progress, more: seq<Item>, q: Progress) {
    && HasRun(setting, start, items + more, q) && p.trace <= q.trace
    && (q.failed <==> p.failed || RaisedFrom(q.trace, |p.trace|))
  }

  lemma {:induction false} RaisedEarlier(a: seq<SectionRun>, b: seq<SectionRun>, from: nat)
    requires a <= b && from <= |a|
    ensures RaisedFrom(b, from) <==> RaisedFrom(a, from) || RaisedFrom(b, |a|)
  {
    assert forall k | 0 <= k < |a| :: a[k] == b[k];
    if RaisedFrom(a, from) {
      var k :| from <= k < |a| && Raises(a[k]);
      assert Raises(b[k]);
    }
  }

  lemma {:induction false} MovesOn(
    setting: Setting, start: Scopes, items: seq<Item>, p: Progress, a: seq<Item>, q: Progress, b: seq<Item>, r: Progress)
    requires Moves(setting, start, items, p, a, q) && Moves(setting, start, items + a, q, b, r)
    ensures Moves(setting, start, items, p, a + b, r)
  {
    RunEitherWay(setting, start, items, a, b, r);
    RaisedEarlier(q.trace, r.trace, |p.trace|);
  }

  lemma {:induction false} RunEitherWay(
    setting: Setting, start: Scopes, items: seq<Item>, a: seq<Item>, b: seq<Item>, p: Progress)
    requires HasRun(setting, start, items + a + b, p)
    ensures HasRun(setting, start, items + (a + b), p)
  {
    assert items + (a + b) == items + a + b;
  }

  lemma {:induction false} OneItemRuns(
    setting: Setting, start: Scopes, items: seq<Item>, p: Progress, item: Item, r: SectionRun)
    requires HasRun(setting, start, items, p)
    requires RunsItem(setting, r, item, |items| + 1, LeftBy(start, p.trace))
    ensures var q := AfterItem(p, r, Ended(r));
            Moves(setting, start, items, p, [item], q) && q.locals == LocalsOf(LeftBy(start, q.trace))
  {
    var q := AfterItem(p, r, Ended(r));
    OneItemMore(setting, start, items, p.trace, item, r);
    assert q.trace[|p.trace|] == r;
    LocalsReplaced(Left(r), LocalsOf(p.scopes), map[]);
  }

  /** One item further. */
  lemma {:induction false} AdvanceRuns(
    setting: Setting, start: Scopes, items: seq<Item>, p: Progress, hook: Option<seq<RawCommand>>, section: Section,
    inherited: Definitions, bare: bool)
    requires HasRun(setting, start, items, p)
    requires hook.Some? ==> p.locals == if bare then map[] else LocalsOf(LeftBy(start, p.trace))
    ensures var q := Advance(setting, p, hook, section, inherited);
            && Moves(setting, start, items, p, HookItems(hook, section, bare), q)
            && (hook.None? ==> q == p)
            && (hook.Some? ==> q.locals == LocalsOf(LeftBy(start, q.trace)))
  {
    match hook {
      case None => assert items + [] == items;
      case Some(raw) =>
        var r := ItemRun(setting, raw, section, inherited, p.scopes, p.locals, p.position + 1);
        AdvanceIs(setting, p, raw, section, inherited, r);
        ItemTurnsOut(setting, raw, section, inherited, p.scopes, p.locals, p.position + 1);
        LocalsApart(p.scopes, LeftBy(start, p.trace), p.locals);
        OneItemRuns(setting, start, items, p, Item(section, raw, bare), r);
    }
  }

  // ----- One test -----

  /** Some item of the i-th test's group raised. */
  predicate GroupFails(suite: Suite, trace: seq<SectionRun>, i: nat)
    requires i < |suite.tests|
  {
    exists k | |ItemsUpTo(suite, i)| <= k < |ItemsUpTo(suite, i + 1)| && k < |trace| :: Raises(trace[k])
  }

  predicate Aborts(suite: Suite, trace: seq<SectionRun>, i: nat)
    requires i < |suite.tests|
  {
    suite.tests[i].abortOnFailure && GroupFails(suite, trace, i)
  }

  /** A test with its hooks runs the items of its group, and has failed if one of them raised. */
  lemma {:induction false} GroupRuns(
    setting: Setting, suite: Suite, all: Definitions, each: Definitions, start: Scopes, p: Progress, i: nat)
    requires i < |suite.tests| && HasRun(setting, start, ItemsUpTo(suite, i), p)
    ensures Moves(setting, start, ItemsUpTo(suite, i), p.(failed := false), GroupItems(suite, suite.tests[i]),
                  TestGroup(setting, suite, all, each, p, suite.tests[i]))
  {
    var items, test := ItemsUpTo(suite, i), Some(suite.tests[i].commands);
    var p0 := p.(locals := map[], failed := false);
    var p1 := Advance(setting, p0, suite.beforeEach, BeforeEach, all);
    var p2 := Advance(setting, p1, test, Test, each);
    var p3 := Advance(setting, p2, suite.afterEach, AfterEach, each);
    var a, b, c := HookItems(suite.beforeEach, BeforeEach, true), HookItems(test, Test, suite.beforeEach.None?),
                   HookItems(suite.afterEach, AfterEach, false);
    AdvanceRuns(setting, start, items, p0, suite.beforeEach, BeforeEach, all, true);
    AdvanceRuns(setting, start, items + a, p1, test, Test, each, suite.beforeEach.None?);
    MovesOn(setting, start, items, p0, a, p1, b, p2);
    AdvanceRuns(setting, start, items + (a + b), p2, suite.afterEach, AfterEach, each, false);
    MovesOn(setting, start, items, p0, a + b, p2, c, p3);
    LocalsReplaced(p3.scopes, map[], map[]);
  }

  // ----- All tests -----

  /** What has been run of a group stays what it was. */
  lemma {:induction false} AbortsStays(suite: Suite, a: seq<SectionRun>, b: seq<SectionRun>, i: nat)
    requires i < |suite.tests| && a <= b && |ItemsUpTo(suite, i + 1)| <= |a|
    ensures Aborts(suite, a, i) <==> Aborts(suite, b, i)
  {
    assert forall k | 0 <= k < |a| :: a[k] == b[k];
  }

  lemma {:induction false} ItemsGrow(suite: Suite, i: nat, n: nat)
    requires i <= n <= |suite.tests|
    ensures |ItemsUpTo(suite, i)| <= |ItemsUpTo(suite, n)|
    decreases n
  {
    if i < n {
      ItemsGrow(suite, i, n - 1);
    }
  }

  predicate NoneAborts(suite: Suite, trace: seq<SectionRun>, n: nat)
    requires n <= |suite.tests|
  {
    forall i | 0 <= i < n :: !Aborts(suite, trace, i)
  }

  lemma {:induction false} NoneAbortsStays(suite: Suite, a: seq<SectionRun>, b: seq<SectionRun>, n: nat)
    requires n <= |suite.tests| && a <= b && |ItemsUpTo(suite, n)| <= |a|
    ensures NoneAborts(suite, a, n) <==> NoneAborts(suite, b, n)
  {
    forall i | 0 <= i < n ensures Aborts(suite, a, i) <==> Aborts(suite, b, i) {
      ItemsGrow(suite, i + 1, n);
      AbortsStays(suite, a, b, i);
    }
  }

  /** No test before the n-th to be run aborted, and they stop short of the end only after one that
      did. */
  predicate TestsStopAt(suite: Suite, trace: seq<SectionRun>, n: nat)
    requires n <= |suite.tests|
  {
    && (n > 0 ==> NoneAborts(suite, trace, n - 1))
    && (n == |suite.tests| || (n > 0 && Aborts(suite, trace, n - 1)))
  }

  /** One test further: if it is to abort and failed, no test follows. */
  lemma {:induction false} OneTestRuns(
    setting: Setting, suite: Suite, all: Definitions, each: Definitions, start: Scopes, p: Progress, i: nat)
    requires i < |suite.tests| && HasRun(setting, start, ItemsUpTo(suite, i), p) && NoneAborts(suite, p.trace, i)
    ensures var q := TestGroup(setting, suite, all, each, p, suite.tests[i]);
            && HasRun(setting, start, ItemsUpTo(suite, i + 1), q) && p.trace <= q.trace && NoneAborts(suite, q.trace, i)
            && (Aborts(suite, q.trace, i) <==> q.failed && suite.tests[i].abortOnFailure)
  {
    var q := TestGroup(setting, suite, all, each, p, suite.tests[i]);
    GroupRuns(setting, suite, all, each, start, p, i);
    NoneAbortsStays(suite, p.trace, q.trace, i);
    GroupFailsFrom(suite, p.trace, q.trace, i);
  }

  lemma {:induction false} GroupFailsFrom(suite: Suite, a: seq<SectionRun>, b: seq<SectionRun>, i: nat)
    requires i < |suite.tests| && |a| == |ItemsUpTo(suite, i)| && |b| == |ItemsUpTo(suite, i + 1)|
    ensures GroupFails(suite, b, i) <==> RaisedFrom(b, |a|)
  {
  }

  lemma {:induction false} GroupsUnroll(
    setting: Setting, suite: Suite, all: Definitions, each: Definitions, p: Progress, i: nat)
    requires i < |suite.tests|
    ensures var next := TestGroup(setting, suite, all, each, p, suite.tests[i]);
            TestGroups(setting, suite, all, each, p, suite.tests[i..]) ==
              if next.failed && suite.tests[i].abortOnFailure then next
              else TestGroups(setting, suite, all, each, next, suite.tests[i + 1..])
  {
    assert suite.tests[i..][0] == suite.tests[i] && suite.tests[i..][1..] == suite.tests[i + 1..];
  }

  lemma {:induction false} GroupsRun(
    setting: Setting, suite: Suite, all: Definitions, each: Definitions, start: Scopes, p: Progress, i: nat)
    returns (n: nat)
    requires i <= |suite.tests| && HasRun(setting, start, ItemsUpTo(suite, i), p) && NoneAborts(suite, p.trace, i)
    ensures i <= n <= |suite.tests|
    ensures var q := TestGroups(setting, suite, all, each, p, suite.tests[i..]);
            && HasRun(setting, start, ItemsUpTo(suite, n), q) && p.trace <= q.trace && TestsStopAt(suite, q.trace, n)
    decreases |suite.tests| - i
  {
    if i == |suite.tests| {
      n := i;
      NoneAbortsFewer(suite, p.trace, i);
    } else {
      var next := TestGroup(setting, suite, all, each, p, suite.tests[i]);
      GroupsUnroll(setting, suite, all, each, p, i);
      OneTestRuns(setting, suite, all, each, start, p, i);
      if next.failed && suite.tests[i].abortOnFailure {
        n := i + 1;
      } else {
        NoneMore(suite, next.trace, i);
        n := GroupsRun(setting, suite, all, each, start, next, i + 1);
      }
    }
  }

  lemma {:induction false} NoneAbortsFewer(suite: Suite, trace: seq<SectionRun>, n: nat)
    requires n <= |suite.tests| && NoneAborts(suite, trace, n)
    ensures n > 0 ==> NoneAborts(suite, trace, n - 1)
  {
  }

  lemma {:induction false} NoneMore(suite: Suite, trace: seq<SectionRun>, i: nat)
    requires i < |suite.tests| && NoneAborts(suite, trace, i) && !Aborts(suite, trace, i)
    ensures NoneAborts(suite, trace, i + 1)
  {
  }

  lemma {:induction false} StopStays(suite: Suite, a: seq<SectionRun>, b: seq<SectionRun>, n: nat)
    requires n <= |suite.tests| && a <= b && |ItemsUpTo(suite, n)| <= |a| && TestsStopAt(suite, a, n)
    ensures TestsStopAt(suite, b, n)
  {
    if n > 0 {
      ItemsGrow(suite, n - 1, n);
      NoneAbortsStays(suite, a, b, n - 1);
      AbortsStays(suite, a, b, n - 1);
    }
  }

  /** afterAll at the end. */
  lemma {:induction false} EndRuns(
    setting: Setting, suite: Suite, all: Definitions, start: Scopes, p: Progress, n: nat)
    requires n <= |suite.tests| && HasRun(setting, start, ItemsUpTo(suite, n), p)
    ensures var trace := Advance(setting, p.(locals := map[]), suite.afterAll, AfterAll, all).trace;
            && RunsItems(setting, start, ItemsRun(suite, n), trace) && p.trace <= trace
            && (TestsStopAt(suite, p.trace, n) ==> TestsStopAt(suite, trace, n))
  {
    AdvanceRuns(setting, start, ItemsUpTo(suite, n), p.(locals := map[]), suite.afterAll, AfterAll, all, true);
    var trace := Advance(setting, p.(locals := map[]), suite.afterAll, AfterAll, all).trace;
    if TestsStopAt(suite, p.trace, n) {
      StopStays(suite, p.trace, trace, n);
    }
  }

  lemma {:induction false} StartRuns(setting: Setting, suite: Suite, start: Scopes)
    ensures var p := Advance(setting, Progress([], start, map[], 0, false), suite.beforeAll, BeforeAll, map[]);
            && HasRun(setting, start, ItemsUpTo(suite, 0), p)
            && (p.failed <==> suite.beforeAll.Some? && Raises(p.trace[0]))
  {
    AdvanceRuns(setting, start, [], Progress([], start, map[], 0, false), suite.beforeAll, BeforeAll, map[], true);
    assert [] + HookItems(suite.beforeAll, BeforeAll, true) == ItemsUpTo(suite, 0);
  }

  /** A suite runs beforeAll, then the tests one after the other, each between its hooks, and afterAll
      at the end: no test if beforeAll raised, and none after one whose group raised and which is to
      abort. A failed hook skips nothing else. Every item runs its stored commands in the context
      the one before left, and shares its locals with the items of its test alone. */
  lemma {:induction false} SuiteRunsItems(
    setting: Setting, suite: Suite, all: Definitions, each: Definitions, start: Scopes) returns (n: nat)
    ensures n <= |suite.tests|
    ensures var trace := SuiteTrace(setting, suite, all, each, start);
            && RunsItems(setting, start, ItemsRun(suite, n), trace)
            && if suite.beforeAll.Some? && Raises(trace[0]) then n == 0 else TestsStopAt(suite, trace, n)
  {
    var p := Advance(setting, Progress([], start, map[], 0, false), suite.beforeAll, BeforeAll, map[]);
    StartRuns(setting, suite, start);
    if p.failed {
      n := 0;
      EndRuns(setting, suite, all, start, p, 0);
    } else {
      assert suite.tests[0..] == suite.tests;
      n := GroupsRun(setting, suite, all, each, start, p, 0);
      var q := TestGroups(setting, suite, all, each, p, suite.tests);
      EndRuns(setting, suite, all, start, q, n);
    }
  }
}
