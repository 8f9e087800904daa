/** Acceptance of a whole suite read off its items: which section may build on which. */
module SuiteAcceptance {
  import opened Prelude
  import opened ConstantGraph
  import opened ConstantGraphLaws
  import opened ConstantGraphMeaning
  import opened SuiteRuns

  predicate NoNegativeOrder(raw: seq<RawCommand>) {
    forall i | 0 <= i < |raw| :: raw[i].order.Some? ==> raw[i].order.value >= 0
  }

  predicate HookNumbered(hook: Option<seq<RawCommand>>) {
    hook.Some? ==> NoNegativeOrder(hook.value)
  }

  predicate SuiteNumbered(suite: Suite) {
    && HookNumbered(suite.beforeAll) && HookNumbered(suite.beforeEach)
    && HookNumbered(suite.afterEach) && HookNumbered(suite.afterAll)
    && forall i | 0 <= i < |suite.tests| :: NoNegativeOrder(suite.tests[i].commands)
  }

  /** Every command of the item follows the rule, from the constants it inherits. */
  ghost predicate ItemRight(raw: seq<RawCommand>, section: Section, initial: Definitions) {
    forall k | 0 <= k < |Schedule(raw)| :: FollowsRule(Schedule(raw), section, initial, k)
  }

  ghost predicate HookRight(hook: Option<seq<RawCommand>>, section: Section, initial: Definitions) {
    hook.Some? ==> ItemRight(hook.value, section, initial)
  }

  /** What is live in `after` is what the ids stand for when the hook is through; without a hook, what
      is live in `initial`. */
  ghost predicate HandsOn(hook: Option<seq<RawCommand>>, section: Section, initial: Definitions, after: Definitions) {
    match hook
    case None => after == initial
    case Some(raw) => forall id, d ::
      (Live(after, id) && after[id] == d) <==> Stands(Schedule(raw), section, initial, |Schedule(raw)|, id, d)
  }

  /** beforeAll from nothing, beforeEach and afterAll from what beforeAll hands on, the tests and
      afterEach from what beforeEach hands on. */
  ghost predicate SuiteRight(suite: Suite, all: Definitions, each: Definitions) {
    && HookRight(suite.beforeAll, BeforeAll, map[]) && HandsOn(suite.beforeAll, BeforeAll, map[], all)
    && HookRight(suite.beforeEach, BeforeEach, all) && HandsOn(suite.beforeEach, BeforeEach, all, each)
    && (forall i | 0 <= i < |suite.tests| :: ItemRight(suite.tests[i].commands, Test, each))
    && HookRight(suite.afterEach, AfterEach, each)
    && HookRight(suite.afterAll, AfterAll, all)
  }

  // ----- Only what is live counts -----

  ghost predicate SameLive(a: Definitions, b: Definitions) {
    forall id :: (Live(a, id) <==> Live(b, id)) && (Live(a, id) ==> a[id] == b[id])
  }

  lemma {:induction false} SameLiveCarries(a: Definitions, b: Definitions)
    requires SameLive(a, b)
    ensures CarryOver(a) == CarryOver(b)
  {
    forall id ensures id in CarryOver(a) <==> id in CarryOver(b) {
      assert Live(a, id) <==> Live(b, id);
    }
  }

  lemma {:induction false} ItemAcceptedExactly(raw: seq<RawCommand>, section: Section, initial: Definitions, live: Definitions)
    requires NoNegativeOrder(raw) && SameLive(initial, live)
    ensures Plan(raw, section, initial).Ok? <==> ItemRight(raw, section, live)
  {
    SameLiveCarries(initial, live);
    AcceptedExactly(raw, section, live);
  }

  lemma {:induction false} HookAcceptedExactly(
    hook: Option<seq<RawCommand>>, section: Section, initial: Definitions, live: Definitions)
    requires HookNumbered(hook) && SameLive(initial, live)
    ensures HookMap(hook, section, initial).Ok? <==> HookRight(hook, section, live)
  {
    if hook.Some? {
      ItemAcceptedExactly(hook.value, section, initial, live);
    }
  }

  /** An accepted hook hands on a map, and any other with the same live part. */
  lemma {:induction false} HookHandsOn(
    hook: Option<seq<RawCommand>>, section: Section, initial: Definitions, live: Definitions, after: Definitions)
    requires HookNumbered(hook) && SameLive(initial, live) && HookMap(hook, section, initial).Ok?
    requires HandsOn(hook, section, live, after)
    ensures SameLive(HookMap(hook, section, initial).value, after)
  {
    if hook.Some? {
      var visible := HookMap(hook, section, initial).value;
      SameLiveCarries(initial, live);
      assert Plan(hook.value, section, live) == Plan(hook.value, section, initial);
      forall id ensures (Live(visible, id) <==> Live(after, id)) && (Live(visible, id) ==> visible[id] == after[id]) {
        if Live(visible, id) {
          HandedOnExactly(hook.value, section, live, id, visible[id]);
        }
        if Live(after, id) {
          HandedOnExactly(hook.value, section, live, id, after[id]);
        }
      }
    }
  }

  lemma {:induction false} HookMapHandsOn(hook: Option<seq<RawCommand>>, section: Section, initial: Definitions)
    requires HookNumbered(hook) && HookMap(hook, section, initial).Ok?
    ensures HandsOn(hook, section, initial, HookMap(hook, section, initial).value)
  {
    if hook.Some? {
      forall id, d {
        HandedOnExactly(hook.value, section, initial, id, d);
      }
    }
  }

  lemma {:induction false} TestsAcceptedExactly(tests: seq<SuiteTest>, initial: Definitions, live: Definitions)
    requires SameLive(initial, live) && forall i | 0 <= i < |tests| :: NoNegativeOrder(tests[i].commands)
    ensures TestsError(tests, initial).None? <==> forall i | 0 <= i < |tests| :: ItemRight(tests[i].commands, Test, live)
    decreases |tests|
  {
    if tests != [] {
      ItemAcceptedExactly(tests[0].commands, Test, initial, live);
      assert forall i | 0 <= i < |tests[1..]| :: tests[1..][i] == tests[i + 1];
      TestsAcceptedExactly(tests[1..], initial, live);
      assert tests == [tests[0]] + tests[1..];
    }
  }

  // ----- The suite -----

  lemma {:induction false} AcceptedIsRight(suite: Suite)
    requires SuiteNumbered(suite) && SuiteError(suite).None?
    ensures SuiteRight(suite, HookMap(suite.beforeAll, BeforeAll, map[]).value,
                       HookMap(suite.beforeEach, BeforeEach, HookMap(suite.beforeAll, BeforeAll, map[]).value).value)
  {
    var all := HookMap(suite.beforeAll, BeforeAll, map[]).value;
    var each := HookMap(suite.beforeEach, BeforeEach, all).value;
    HookAcceptedExactly(suite.beforeAll, BeforeAll, map[], map[]);
    HookMapHandsOn(suite.beforeAll, BeforeAll, map[]);
    HookAcceptedExactly(suite.beforeEach, BeforeEach, all, all);
    HookMapHandsOn(suite.beforeEach, BeforeEach, all);
    TestsAcceptedExactly(suite.tests, each, each);
    HookAcceptedExactly(suite.afterEach, AfterEach, each, each);
    HookAcceptedExactly(suite.afterAll, AfterAll, all, all);
  }

  lemma {:induction false} RightIsAccepted(suite: Suite, all: Definitions, each: Definitions)
    requires SuiteNumbered(suite) && SuiteRight(suite, all, each)
    ensures SuiteError(suite).None?
  {
    HookAcceptedExactly(suite.beforeAll, BeforeAll, map[], map[]);
    HookHandsOn(suite.beforeAll, BeforeAll, map[], map[], all);
    var all' := HookMap(suite.beforeAll, BeforeAll, map[]).value;
    HookAcceptedExactly(suite.beforeEach, BeforeEach, all', all);
    HookHandsOn(suite.beforeEach, BeforeEach, all', all, each);
    var each' := HookMap(suite.beforeEach, BeforeEach, all').value;
    TestsAcceptedExactly(suite.tests, each', each);
    HookAcceptedExactly(suite.afterEach, AfterEach, each', each);
    HookAcceptedExactly(suite.afterAll, AfterAll, all', all);
  }

  /** A suite is accepted exactly when its items' own fields follow the rule, each section building
      on the constants of those that run before it. */
  lemma {:induction false} SuiteAcceptedExactly(suite: Suite)
    requires SuiteNumbered(suite)
    ensures SuiteError(suite).None? <==> exists all, each :: SuiteRight(suite, all, each)
  {
    if SuiteError(suite).None? {
      AcceptedIsRight(suite);
    }
    if all, each :| SuiteRight(suite, all, each) {
      RightIsAccepted(suite, all, each);
    }
  }
}
