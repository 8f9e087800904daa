/** The check made when a suite is sent and the one made when it has been stored agree: the stored
    commands come back in another arrangement and under other ids. */
module SuiteOrder {
  import opened Prelude
  import opened ConstantGraph
  import opened ConstantGraphOrder
  import opened SuiteRuns

  /** An item's commands under other ids and in any arrangement, their orders explicit and distinct. */
  predicate ItemRestored(raw: seq<RawCommand>, other: seq<RawCommand>) {
    Rearranged(raw, other) && Distinct(OrdersOf(raw))
  }

  predicate HookRestored(hook: Option<seq<RawCommand>>, other: Option<seq<RawCommand>>) {
    (hook.Some? <==> other.Some?) && (hook.Some? ==> ItemRestored(hook.value, other.value))
  }

  predicate TestsRestored(tests: seq<SuiteTest>, others: seq<SuiteTest>) {
    |tests| == |others| && forall i | 0 <= i < |tests| :: ItemRestored(tests[i].commands, others[i].commands)
  }

  predicate SuiteRestored(suite: Suite, other: Suite) {
    && HookRestored(suite.beforeAll, other.beforeAll) && HookRestored(suite.beforeEach, other.beforeEach)
    && TestsRestored(suite.tests, other.tests)
    && HookRestored(suite.afterEach, other.afterEach) && HookRestored(suite.afterAll, other.afterAll)
  }

  /** A hook hands on the same map, up to the copied ids, or is refused for the same reason. */
  lemma {:induction false} HookAlike(
    hook: Option<seq<RawCommand>>, other: Option<seq<RawCommand>>, section: Section, a: Definitions, b: Definitions)
    requires HookRestored(hook, other) && AlikeAll(a, b)
    ensures AlikeVerdict(HookMap(hook, section, a), HookMap(other, section, b))
  {
    if hook.Some? {
      OrderIndependence(hook.value, other.value, section, a, b);
    }
  }

  lemma {:induction false} TestsAlike(tests: seq<SuiteTest>, others: seq<SuiteTest>, a: Definitions, b: Definitions)
    requires TestsRestored(tests, others) && AlikeAll(a, b)
    ensures TestsError(tests, a) == TestsError(others, b)
    decreases |tests|
  {
    if tests != [] {
      assert ItemRestored(tests[0].commands, others[0].commands);
      OrderIndependence(tests[0].commands, others[0].commands, Test, a, b);
      assert forall i | 0 <= i < |tests[1..]| :: tests[1..][i] == tests[i + 1] && others[1..][i] == others[i + 1];
      TestsAlike(tests[1..], others[1..], a, b);
    }
  }

  /** A suite whose orders are explicit and distinct is accepted or refused, for the same reason,
      however its commands are arranged and named. */
  lemma {:induction false} SuitesCheckAlike(suite: Suite, other: Suite)
    requires SuiteRestored(suite, other)
    ensures SuiteError(suite) == SuiteError(other)
  {
    var all, all' := HookMap(suite.beforeAll, BeforeAll, map[]), HookMap(other.beforeAll, BeforeAll, map[]);
    HookAlike(suite.beforeAll, other.beforeAll, BeforeAll, map[], map[]);
    if all.Ok? {
      LaterAlike(suite, other, all.value, all'.value);
      SuiteErrorIs(suite, all.value);
      SuiteErrorIs(other, all'.value);
    }
  }

  /** The refusal of the sections after beforeAll. */
  function LaterError(suite: Suite, all: Definitions): Option<PlanError> {
    match HookMap(suite.beforeEach, BeforeEach, all)
    case Raised(e) => Some(e)
    case Ok(each) => RestError(suite, all, each)
  }

  /** The refusal of the sections after beforeEach. */
  function RestError(suite: Suite, all: Definitions, each: Definitions): Option<PlanError> {
    if TestsError(suite.tests, each).Some? then TestsError(suite.tests, each)
    else if HookMap(suite.afterEach, AfterEach, each).Raised? then ErrorOf(HookMap(suite.afterEach, AfterEach, each))
    else ErrorOf(HookMap(suite.afterAll, AfterAll, all))
  }

  lemma {:induction false} SuiteErrorIs(suite: Suite, all: Definitions)
    requires HookMap(suite.beforeAll, BeforeAll, map[]) == Ok(all)
    ensures SuiteError(suite) == LaterError(suite, all)
  {
  }

  lemma {:induction false} LaterAlike(suite: Suite, other: Suite, a: Definitions, b: Definitions)
    requires SuiteRestored(suite, other) && AlikeAll(a, b)
    ensures LaterError(suite, a) == LaterError(other, b)
  {
    var each, each' := HookMap(suite.beforeEach, BeforeEach, a), HookMap(other.beforeEach, BeforeEach, b);
    HookAlike(suite.beforeEach, other.beforeEach, BeforeEach, a, b);
    if each.Ok? {
      RestAlike(suite, other, a, b, each.value, each'.value);
    }
  }

  lemma {:induction false} RestAlike(
    suite: Suite, other: Suite, a: Definitions, b: Definitions, each: Definitions, each': Definitions)
    requires SuiteRestored(suite, other) && AlikeAll(a, b) && AlikeAll(each, each')
    ensures RestError(suite, a, each) == RestError(other, b, each')
  {
    TestsAlike(suite.tests, other.tests, each, each');
    HookAlike(suite.afterEach, other.afterEach, AfterEach, each, each');
    HookAlike(suite.afterAll, other.afterAll, AfterAll, a, b);
  }

  /** The maps its hooks hand on differ only in the ids copied into them. */
  lemma {:induction false} MapsAlike(
    suite: Suite, other: Suite, all: Definitions, each: Definitions, all': Definitions, each': Definitions)
    requires SuiteRestored(suite, other) && MapsOf(suite, all, each) && MapsOf(other, all', each')
    ensures AlikeAll(all, all') && AlikeAll(each, each')
  {
    HookAlike(suite.beforeAll, other.beforeAll, BeforeAll, map[], map[]);
    HookAlike(suite.beforeEach, other.beforeEach, BeforeEach, all, all');
  }
}
