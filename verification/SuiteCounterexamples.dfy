/** Accepted suites whose runs read an unbound constant: the hypotheses of suite soundness are not
    idle. */
module SuiteCounterexamples {
  import opened Prelude
  import opened PyValues
  import opened PathTokens
  import opened ContextStore
  import opened ContextGuards
  import opened ConstantGraph
  import opened ConstantGraphLaws
  import opened ConstantGraphOrder
  import opened CommandPolicy
  import opened CommandRuntime
  import opened SectionSoundness
  import opened StoredOrder
  import opened SuiteRuns
  import opened SuiteSoundness
  import opened SuiteCourses
  import opened SuiteExactness

  const INIT := RawCommand("1", Some(1), InitConstant("d", "x", Local, JsonArray, ""))
  const INIT_RESULT := RawCommand("1", Some(1), InitConstant("d", "x", Results, JsonArray, ""))
  const USE := RawCommand("1", Some(1), RunSuite(["d"], None))
  const DROP := RawCommand("1", Some(1), DeleteConstant("d"))

  /** A hook prepares a local constant, the test uses it. */
  const PREPARED := Suite(None, Some([INIT]), [SuiteTest([USE], false)], None, None)

  /** The first test deletes the constant of beforeAll that the second one uses. */
  const DELETING := Suite(Some([INIT_RESULT]), None, [SuiteTest([DROP], false), SuiteTest([USE], false)], None, None)

  const PREPARED_RESULT: Definitions := map["d" := PlannedDefinition("d", "1", 1, BeforeAll, "x", Results, JsonArray, None)]

  const FRESH := Scopes(
    map["constants" := Dict(map[])], map["constants" := Dict(map[])],
    map["constants" := Dict(map[])], map["constants" := Dict(map[])])

  function Defined(context: ConstantContext, section: Section): PlannedDefinition {
    PlannedDefinition("d", "1", 1, section, "x", context, JsonArray, None)
  }

  lemma {:induction false} NamePlain()
    ensures PlainName("x") && PlainName("d")
  {
    assert "x"[0] == 'x' && "d"[0] == 'd';
  }

  lemma {:induction false} OneCommand(raw: RawCommand)
    requires raw.order == Some(1)
    ensures Schedule([raw]) == [Command(raw.id, 1, raw.cfg)]
  {
    assert CommandInputs([raw]) == [Command(raw.id, 1, raw.cfg)];
    assert [Command(raw.id, 1, raw.cfg)][..0] == [];
    assert Sorted([]) == [];
  }

  lemma {:induction false} PlanOne(raw: RawCommand, section: Section, initial: Definitions)
    requires raw.order == Some(1)
    ensures var c := Command(raw.id, 1, raw.cfg);
            && (Plan([raw], section, initial).Ok? <==> CommandError(c, section, CarryOver(initial)).None?)
            && (Plan([raw], section, initial).Ok? ==>
                  Plan([raw], section, initial).value.visible == Updated(c, section, CarryOver(initial)))
  {
    OneCommand(raw);
    var c := Command(raw.id, 1, raw.cfg);
    assert [c][1..] == [];
    assert PlanFrom([], section, Updated(c, section, CarryOver(initial))).Ok?;
    assert PlanFrom([c], section, CarryOver(initial)).Ok? <==> CommandError(c, section, CarryOver(initial)).None?;
  }

  lemma {:induction false} PlanInit(section: Section, context: ConstantContext)
    requires context in Writable(section)
    ensures var raw := RawCommand("1", Some(1), InitConstant("d", "x", context, JsonArray, ""));
            HookMap(Some([raw]), section, map[]) == Ok(map["d" := Defined(context, section)])
  {
    var raw := RawCommand("1", Some(1), InitConstant("d", "x", context, JsonArray, ""));
    PlanOne(raw, section, map[]);
    assert CarryOver(map[]) == map[];
  }

  lemma {:induction false} PlanRef(raw: RawCommand, context: ConstantContext, section: Section)
    requires raw == USE || raw == DROP
    requires context in Writable(Test)
    ensures Plan([raw], Test, map["d" := Defined(context, section)]).Ok?
  {
    var initial := map["d" := Defined(context, section)];
    PlanOne(raw, Test, initial);
    assert CarryOver(initial)["d"] == Defined(context, section).(order := 0);
    assert ["d"][1..] == [];
    var c := Command(raw.id, 1, raw.cfg);
    assert RefError(c, Test, CarryOver(initial), []) == None;
  }

  /** The check accepts both suites. */
  lemma {:induction false} BothAccepted()
    ensures MapsOf(PREPARED, map[], map["d" := Defined(Local, BeforeEach)])
    ensures MapsOf(DELETING, PREPARED_RESULT, PREPARED_RESULT)
  {
    PlanInit(BeforeEach, Local);
    PlanInit(BeforeAll, Results);
    PlanRef(USE, Local, BeforeEach);
    PlanRef(DROP, Results, BeforeAll);
    PlanRef(USE, Results, BeforeAll);
    var one, two := [SuiteTest([USE], false)], [SuiteTest([DROP], false), SuiteTest([USE], false)];
    assert one[1..] == [] && two[1..] == one;
    var a, b := map["d" := Defined(Local, BeforeEach)], map["d" := Defined(Results, BeforeAll)];
    assert TestsError([], a) == None && TestsError([], b) == None;
    assert TestsError(one, a) == None && TestsError(one, b) == None && TestsError(two, b) == None;
  }

  // ----- Broken runs -----

  /** The only stored command of an item. */
  predicate Alone(commands: seq<Command>, cfg: Cfg) {
    |commands| == 1 && commands[0].cfg == cfg
  }

  lemma {:induction false} OneFetched(setting: Setting, raw: RawCommand, position: nat)
    requires DatabaseFetches(setting.fetch)
    ensures Alone(setting.fetch(position, [raw]), raw.cfg)
  {
    var run := setting.fetch(position, [raw]);
    assert Fetched([raw], run);
    assert Keys(StoredCommands([raw])) == [Key(StoredCommand(raw))];
    assert |Keys(run)| == |multiset(Keys(run))| == 1;
    assert Keys(run)[0] in multiset(Keys(run));
  }

  /** An item whose first command uses an unbound constant breaks the condition for soundness. */
  lemma {:induction false} UnboundUseBreaks(o: RunStart, scripts: seq<Script>, i: nat)
    requires Shaped(scripts) && i < |scripts| && Alone(scripts[i].commands, USE.cfg)
    requires "d" in o.table && !BoundBefore(o, scripts, i, o.table["d"])
    ensures !LastEffectsWrite(o, scripts)
  {
    var s, before := scripts[i], BoundAt(o, scripts, i);
    assert Refs(USE.cfg)[0] == "d" && s.commands[0].cfg == USE.cfg;
    assert Reached(s.outs, 0) && !before(o.table["d"]);
    assert !ReadsWrittenAt(o.table, s.commands, s.outs, before, 0);
    assert !LastEffectsWriteAt(o, scripts, i);
  }

  lemma {:induction false} TablesFit(setting: Setting)
    requires DatabaseFetches(setting.fetch)
    ensures setting.table == map["d" := Row(Local, "x")] ==> SuiteFits(setting, PREPARED)
    ensures setting.table == map["d" := Row(Results, "x")] ==> SuiteFits(setting, DELETING)
  {
    NamePlain();
    OneCommand(INIT);
    OneCommand(INIT_RESULT);
    OneCommand(USE);
    OneCommand(DROP);
  }

  /** beforeEach, then the test, whether or not the hook failed. */
  lemma {:induction false} PreparedCourse(setting: Setting)
    ensures SuiteCourse(setting, PREPARED) == [ItemScript(setting, [INIT], BeforeEach, 1), ItemScript(setting, [USE], Test, 2)]
  {
    assert PREPARED.tests[1..] == [];
    var next := GroupCourse(setting, PREPARED, Course([], 0, false), PREPARED.tests[0]);
    assert GroupsCourse(setting, PREPARED, next, []) == next;
  }

  lemma {:induction false} RaisingIsScreened(world: World, commands: seq<Command>, section: Section, position: nat)
    requires |commands| == 1 && world(position, 0).raises
    ensures !Reached(ItemOuts(world, commands, section, position), 1)
  {
    assert ItemOuts(world, commands, section, position)[0].raises;
  }

  /** A local constant is unbound after a beforeEach whose first command raises. */
  lemma {:induction false} FailedHookLeavesUnbound(o: RunStart, scripts: seq<Script>)
    requires Shaped(scripts) && |scripts| == 2 && scripts[0].section == BeforeEach && scripts[1].section == Test
    requires o.suite == PREPARED && |scripts[0].outs| == 1 && !Reached(scripts[0].outs, 1)
    ensures !BoundBefore(o, scripts, 1, Row(Local, "x"))
  {
    var s, row := scripts[0], Row(Local, "x");
    assert |s.commands| == 1 && !BoundBefore(o, scripts, 0, row);
    assert !Flow(o.table, s.commands, s.outs, 0, row, false);
    assert !Flow(o.table, s.commands, s.outs, 1, row, false);
  }

  /** When beforeEach raises, the runner still runs the test, and the test reads a constant nobody
      bound, though the check accepts the suite. */
  lemma {:induction false} FailedBeforeEachBreaks(setting: Setting)
    requires setting.table == map["d" := Row(Local, "x")] && DatabaseFetches(setting.fetch)
    requires setting.world(1, 0).raises
    ensures MapsOf(PREPARED, map[], map["d" := Defined(Local, BeforeEach)])
    ensures !AllSound(SuiteTrace(setting, PREPARED, map[], map["d" := Defined(Local, BeforeEach)], FRESH))
  {
    BothAccepted();
    TablesFit(setting);
    SuiteSoundExactly(setting, PREPARED, map[], map["d" := Defined(Local, BeforeEach)], FRESH);
    PreparedBreaks(setting);
  }

  lemma {:induction false} PreparedBreaks(setting: Setting)
    requires setting.table == map["d" := Row(Local, "x")] && DatabaseFetches(setting.fetch)
    requires setting.world(1, 0).raises
    ensures var scripts := SuiteCourse(setting, PREPARED);
            Shaped(scripts) && !LastEffectsWrite(RunStart(PREPARED, setting.table, FRESH), scripts)
  {
    var o := RunStart(PREPARED, setting.table, FRESH);
    PreparedCourse(setting);
    var scripts := SuiteCourse(setting, PREPARED);
    OneFetched(setting, INIT, 1);
    OneFetched(setting, USE, 2);
    RaisingIsScreened(setting.world, setting.fetch(1, [INIT]), BeforeEach, 1);
    FailedHookLeavesUnbound(o, scripts);
    UnboundUseBreaks(o, scripts, 1);
  }

  /** A single command without a stray target raises only if the outside world makes it. */
  lemma {:induction false} QuietIsScreened(world: World, commands: seq<Command>, section: Section, position: nat)
    requires |commands| == 1 && !world(position, 0).raises && PolicyPasses(KindOf(section), commands[0].cfg)
    ensures Reached(ItemOuts(world, commands, section, position), 1)
  {
    assert ItemOuts(world, commands, section, position)[0]
        == Screen(KindOf(section), commands[0].cfg, world(position, 0));
  }

  lemma {:induction false} DroppingIsUntroubled(setting: Setting)
    requires DatabaseFetches(setting.fetch)
    requires !setting.world(1, 0).raises && !setting.world(2, 0).raises
    ensures Untroubled(ItemScript(setting, [INIT_RESULT], BeforeAll, 1)) && Untroubled(ItemScript(setting, [DROP], Test, 2))
  {
    NamePlain();
    NamesAreNotBlank(Results, "x");
    InitPassesExactly(HookItem, INIT_RESULT.cfg);
    OthersPass(TestItem, DROP.cfg);
    OneFetched(setting, INIT_RESULT, 1);
    OneFetched(setting, DROP, 2);
    QuietIsScreened(setting.world, setting.fetch(1, [INIT_RESULT]), BeforeAll, 1);
    QuietIsScreened(setting.world, setting.fetch(2, [DROP]), Test, 2);
  }

  /** beforeAll and both tests, if beforeAll does not fail. */
  lemma {:induction false} DeletingCourse(setting: Setting)
    requires Untroubled(ItemScript(setting, [INIT_RESULT], BeforeAll, 1))
    ensures SuiteCourse(setting, DELETING) ==
            [ItemScript(setting, [INIT_RESULT], BeforeAll, 1), ItemScript(setting, [DROP], Test, 2),
             ItemScript(setting, [USE], Test, 3)]
  {
    var tests := DELETING.tests;
    assert tests[1..] == [tests[1]] && [tests[1]][1..] == [];
    var c1 := AdvanceCourse(setting, Course([], 0, false), DELETING.beforeAll, BeforeAll);
    var c2 := GroupCourse(setting, DELETING, c1, tests[0]);
    var c3 := GroupCourse(setting, DELETING, c2, tests[1]);
    assert GroupsCourse(setting, DELETING, c3, []) == c3;
    assert GroupsCourse(setting, DELETING, c2, [tests[1]]) == c3;
  }

  /** When a test deletes a constant of beforeAll, the next test reads it unbound, though nothing
      need raise and the check accepts the suite. */
  lemma {:induction false} DeletingTestBreaks(setting: Setting)
    requires setting.table == map["d" := Row(Results, "x")] && DatabaseFetches(setting.fetch)
    requires !setting.world(1, 0).raises && !setting.world(2, 0).raises
    ensures MapsOf(DELETING, PREPARED_RESULT, PREPARED_RESULT)
    ensures !AllSound(SuiteTrace(setting, DELETING, PREPARED_RESULT, PREPARED_RESULT, FRESH))
  {
    BothAccepted();
    TablesFit(setting);
    SuiteSoundExactly(setting, DELETING, PREPARED_RESULT, PREPARED_RESULT, FRESH);
    DroppingBreaks(setting);
  }

  lemma {:induction false} DroppingBreaks(setting: Setting)
    requires setting.table == map["d" := Row(Results, "x")] && DatabaseFetches(setting.fetch)
    requires !setting.world(1, 0).raises && !setting.world(2, 0).raises
    ensures var scripts := SuiteCourse(setting, DELETING);
            Shaped(scripts) && !LastEffectsWrite(RunStart(DELETING, setting.table, FRESH), scripts)
  {
    var o := RunStart(DELETING, setting.table, FRESH);
    DroppingIsUntroubled(setting);
    DeletingCourse(setting);
    var scripts := SuiteCourse(setting, DELETING);
    OneFetched(setting, DROP, 2);
    OneFetched(setting, USE, 3);
    DroppedAfter(o, scripts[1], BoundBefore(o, scripts, 1, Row(Results, "x")));
    UnboundUseBreaks(o, scripts, 2);
  }

  lemma {:induction false} DroppedAfter(o: RunStart, s: Script, before: bool)
    requires o.table == map["d" := Row(Results, "x")] && |s.outs| == |s.commands|
    requires Alone(s.commands, DROP.cfg) && Untroubled(s)
    ensures !BoundAfter(o, s, Row(Results, "x"), before)
  {
    assert RemovedRow(o.table, DROP.cfg) == Some(Row(Results, "x"));
    assert WrittenRow(o.table, DROP.cfg, s.outs[0]) == None;
  }

  // ----- Orders that are not run as they are planned -----

  /** A deletion without an order of its own, and a use: the planner puts the use first, because both
      orders are one and its id is smaller. */
  const ZEROED := [RawCommand("b", Some(0), DROP.cfg), RawCommand("a", Some(1), USE.cfg)]

  /** The same with equal orders. */
  const TIED := [RawCommand("b", Some(1), DROP.cfg), RawCommand("a", Some(1), USE.cfg)]

  const PREPARED_LOCAL: Definitions := map["d" := Defined(Local, BeforeEach)]

  lemma {:induction false} UseThenDrop(raw: seq<RawCommand>)
    requires raw == ZEROED || raw == TIED
    ensures Schedule(raw) == [Command("a", 1, USE.cfg), Command("b", 1, DROP.cfg)]
  {
    var drop, use := Command("b", 1, DROP.cfg), Command("a", 1, USE.cfg);
    assert "a"[0] == 'a' && "b"[0] == 'b';
    assert CommandInputs(raw) == [drop, use];
    assert [drop, use][..1] == [drop] && [drop][..0] == [];
    assert Sorted([drop]) == Insert(drop, Sorted([])) == [drop];
    assert Sorted([drop, use]) == Insert(use, [drop]);
  }

  lemma {:induction false} UseThenDropPlanned(raw: seq<RawCommand>)
    requires raw == ZEROED || raw == TIED
    ensures Plan(raw, Test, PREPARED_LOCAL).Ok?
  {
    var use, drop := Command("a", 1, USE.cfg), Command("b", 1, DROP.cfg);
    var carried := CarryOver(PREPARED_LOCAL);
    UseThenDrop(raw);
    assert "d" in carried && carried["d"] == Defined(Local, BeforeEach).(order := 0);
    SingleRef(use, carried, "d");
    SingleRef(drop, carried, "d");
    PlanPair(use, drop, carried);
  }

  /** The deletion stored with order zero always comes first. */
  lemma {:induction false} DropThenUseFetched(run: seq<Command>)
    requires Fetched(ZEROED, run)
    ensures |run| == 2 && run[0].cfg == DROP.cfg && run[1].cfg == USE.cfg
  {
    var drop, use := (0, DROP.cfg), (1, USE.cfg);
    assert Keys(StoredCommands(ZEROED)) == [drop, use];
    assert |Keys(run)| == |multiset(Keys(run))| == 2;
    assert Keys(run) == [Key(run[0]), Key(run[1])];
    assert multiset(Keys(run)) == multiset{Key(run[0]), Key(run[1])} == multiset{drop, use};
    assert Key(run[0]) in multiset{drop, use} && Key(run[1]) in multiset{drop, use};
    assert run[0].order <= run[1].order;
    assert Key(run[0]) == drop ==> Key(run[1]) == use;
    assert drop != use && multiset{drop, use}[use] == 1;
  }

  /** A use after a deletion that completes reads an unbound constant. */
  lemma {:induction false} DropThenUseReadsUnbound(r: SectionRun)
    requires |r.commands| == |r.outs| == 2 && r.commands[0].cfg == DROP.cfg && r.commands[1].cfg == USE.cfg
    requires r.table == map["d" := Row(Local, "x")] && HasConstants(r.start) && !r.outs[0].raises && r.kind == TestItem
    ensures !Sound(r)
  {
    var row := Row(Local, "x");
    NamePlain();
    assert Running(r, 0) == Written(r.start, true);
    assert Refs(DROP.cfg) == ["d"] && RefsKnown(r.table, DROP.cfg) && RemovedRow(r.table, DROP.cfg) == Some(row);
    ConstantRemove(r.start, r.kind, row.context, row.name);
    RemoveEffect(r.start, r.kind, row, row);
    assert Running(r, 1) == RemovePath(r.start, r.kind, PathOf(row));
    BoundIsFound(Running(r, 1).scopes, row);
    assert Refs(r.commands[1].cfg)[0] == "d";
    assert !ReadsBound(r, 1);
  }

  lemma {:induction false} DropThenUseBreaks(
    setting: Setting, raw: seq<RawCommand>, s: Scopes, locals: map<string, Value>, position: nat)
    requires setting.table == map["d" := Row(Local, "x")] && HasConstants(s) && !setting.world(position, 0).raises
    requires var run := setting.fetch(position, raw);
             |run| == 2 && run[0].cfg == DROP.cfg && run[1].cfg == USE.cfg
    ensures !Sound(ItemRun(setting, raw, Test, PREPARED_LOCAL, s, locals, position))
  {
    var r := ItemRun(setting, raw, Test, PREPARED_LOCAL, s, locals, position);
    WithLocalsBound(s, locals, Row(Local, "x"));
    OthersPass(TestItem, DROP.cfg);
    assert r.outs[0] == Screen(TestItem, DROP.cfg, setting.world(position, 0));
    DropThenUseReadsUnbound(r);
  }

  /** With an order of zero the check accepts a test that every run of it breaks, whatever constants
      are bound, unless its deletion raises. */
  lemma {:induction false} ZeroOrderBreaks(setting: Setting, s: Scopes, locals: map<string, Value>, position: nat)
    requires setting.table == map["d" := Row(Local, "x")] && DatabaseFetches(setting.fetch)
    requires HasConstants(s) && !setting.world(position, 0).raises
    ensures Plan(ZEROED, Test, PREPARED_LOCAL).Ok?
    ensures !Sound(ItemRun(setting, ZEROED, Test, PREPARED_LOCAL, s, locals, position))
  {
    UseThenDropPlanned(ZEROED);
    assert Fetched(ZEROED, setting.fetch(position, ZEROED));
    DropThenUseFetched(setting.fetch(position, ZEROED));
    DropThenUseBreaks(setting, ZEROED, s, locals, position);
  }

  /** With equal orders the database may return the arrangement that was not planned; the run of it
      breaks. */
  lemma {:induction false} TiedOrdersBreak(setting: Setting, s: Scopes, locals: map<string, Value>, position: nat)
    requires setting.table == map["d" := Row(Local, "x")] && HasConstants(s) && !setting.world(position, 0).raises
    requires setting.fetch(position, TIED) == StoredCommands(TIED)
    ensures Fetched(TIED, setting.fetch(position, TIED)) && Plan(TIED, Test, PREPARED_LOCAL).Ok?
    ensures !Sound(ItemRun(setting, TIED, Test, PREPARED_LOCAL, s, locals, position))
  {
    UseThenDropPlanned(TIED);
    assert StoredCommands(TIED) == [Command("b", 1, DROP.cfg), Command("a", 1, USE.cfg)];
    DropThenUseBreaks(setting, TIED, s, locals, position);
  }

  // ----- Early returns -----

  const SAVE := Command("1", 1, SaveTable("s", Some(ResultConstant("d", "x", Raw))))
  const USE_SAVED := Command("2", 2, RunSuite(["d"], None))

  const SOURCE: Definitions := map["s" := PlannedDefinition("s", "0", 0, BeforeAll, "y", Results, JsonArray, None)]

  /** A table is saved from an empty list, then its declared result is used. */
  function SavingNothing(): SectionRun {
    SectionRun(Test, [SAVE, USE_SAVED], SOURCE, map["s" := Row(Results, "y"), "d" := Row(Results, "x")], TestItem,
               FRESH.(results := map["constants" := Dict(map["y" := List([])])]),
               [Outcome(Null, false, true, true), Outcome(Null, false, false, true)])
  }

  lemma {:induction false} SavingNames()
    ensures PlainName("x") && PlainName("y") && "x" != "y" && "s" != "d"
  {
    assert "x"[0] == 'x' && "y"[0] == 'y' && "s"[0] == 's' && "d"[0] == 'd';
  }

  lemma {:induction false} SavingPlanned()
    ensures PlanFrom([SAVE, USE_SAVED], Test, SOURCE).Ok?
  {
    var next := Updated(SAVE, Test, SOURCE);
    assert RefError(SAVE, Test, SOURCE, []) == None && ["s"][1..] == [];
    SavingNames();
    assert CommandError(SAVE, Test, SOURCE) == None;
    ReferenceAllowed(USE_SAVED, next, "d");
    assert [SAVE, USE_SAVED][1..] == [USE_SAVED] && [USE_SAVED][1..] == [];
    assert PlanFrom([], Test, Updated(USE_SAVED, Test, next)).Ok?;
    assert PlanFrom([USE_SAVED], Test, next).Ok?;
  }

  lemma {:induction false} ReferenceAllowed(c: Command, defs: Definitions, id: string)
    requires c.cfg == RunSuite([id], None)
    requires id in defs && Active(defs[id], Readable(Test), c.order)
    ensures CommandError(c, Test, defs) == None
  {
    assert [id][1..] == [];
    assert RefError(c, Test, defs, []) == None;
  }

  lemma {:induction false} SavingStart()
    ensures var s := SavingNothing().start;
            HasConstants(s) && Bound(s, Row(Results, "y")) && !Bound(s, Row(Results, "x"))
  {
    SavingNames();
    var s := SavingNothing().start;
    assert s.Get(Results) == s.results && s.Get(Local) == s.local && s.Get(Global) == s.global;
  }

  lemma {:induction false} SavingAgrees()
    ensures var r := SavingNothing();
            PlainTable(r.table) && Agrees(r.table, r.carried) && DeclarationsAgree(r.table, r.commands, r.section)
  {
    SavingNames();
    assert Declarations(USE_SAVED, Test) == [];
  }

  lemma {:induction false} SavingOrdered()
    ensures var r := SavingNothing(); InOrder(r.commands) && Positive(r.commands) && Consistent(r.carried, 0)
  {
  }

  lemma {:induction false} SavingAccepted()
    ensures Accepted(SavingNothing())
  {
    SavingAgrees();
    SavingOrdered();
    SavingPlanned();
  }

  lemma {:induction false} SavingInherits()
    ensures InheritsBound(SavingNothing())
  {
    SavingStart();
    assert RowOf(SOURCE["s"]) == Row(Results, "y");
  }

  lemma {:induction false} SavingRuns()
    ensures Running(SavingNothing(), 1) == Written(SavingNothing().start, true)
  {
    var r := SavingNothing();
    assert Refs(SAVE.cfg) == ["s"] && RefsKnown(r.table, SAVE.cfg);
    assert Running(r, 0) == Written(r.start, true);
  }

  lemma {:induction false} SecondReadsUnbound(r: SectionRun, id: string)
    requires |r.commands| == |r.outs| == 2 && r.commands[1].cfg == RunSuite([id], None)
    requires Running(r, 1) == Written(r.start, true) && HasConstants(r.start)
    requires id in r.table && PlainRow(r.table[id]) && !Bound(r.start, r.table[id])
    ensures !Sound(r)
  {
    BoundIsFound(r.start, r.table[id]);
    assert Refs(r.commands[1].cfg)[0] == id;
    assert !ReadsBound(r, 1);
  }

  /** When a command that declares a result returns early on empty rows, it does not write it, and
      an accepted section that inherits everything reads an unbound constant, though nothing
      raises. */
  lemma {:induction false} EmptyRowsBreak()
    ensures Accepted(SavingNothing()) && InheritsBound(SavingNothing())
    ensures forall k | 0 <= k < 2 :: !SavingNothing().outs[k].raises
    ensures !Sound(SavingNothing())
  {
    SavingAccepted();
    SavingInherits();
    SavingReadsUnbound();
  }

  lemma {:induction false} SavingReadsUnbound()
    ensures !Sound(SavingNothing())
  {
    SavingNames();
    SavingStart();
    SavingRuns();
    SecondReadsUnbound(SavingNothing(), "d");
  }
}
