/** Laws of the planner: what every step keeps, the declarative rule it refines, and its
    independence of the order and the ids of the commands it is given. */
module ConstantGraphLaws {
  import opened Prelude
  import opened PyValues
  import opened ConstantGraph

  // ----- The schedule -----

  predicate InOrder(commands: seq<Command>) {
    forall i, j | 0 <= i < j < |commands| :: commands[i].order <= commands[j].order
  }

  predicate Positive(commands: seq<Command>) {
    forall i | 0 <= i < |commands| :: commands[i].order > 0
  }

  /** A command without its id, which only breaks ties. */
  function Key(command: Command): (int, Cfg) {
    (command.order, command.cfg)
  }

  function Keys(commands: seq<Command>): seq<(int, Cfg)> {
    seq(|commands|, i requires 0 <= i < |commands| => Key(commands[i]))
  }

  lemma {:induction false} KeysAppend(a: seq<Command>, b: seq<Command>)
    ensures Keys(a + b) == Keys(a) + Keys(b)
  {
  }

  lemma {:induction false} InsertPermutes(command: Command, sorted: seq<Command>)
    ensures multiset(Insert(command, sorted)) == multiset(sorted) + multiset{command}
    decreases |sorted|
  {
    if sorted != [] && !Before(command, sorted[0]) {
      InsertPermutes(command, sorted[1..]);
      assert sorted == [sorted[0]] + sorted[1..];
    }
  }

  lemma {:induction false} InsertKeys(command: Command, sorted: seq<Command>)
    ensures multiset(Keys(Insert(command, sorted))) == multiset(Keys(sorted)) + multiset{Key(command)}
    decreases |sorted|
  {
    if sorted == [] {
      assert Keys([command]) == [Key(command)];
    } else if Before(command, sorted[0]) {
      KeysAppend([command], sorted);
      assert Keys([command]) == [Key(command)];
    } else {
      InsertKeys(command, sorted[1..]);
      assert sorted == [sorted[0]] + sorted[1..];
      KeysAppend([sorted[0]], sorted[1..]);
      KeysAppend([sorted[0]], Insert(command, sorted[1..]));
    }
  }

  lemma {:induction false} InsertInOrder(command: Command, sorted: seq<Command>)
    requires InOrder(sorted)
    ensures InOrder(Insert(command, sorted))
    decreases |sorted|
  {
    if sorted != [] && !Before(command, sorted[0]) {
      var rest := Insert(command, sorted[1..]);
      InsertInOrder(command, sorted[1..]);
      InsertPermutes(command, sorted[1..]);
      assert Insert(command, sorted) == [sorted[0]] + rest;
      forall j | 0 <= j < |rest| ensures sorted[0].order <= rest[j].order {
        assert rest[j] in multiset(rest);
        assert rest[j] == command || rest[j] in sorted[1..];
      }
    }
  }

  /** The schedule is a permutation of the commands, by ascending order. */
  lemma {:induction false} SortedSorts(commands: seq<Command>)
    ensures InOrder(Sorted(commands))
    ensures multiset(Sorted(commands)) == multiset(commands)
    ensures multiset(Keys(Sorted(commands))) == multiset(Keys(commands))
    decreases |commands|
  {
    if commands != [] {
      var last, init := commands[|commands| - 1], commands[..|commands| - 1];
      assert commands == init + [last];
      SortedSorts(init);
      InsertInOrder(last, Sorted(init));
      InsertPermutes(last, Sorted(init));
      InsertKeys(last, Sorted(init));
      KeysAppend(init, [last]);
      assert Keys([last]) == [Key(last)];
    }
  }

  lemma {:induction false} SchedulePositive(raw: seq<RawCommand>)
    requires forall i | 0 <= i < |raw| :: raw[i].order.Some? ==> raw[i].order.value >= 0
    ensures Positive(Schedule(raw)) && InOrder(Schedule(raw))
  {
    var sorted, inputs := Schedule(raw), CommandInputs(raw);
    SortedSorts(inputs);
    assert Positive(inputs);
    forall i | 0 <= i < |sorted| ensures sorted[i].order > 0 {
      assert sorted[i] in multiset(sorted) && multiset(sorted) == multiset(inputs);
      assert sorted[i] in inputs;
    }
  }

  // ----- What every step keeps -----

  predicate Live(defs: Definitions, id: string) {
    id in defs && defs[id].deletedAt.None?
  }

  predicate KeysMatch(defs: Definitions) {
    forall id | id in defs :: defs[id].id == id
  }

  /** No two live definitions share a name and a scope. */
  ghost predicate LiveInjective(defs: Definitions) {
    forall a, b | Live(defs, a) && Live(defs, b) && defs[a].name == defs[b].name && defs[a].context == defs[b].context ::
      a == b
  }

  /** Everything recorded so far happened at the given order or earlier. */
  predicate Within(defs: Definitions, order: int) {
    forall id | id in defs ::
      defs[id].order <= order && (defs[id].deletedAt.Some? ==> defs[id].deletedAt.value <= order)
  }

  ghost predicate Consistent(defs: Definitions, order: int) {
    KeysMatch(defs) && LiveInjective(defs) && Within(defs, order)
  }

  lemma {:induction false} CarryOverConsistent(initial: Definitions)
    requires KeysMatch(initial) && LiveInjective(initial)
    ensures Consistent(CarryOver(initial), 0)
    ensures forall id :: Live(CarryOver(initial), id) <==> Live(initial, id)
    ensures forall id | id in CarryOver(initial) :: Live(CarryOver(initial), id)
  {
    var carried := CarryOver(initial);
    assert forall id | id in carried :: id in initial && carried[id] == initial[id].(order := 0);
  }

  lemma {:induction false} UpdatedWithin(command: Command, section: Section, defs: Definitions, order: int)
    requires Within(defs, order) && order <= command.order
    ensures Within(Updated(command, section, defs), command.order)
  {
  }

  /** An accepted command keeps the live definitions injective. */
  lemma {:induction false} StepKeepsConsistent(command: Command, section: Section, defs: Definitions, order: int)
    requires Consistent(defs, order) && order <= command.order
    requires CommandError(command, section, defs).None?
    ensures Consistent(Updated(command, section, defs), command.order)
  {
    UpdatedWithin(command, section, defs, order);
    var declared := Declarations(command, section);
    if declared != [] {
      var d := declared[0];
      forall id | Live(defs, id) ensures !(defs[id].name == d.name && defs[id].context == d.context) {
        assert Active(defs[id], ALL_CONTEXTS, command.order + 1);
      }
    }
  }

  /** Every step of the planning loop, and the map handed to the next section, keeps live
      definitions injective. */
  lemma {:induction false} PlanKeepsConsistent(commands: seq<Command>, section: Section, defs: Definitions, order: int)
    requires Consistent(defs, order) && InOrder(commands)
    requires commands != [] ==> order <= commands[0].order
    requires PlanFrom(commands, section, defs).Ok?
    ensures KeysMatch(PlanFrom(commands, section, defs).value) && LiveInjective(PlanFrom(commands, section, defs).value)
    decreases |commands|
  {
    if commands != [] {
      StepKeepsConsistent(commands[0], section, defs, order);
      PlanKeepsConsistent(commands[1..], section, Updated(commands[0], section, defs), commands[0].order);
    }
  }

  lemma {:induction false} PlanHandsOnConsistent(raw: seq<RawCommand>, section: Section, initial: Definitions)
    requires KeysMatch(initial) && LiveInjective(initial)
    requires forall i | 0 <= i < |raw| :: raw[i].order.Some? ==> raw[i].order.value >= 0
    requires Plan(raw, section, initial).Ok?
    ensures KeysMatch(Plan(raw, section, initial).value.visible)
    ensures LiveInjective(Plan(raw, section, initial).value.visible)
  {
    SchedulePositive(raw);
    CarryOverConsistent(initial);
    PlanKeepsConsistent(Schedule(raw), section, CarryOver(initial), 0);
  }

  /** A carried-over map holds only live definitions of order zero. */
  predicate Carried(defs: Definitions) {
    forall id | id in defs :: defs[id].order == 0 && defs[id].deletedAt.None?
  }

  /** At a given order, the duplicate check sees every carried definition exactly when the order
      is not negative. */
  lemma {:induction false} DuplicateCheckExactly(order: int)
    ensures 0 <= order <==>
            forall defs: Definitions, d: PlannedDefinition, id: string
              | Carried(defs) && id in defs && defs[id].name == d.name && defs[id].context == d.context ::
              NameTaken(defs, d, order)
  {
    if 0 <= order {
      forall defs: Definitions, d: PlannedDefinition, id: string
        | Carried(defs) && id in defs && defs[id].name == d.name && defs[id].context == d.context
        ensures NameTaken(defs, d, order)
      {
        assert Active(defs[id], ALL_CONTEXTS, order + 1);
      }
    } else {
      var d := PlannedDefinition("a", "", 0, Test, "x", Local, Raw, None);
      var defs := map["a" := d];
      assert Carried(defs) && "a" in defs && !NameTaken(defs, d, order);
    }
  }

  /** With a negative order a test section re-declares a name its initial map already holds, and
      two live definitions share it afterwards. */
  lemma {:induction false} NegativeOrderSlips()
    ensures var initial := map["a" := PlannedDefinition("a", "", 1, BeforeEach, "x", Local, Raw, None)];
            var raw := [RawCommand("c", Some(-1), InitConstant("b", "x", Local, Raw, ""))];
            && KeysMatch(initial) && LiveInjective(initial)
            && Plan(raw, Test, initial).Ok?
            && !LiveInjective(Plan(raw, Test, initial).value.visible)
  {
    var initial := map["a" := PlannedDefinition("a", "", 1, BeforeEach, "x", Local, Raw, None)];
    var raw := [RawCommand("c", Some(-1), InitConstant("b", "x", Local, Raw, ""))];
    var command := Command("c", -1, InitConstant("b", "x", Local, Raw, ""));
    assert "a"[0] == 'a' && "b"[0] == 'b';
    assert CommandInputs(raw) == [command];
    assert [command][..0] == [] && Sorted([]) == [];
    assert Schedule(raw) == [command];
    assert [command][1..] == [];
    var carried := CarryOver(initial);
    assert !NameTaken(carried, Declarations(command, Test)[0], -1);
    assert CommandError(command, Test, carried).None?;
    var visible := Updated(command, Test, carried);
    assert Plan(raw, Test, initial).value.visible == visible;
    assert Live(visible, "a") && Live(visible, "b");
  }

  // ----- The declarative rule -----

  /** The definitions after the first k commands, whether or not they are allowed. */
  function StateAfter(commands: seq<Command>, section: Section, defs: Definitions, k: nat): Definitions
    requires k <= |commands|
  {
    if k == 0 then defs else Updated(commands[k - 1], section, StateAfter(commands, section, defs, k - 1))
  }

  datatype Event = Nothing | Deleted | Declared(definition: PlannedDefinition)

  /** The latest event on an id before command k: looked up backwards through the commands, and
      in the carried-over map before the first. */
  function LastEvent(commands: seq<Command>, section: Section, carried: Definitions, k: nat, id: string): Event
    requires k <= |commands|
  {
    if k == 0 then
      if Live(carried, id) then Declared(carried[id]) else Nothing
    else
      var c := commands[k - 1];
      var declared := Declarations(c, section);
      if c.cfg.DeleteConstant? && c.cfg.target == id then Deleted
      else if declared != [] && declared[0].id == id then Declared(declared[0])
      else LastEvent(commands, section, carried, k - 1, id)
  }

  predicate RefAllowed(commands: seq<Command>, section: Section, carried: Definitions, k: nat, id: string)
    requires k < |commands|
  {
    var event, cfg := LastEvent(commands, section, carried, k, id), commands[k].cfg;
    && event.Declared?
    && event.definition.order < commands[k].order
    && event.definition.context in Readable(section)
    && (CompatibleTypes(cfg).Some? ==> event.definition.valueType in CompatibleTypes(cfg).value)
    && (cfg.DeleteConstant? ==> event.definition.context in Writable(section))
  }

  ghost predicate DeclarationAllowed(
    commands: seq<Command>, section: Section, carried: Definitions, k: nat, d: PlannedDefinition)
    requires k < |commands|
  {
    && d.context in Writable(section)
    && forall id | LastEvent(commands, section, carried, k, id).Declared? ::
         var e := LastEvent(commands, section, carried, k, id).definition;
         !(e.name == d.name && e.context == d.context)
  }

  /** The rule for one command, stated on the history alone. */
  ghost predicate CommandAllowed(commands: seq<Command>, section: Section, carried: Definitions, k: nat)
    requires k < |commands|
  {
    && (forall i | 0 <= i < |Refs(commands[k].cfg)| ::
          RefAllowed(commands, section, carried, k, Refs(commands[k].cfg)[i]))
    && (forall d | d in Declarations(commands[k], section) :: DeclarationAllowed(commands, section, carried, k, d))
  }

  lemma {:induction false} EventsMatchState(
    commands: seq<Command>, section: Section, carried: Definitions, k: nat, id: string)
    requires k <= |commands|
    ensures var s, e := StateAfter(commands, section, carried, k), LastEvent(commands, section, carried, k, id);
            && (Live(s, id) <==> e.Declared?)
            && (Live(s, id) ==> s[id] == e.definition)
    decreases k
  {
    if k > 0 {
      EventsMatchState(commands, section, carried, k - 1, id);
      assert Declarations(commands[k - 1], section) != [] ==> Declarations(commands[k - 1], section)[0].deletedAt.None?;
    }
  }

  lemma {:induction false} StateWithin(commands: seq<Command>, section: Section, carried: Definitions, k: nat)
    requires k < |commands| && InOrder(commands) && Positive(commands) && Within(carried, 0)
    ensures Within(StateAfter(commands, section, carried, k), commands[k].order)
    decreases k
  {
    if k > 0 {
      StateWithin(commands, section, carried, k - 1);
      UpdatedWithin(commands[k - 1], section, StateAfter(commands, section, carried, k - 1), commands[k - 1].order);
    }
  }

  /** Some live definition has the name and scope of d. */
  ghost predicate NameLive(defs: Definitions, d: PlannedDefinition) {
    exists id :: Live(defs, id) && defs[id].name == d.name && defs[id].context == d.context
  }

  lemma {:induction false} NameTakenIsLive(defs: Definitions, d: PlannedDefinition, order: int)
    requires Within(defs, order)
    ensures NameTaken(defs, d, order)
        <==> NameLive(defs, d)
  {
    forall id | Live(defs, id)
      ensures Active(defs[id], ALL_CONTEXTS, order + 1)
    {
      EveryContext(defs[id].context);
    }
  }

  lemma {:induction false} EveryContext(c: ConstantContext)
    ensures c in ALL_CONTEXTS
  {
    match c
    case RunEnvelope =>
    case Global =>
    case Local =>
    case Results =>
  }

  lemma {:induction false} FreeNameMatches(
    commands: seq<Command>, section: Section, carried: Definitions, k: nat, d: PlannedDefinition)
    requires k < |commands|
    ensures DeclarationAllowed(commands, section, carried, k, d)
        <==> (d.context in Writable(section) && !NameLive(StateAfter(commands, section, carried, k), d))
  {
    var s := StateAfter(commands, section, carried, k);
    forall id
      ensures Live(s, id) <==> LastEvent(commands, section, carried, k, id).Declared?
      ensures Live(s, id) ==> s[id] == LastEvent(commands, section, carried, k, id).definition
    {
      EventsMatchState(commands, section, carried, k, id);
    }
    if NameLive(s, d) {
      var id :| Live(s, id) && s[id].name == d.name && s[id].context == d.context;
      assert LastEvent(commands, section, carried, k, id).Declared?;
    }
  }

  /** The checks on one command accept exactly what the rule allows. */
  lemma {:induction false} ChecksMatchRule(commands: seq<Command>, section: Section, carried: Definitions, k: nat)
    requires k < |commands| && InOrder(commands) && Positive(commands) && Within(carried, 0)
    ensures CommandError(commands[k], section, StateAfter(commands, section, carried, k)).None?
        <==> CommandAllowed(commands, section, carried, k)
  {
    var s, c := StateAfter(commands, section, carried, k), commands[k];
    StateWithin(commands, section, carried, k);
    RefsMatchRule(commands, section, carried, k, Refs(c.cfg));
    var declared := Declarations(c, section);
    if declared != [] {
      var d := declared[0];
      NameTakenIsLive(s, d, c.order);
      assert declared == [d];
      FreeNameMatches(commands, section, carried, k, d);
    }
  }

  lemma {:induction false} RefsMatchRule(
    commands: seq<Command>, section: Section, carried: Definitions, k: nat, refs: seq<string>)
    requires k < |commands| && Within(StateAfter(commands, section, carried, k), commands[k].order)
    ensures RefError(commands[k], section, StateAfter(commands, section, carried, k), refs).None?
        <==> forall i | 0 <= i < |refs| :: RefAllowed(commands, section, carried, k, refs[i])
    decreases |refs|
  {
    if refs != [] {
      EventsMatchState(commands, section, carried, k, refs[0]);
      RefsMatchRule(commands, section, carried, k, refs[1..]);
      assert refs == [refs[0]] + refs[1..];
    }
  }

  /** The rule, command by command. */
  ghost predicate AllowedFrom(commands: seq<Command>, section: Section, carried: Definitions, k: nat)
    requires k <= |commands|
    decreases |commands| - k
  {
    k < |commands| ==> CommandAllowed(commands, section, carried, k) && AllowedFrom(commands, section, carried, k + 1)
  }

  lemma {:induction false} AllowedFromEach(commands: seq<Command>, section: Section, carried: Definitions, k: nat)
    requires k <= |commands|
    ensures AllowedFrom(commands, section, carried, k) <==>
              forall j | k <= j < |commands| :: CommandAllowed(commands, section, carried, j)
    decreases |commands| - k
  {
    if k < |commands| {
      AllowedFromEach(commands, section, carried, k + 1);
    }
  }

  lemma {:induction false} PlanStepMatchesRule(commands: seq<Command>, section: Section, carried: Definitions, k: nat)
    requires k < |commands| && InOrder(commands) && Positive(commands) && Within(carried, 0)
    ensures PlanFrom(commands[k..], section, StateAfter(commands, section, carried, k)).Ok? <==>
              && CommandAllowed(commands, section, carried, k)
              && PlanFrom(commands[k + 1..], section, StateAfter(commands, section, carried, k + 1)).Ok?
  {
    ChecksMatchRule(commands, section, carried, k);
    PlanStep(commands, k, section, StateAfter(commands, section, carried, k));
  }

  lemma {:induction false} PlanFromMatchesRule(commands: seq<Command>, section: Section, carried: Definitions, k: nat)
    requires k <= |commands| && InOrder(commands) && Positive(commands) && Within(carried, 0)
    ensures PlanFrom(commands[k..], section, StateAfter(commands, section, carried, k)).Ok?
        <==> AllowedFrom(commands, section, carried, k)
    decreases |commands| - k
  {
    if k < |commands| {
      PlanStepMatchesRule(commands, section, carried, k);
      PlanFromMatchesRule(commands, section, carried, k + 1);
    }
  }

  lemma {:induction false} PlanFromReaches(commands: seq<Command>, section: Section, carried: Definitions, k: nat)
    requires k <= |commands|
    ensures var r := PlanFrom(commands[k..], section, StateAfter(commands, section, carried, k));
            r.Ok? ==> r.value == StateAfter(commands, section, carried, |commands|)
    decreases |commands| - k
  {
    if k < |commands| {
      PlanStep(commands, k, section, StateAfter(commands, section, carried, k));
      PlanFromReaches(commands, section, carried, k + 1);
    }
  }

  /** The incremental planner accepts a section exactly when every command obeys the rule: each
      reference's latest event is a declaration of smaller order, readable and of a compatible
      type; each declaration is writable and its name is free. */
  lemma {:induction false} PlanRefinesRule(raw: seq<RawCommand>, section: Section, initial: Definitions)
    requires forall i | 0 <= i < |raw| :: raw[i].order.Some? ==> raw[i].order.value >= 0
    ensures Plan(raw, section, initial).Ok? <==>
            forall k | 0 <= k < |Schedule(raw)| :: CommandAllowed(Schedule(raw), section, CarryOver(initial), k)
    ensures Plan(raw, section, initial).Ok? ==>
            Plan(raw, section, initial).value.visible
            == StateAfter(Schedule(raw), section, CarryOver(initial), |Schedule(raw)|)
  {
    SchedulePositive(raw);
    assert Within(CarryOver(initial), 0);
    PlanFromMatchesRule(Schedule(raw), section, CarryOver(initial), 0);
    AllowedFromEach(Schedule(raw), section, CarryOver(initial), 0);
    PlanFromReaches(Schedule(raw), section, CarryOver(initial), 0);
    assert Schedule(raw)[0..] == Schedule(raw);
  }
}
