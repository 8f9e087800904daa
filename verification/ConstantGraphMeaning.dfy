/** Acceptance of a section read off its commands' own fields: which of them must hold which
    constants, in which scopes and of which types. The checker's tables are not used here. */
module ConstantGraphMeaning {
  import opened Prelude
  import opened PyValues
  import opened ConstantGraph
  import opened ConstantGraphLaws

  /** The run envelope and the results can be read everywhere; globals in all but beforeAll and the
      sections of mocks; locals in tests and after them. */
  predicate MayRead(section: Section, c: ConstantContext) {
    match c
    case RunEnvelope => true
    case Global => section == BeforeEach || section == Test || section == AfterEach || section == AfterAll
    case Local => section == Test || section == AfterEach
    case Results => true
  }

  predicate MayWrite(section: Section, c: ConstantContext) {
    match c
    case RunEnvelope => section == MockPreResponse
    case Global => section == BeforeAll || section == AfterAll
    case Local => section == BeforeEach || section == Test || section == AfterEach
    case Results => true
  }

  const ANY_TYPE := {Raw, Json, JsonArray, Dataset, SqsQueue}

  /** The result constant of a command that can have one. */
  predicate HasResult(cfg: Cfg, r: ResultConstant) {
    (cfg.SendMessageQueue? || cfg.SaveTable? || cfg.ExportDataset? || cfg.RunSuite?) && cfg.result == Some(r)
  }

  /** The command declares d: the constant it initialises, or its result. */
  ghost predicate Declares(c: Command, section: Section, d: PlannedDefinition) {
    && d.commandId == c.id && d.order == c.order && d.section == section && d.deletedAt == None
    && ((c.cfg.InitConstant?
         && d.id == c.cfg.definitionId && d.name == c.cfg.name && d.context == c.cfg.context && d.valueType == c.cfg.sourceType)
        || (HasResult(c.cfg, ResultConstant(d.id, d.name, d.valueType)) && d.context == Results))
  }

  /** The command declares or deletes the id. */
  ghost predicate Touches(c: Command, id: string) {
    || c.cfg == DeleteConstant(id)
    || (c.cfg.InitConstant? && c.cfg.definitionId == id)
    || exists name, kind :: HasResult(c.cfg, ResultConstant(id, name, kind))
  }

  ghost predicate Undisturbed(commands: seq<Command>, from: nat, to: nat, id: string)
    requires to <= |commands|
  {
    forall i | from <= i < to :: !Touches(commands[i], id)
  }

  /** What an id stands for before command k: the last declaration not deleted since, an inherited
      one counting as declared at order zero. */
  ghost predicate Stands(
    commands: seq<Command>, section: Section, initial: Definitions, k: nat, id: string, d: PlannedDefinition)
    requires k <= |commands|
  {
    || StandsSince(commands, section, k, id, d)
    || (Undisturbed(commands, 0, k, id) && id in initial && initial[id].deletedAt == None && d == initial[id].(order := 0))
  }

  ghost predicate StandsSince(commands: seq<Command>, section: Section, k: nat, id: string, d: PlannedDefinition)
    requires k <= |commands|
  {
    exists j | 0 <= j < k :: DeclaredAt(commands, section, k, id, d, j)
  }

  ghost predicate DeclaredAt(
    commands: seq<Command>, section: Section, k: nat, id: string, d: PlannedDefinition, j: nat)
    requires j < k <= |commands|
  {
    Declares(commands[j], section, d) && d.id == id && Undisturbed(commands, j + 1, k, id)
  }

  /** Command k may refer to the id: it stands for a constant declared at a smaller order, in a
      readable scope and of one of the types. */
  ghost predicate MayRefer(
    commands: seq<Command>, section: Section, initial: Definitions, k: nat, id: string, types: set<SourceType>)
    requires k < |commands|
  {
    exists d ::
      && Stands(commands, section, initial, k, id, d)
      && d.order < commands[k].order && MayRead(section, d.context) && d.valueType in types
  }

  ghost predicate MayDelete(commands: seq<Command>, section: Section, initial: Definitions, k: nat, id: string)
    requires k < |commands|
  {
    exists d ::
      && Stands(commands, section, initial, k, id, d)
      && d.order < commands[k].order && MayRead(section, d.context) && MayWrite(section, d.context)
  }

  /** Command k may declare d: its scope can be written and no other constant of its name stands in
      it. */
  ghost predicate MayDeclare(
    commands: seq<Command>, section: Section, initial: Definitions, k: nat, d: PlannedDefinition)
    requires k < |commands|
  {
    && MayWrite(section, d.context)
    && forall id, e | Stands(commands, section, initial, k, id, e) :: !(e.name == d.name && e.context == d.context)
  }

  /** The constants in the fields of command k may all be referred to. */
  ghost predicate RefersRightly(commands: seq<Command>, section: Section, initial: Definitions, k: nat)
    requires k < |commands|
  {
    match commands[k].cfg
    case InitConstant(_, _, _, _, _) => true
    case Action(_) => true
    case DeleteConstant(target) => MayDelete(commands, section, initial, k, target)
    case SendMessageQueue(source, _) => MayRefer(commands, section, initial, k, source, {Raw, Json, JsonArray, Dataset})
    case SaveTable(source, _) => MayRefer(commands, section, initial, k, source, {Json, JsonArray, Dataset})
    case ExportDataset(source, _) => MayRefer(commands, section, initial, k, source, {Json, JsonArray, Dataset})
    case RunSuite(constants, _) =>
      forall i | 0 <= i < |constants| :: MayRefer(commands, section, initial, k, constants[i], ANY_TYPE)
    case Assert(code, actual) =>
      if code == JsonEquals || code == JsonEmpty || code == JsonNotEmpty || code == JsonContains
      then MayRefer(commands, section, initial, k, actual, {Json, Raw})
      else MayRefer(commands, section, initial, k, actual, {JsonArray})
  }

  ghost predicate FollowsRule(commands: seq<Command>, section: Section, initial: Definitions, k: nat)
    requires k < |commands|
  {
    && RefersRightly(commands, section, initial, k)
    && forall d | Declares(commands[k], section, d) :: MayDeclare(commands, section, initial, k, d)
  }

  // ----- The checker's tables -----

  lemma {:induction false} TablesAgree(section: Section, c: ConstantContext)
    ensures c in Readable(section) <==> MayRead(section, c)
    ensures c in Writable(section) <==> MayWrite(section, c)
  {
  }

  lemma {:induction false} DeclaresExactly(c: Command, section: Section, d: PlannedDefinition)
    ensures Declares(c, section, d) <==> Declarations(c, section) == [d]
    ensures Declarations(c, section) == [] || exists e :: Declarations(c, section) == [e]
  {
    if ResultOf(c.cfg).Some? {
      assert ResultOf(c.cfg).value == ResultConstant(
        ResultOf(c.cfg).value.definitionId, ResultOf(c.cfg).value.name, ResultOf(c.cfg).value.valueType);
    }
    if Declarations(c, section) != [] {
      assert Declarations(c, section) == [Declarations(c, section)[0]];
    }
  }

  lemma {:induction false} TouchesExactly(c: Command, section: Section, id: string)
    ensures Touches(c, id) <==>
            c.cfg == DeleteConstant(id) || (Declarations(c, section) != [] && Declarations(c, section)[0].id == id)
  {
    if ResultOf(c.cfg).Some? && ResultOf(c.cfg).value.definitionId == id {
      assert HasResult(c.cfg, ResultConstant(id, ResultOf(c.cfg).value.name, ResultOf(c.cfg).value.valueType));
    }
  }

  // ----- Latest events -----

  lemma {:induction false} UndisturbedGrows(commands: seq<Command>, from: nat, k: nat, id: string)
    requires from < k <= |commands|
    ensures Undisturbed(commands, from, k, id) <==> Undisturbed(commands, from, k - 1, id) && !Touches(commands[k - 1], id)
  {
  }

  lemma {:induction false} DeclaredAtGrows(
    commands: seq<Command>, section: Section, k: nat, id: string, d: PlannedDefinition, j: nat)
    requires j < k < |commands|
    ensures DeclaredAt(commands, section, k + 1, id, d, j)
        <==> DeclaredAt(commands, section, k, id, d, j) && !Touches(commands[k], id)
  {
    if j + 1 < k + 1 {
      UndisturbedGrows(commands, j + 1, k + 1, id);
    }
  }

  lemma {:induction false} DeclaringTouches(c: Command, section: Section, d: PlannedDefinition)
    ensures Declares(c, section, d) ==> Touches(c, d.id)
  {
    if Declares(c, section, d) && !c.cfg.InitConstant? {
      assert HasResult(c.cfg, ResultConstant(d.id, d.name, d.valueType));
    }
  }

  lemma {:induction false} StandsSinceStep(
    commands: seq<Command>, section: Section, k: nat, id: string, d: PlannedDefinition)
    requires k < |commands|
    ensures StandsSince(commands, section, k + 1, id, d) <==>
            if Touches(commands[k], id) then Declares(commands[k], section, d) && d.id == id
            else StandsSince(commands, section, k, id, d)
  {
    DeclaringTouches(commands[k], section, d);
    assert DeclaredAt(commands, section, k + 1, id, d, k) <==> Declares(commands[k], section, d) && d.id == id;
    forall j | 0 <= j < k
      ensures DeclaredAt(commands, section, k + 1, id, d, j)
          <==> DeclaredAt(commands, section, k, id, d, j) && !Touches(commands[k], id)
    {
      DeclaredAtGrows(commands, section, k, id, d, j);
    }
    if StandsSince(commands, section, k + 1, id, d) {
      var j :| 0 <= j < k + 1 && DeclaredAt(commands, section, k + 1, id, d, j);
      assert j < k ==> DeclaredAt(commands, section, k, id, d, j);
    }
    if StandsSince(commands, section, k, id, d) {
      var j :| 0 <= j < k && DeclaredAt(commands, section, k, id, d, j);
      assert !Touches(commands[k], id) ==> DeclaredAt(commands, section, k + 1, id, d, j);
    }
  }

  /** One command later an id stands for what that command declares, for nothing if it deletes it,
      and otherwise for what it stood for. */
  lemma {:induction false} StandsStep(
    commands: seq<Command>, section: Section, initial: Definitions, k: nat, id: string, d: PlannedDefinition)
    requires k < |commands|
    ensures Stands(commands, section, initial, k + 1, id, d) <==>
            if Touches(commands[k], id) then Declares(commands[k], section, d) && d.id == id
            else Stands(commands, section, initial, k, id, d)
  {
    StandsSinceStep(commands, section, k, id, d);
    UndisturbedGrows(commands, 0, k + 1, id);
  }

  /** An id stands for what its latest event declares. */
  lemma {:induction false} StandsExactly(
    commands: seq<Command>, section: Section, initial: Definitions, k: nat, id: string, d: PlannedDefinition)
    requires k <= |commands|
    ensures Stands(commands, section, initial, k, id, d) <==>
            LastEvent(commands, section, CarryOver(initial), k, id) == Event.Declared(d)
    decreases k
  {
    if k > 0 {
      StandsStep(commands, section, initial, k - 1, id, d);
      StandsExactly(commands, section, initial, k - 1, id, d);
      TouchesExactly(commands[k - 1], section, id);
      DeclaresExactly(commands[k - 1], section, d);
    }
  }

  // ----- The rule -----

  lemma {:induction false} RefersAllowed(
    commands: seq<Command>, section: Section, initial: Definitions, k: nat, id: string, types: set<SourceType>)
    requires k < |commands| && !commands[k].cfg.DeleteConstant?
    requires types == if CompatibleTypes(commands[k].cfg).Some? then CompatibleTypes(commands[k].cfg).value else ANY_TYPE
    ensures MayRefer(commands, section, initial, k, id, types)
        <==> RefAllowed(commands, section, CarryOver(initial), k, id)
  {
    var e := LastEvent(commands, section, CarryOver(initial), k, id);
    forall d ensures Stands(commands, section, initial, k, id, d) <==> e == Event.Declared(d) {
      StandsExactly(commands, section, initial, k, id, d);
    }
    if e.Declared? {
      TablesAgree(section, e.definition.context);
      EveryType(e.definition.valueType);
    }
  }

  lemma {:induction false} EveryType(t: SourceType)
    ensures t in ANY_TYPE
  {
  }

  lemma {:induction false} DeleteAllowed(
    commands: seq<Command>, section: Section, initial: Definitions, k: nat, id: string)
    requires k < |commands| && commands[k].cfg == DeleteConstant(id)
    ensures MayDelete(commands, section, initial, k, id)
        <==> RefAllowed(commands, section, CarryOver(initial), k, id)
  {
    var e := LastEvent(commands, section, CarryOver(initial), k, id);
    forall d ensures Stands(commands, section, initial, k, id, d) <==> e == Event.Declared(d) {
      StandsExactly(commands, section, initial, k, id, d);
    }
    if e.Declared? {
      TablesAgree(section, e.definition.context);
    }
  }

  ghost predicate ReferencesAllowed(commands: seq<Command>, section: Section, initial: Definitions, k: nat)
    requires k < |commands|
  {
    forall i | 0 <= i < |Refs(commands[k].cfg)| ::
      RefAllowed(commands, section, CarryOver(initial), k, Refs(commands[k].cfg)[i])
  }

  lemma {:induction false} OneReference(
    commands: seq<Command>, section: Section, initial: Definitions, k: nat, id: string)
    requires k < |commands| && |Refs(commands[k].cfg)| == 1 && Refs(commands[k].cfg)[0] == id
    ensures ReferencesAllowed(commands, section, initial, k) <==> RefAllowed(commands, section, CarryOver(initial), k, id)
  {
  }

  lemma {:induction false} SuiteReferences(commands: seq<Command>, section: Section, initial: Definitions, k: nat)
    requires k < |commands| && commands[k].cfg.RunSuite?
    ensures RefersRightly(commands, section, initial, k) <==> ReferencesAllowed(commands, section, initial, k)
  {
    var constants := commands[k].cfg.constants;
    forall i | 0 <= i < |constants|
      ensures MayRefer(commands, section, initial, k, constants[i], ANY_TYPE)
          <==> RefAllowed(commands, section, CarryOver(initial), k, constants[i])
    {
      RefersAllowed(commands, section, initial, k, constants[i], ANY_TYPE);
    }
    assert Refs(commands[k].cfg) == constants;
    if RefersRightly(commands, section, initial, k) {
      forall i | 0 <= i < |constants| ensures RefAllowed(commands, section, CarryOver(initial), k, constants[i]) {
        assert MayRefer(commands, section, initial, k, constants[i], ANY_TYPE);
      }
    }
    if ReferencesAllowed(commands, section, initial, k) {
      forall i | 0 <= i < |constants| ensures MayRefer(commands, section, initial, k, constants[i], ANY_TYPE) {
        assert RefAllowed(commands, section, CarryOver(initial), k, Refs(commands[k].cfg)[i]);
      }
    }
  }

  /** The fields of a command hold rightly exactly when its references are allowed. */
  lemma {:induction false} FieldsAreReferences(commands: seq<Command>, section: Section, initial: Definitions, k: nat)
    requires k < |commands|
    ensures RefersRightly(commands, section, initial, k) <==> ReferencesAllowed(commands, section, initial, k)
  {
    var cfg := commands[k].cfg;
    if cfg.RunSuite? {
      SuiteReferences(commands, section, initial, k);
    } else if cfg.DeleteConstant? {
      OneReference(commands, section, initial, k, cfg.target);
      DeleteAllowed(commands, section, initial, k, cfg.target);
    } else if cfg.SendMessageQueue? || cfg.SaveTable? || cfg.ExportDataset? {
      OneReference(commands, section, initial, k, cfg.source);
      RefersAllowed(commands, section, initial, k, cfg.source,
                    if cfg.SendMessageQueue? then {Raw, Json, JsonArray, Dataset} else {Json, JsonArray, Dataset});
      assert RefersRightly(commands, section, initial, k) <==> ReferencesAllowed(commands, section, initial, k);
    } else if cfg.Assert? {
      OneReference(commands, section, initial, k, cfg.actual);
      var whole := cfg.code == JsonEquals || cfg.code == JsonEmpty || cfg.code == JsonNotEmpty || cfg.code == JsonContains;
      RefersAllowed(commands, section, initial, k, cfg.actual, if whole then {Json, Raw} else {JsonArray});
      assert RefersRightly(commands, section, initial, k) <==> ReferencesAllowed(commands, section, initial, k);
    }
  }

  lemma {:induction false} DeclareAllowed(
    commands: seq<Command>, section: Section, initial: Definitions, k: nat, d: PlannedDefinition)
    requires k < |commands|
    ensures MayDeclare(commands, section, initial, k, d)
        <==> DeclarationAllowed(commands, section, CarryOver(initial), k, d)
  {
    TablesAgree(section, d.context);
    forall id, e
      ensures Stands(commands, section, initial, k, id, e)
          <==> LastEvent(commands, section, CarryOver(initial), k, id) == Event.Declared(e)
    {
      StandsExactly(commands, section, initial, k, id, e);
    }
  }

  lemma {:induction false} RuleIsAllowed(commands: seq<Command>, section: Section, initial: Definitions, k: nat)
    requires k < |commands|
    ensures FollowsRule(commands, section, initial, k) <==> CommandAllowed(commands, section, CarryOver(initial), k)
  {
    FieldsAreReferences(commands, section, initial, k);
    forall d
      ensures Declares(commands[k], section, d) <==> d in Declarations(commands[k], section)
      ensures MayDeclare(commands, section, initial, k, d)
          <==> DeclarationAllowed(commands, section, CarryOver(initial), k, d)
    {
      DeclaresExactly(commands[k], section, d);
      DeclareAllowed(commands, section, initial, k, d);
    }
  }

  /** A section is accepted exactly when every command's own fields follow the rule. */
  lemma {:induction false} AcceptedExactly(raw: seq<RawCommand>, section: Section, initial: Definitions)
    requires forall i | 0 <= i < |raw| :: raw[i].order.Some? ==> raw[i].order.value >= 0
    ensures Plan(raw, section, initial).Ok? <==>
            forall k | 0 <= k < |Schedule(raw)| :: FollowsRule(Schedule(raw), section, initial, k)
  {
    PlanRefinesRule(raw, section, initial);
    forall k | 0 <= k < |Schedule(raw)|
      ensures FollowsRule(Schedule(raw), section, initial, k)
          <==> CommandAllowed(Schedule(raw), section, CarryOver(initial), k)
    {
      RuleIsAllowed(Schedule(raw), section, initial, k);
    }
  }

  // ----- What is handed on and persisted -----

  /** The map handed on holds, live, what the ids stand for at the end, and nothing else. */
  lemma {:induction false} HandedOnExactly(
    raw: seq<RawCommand>, section: Section, initial: Definitions, id: string, d: PlannedDefinition)
    requires forall i | 0 <= i < |raw| :: raw[i].order.Some? ==> raw[i].order.value >= 0
    requires Plan(raw, section, initial).Ok?
    ensures var visible := Plan(raw, section, initial).value.visible;
            id in visible && visible[id].deletedAt == None && visible[id] == d
            <==> Stands(Schedule(raw), section, initial, |Schedule(raw)|, id, d)
  {
    PlanRefinesRule(raw, section, initial);
    StandsExactly(Schedule(raw), section, initial, |Schedule(raw)|, id, d);
    EventsMatchState(Schedule(raw), section, CarryOver(initial), |Schedule(raw)|, id);
  }

  /** The persisted definitions are those the commands declare. */
  lemma {:induction false} PersistedExactly(
    raw: seq<RawCommand>, section: Section, initial: Definitions, d: PlannedDefinition)
    requires Plan(raw, section, initial).Ok?
    ensures d in Plan(raw, section, initial).value.declared
        <==> exists k | 0 <= k < |Schedule(raw)| :: Declares(Schedule(raw)[k], section, d)
  {
    DeclaredByCommands(Schedule(raw), section, d);
  }

  lemma {:induction false} DeclaredByCommands(commands: seq<Command>, section: Section, d: PlannedDefinition)
    ensures d in AllDeclarations(commands, section) <==> exists k | 0 <= k < |commands| :: Declares(commands[k], section, d)
    decreases |commands|
  {
    if commands != [] {
      DeclaredByCommands(commands[1..], section, d);
      DeclaresExactly(commands[0], section, d);
      assert forall k | 0 <= k < |commands[1..]| :: commands[1..][k] == commands[k + 1];
      assert d in AllDeclarations(commands, section)
         <==> d in Declarations(commands[0], section) || d in AllDeclarations(commands[1..], section);
      if k :| 0 < k < |commands| && Declares(commands[k], section, d) {
        assert Declares(commands[1..][k - 1], section, d);
      }
    }
  }

  // ----- The order of planning -----

  /** Python's order of texts: the first difference decides, and a proper prefix comes first. */
  ghost predicate ComesFirst(a: string, b: string) {
    exists n: nat | n < |b| && n <= |a| :: DecidesAt(a, b, n)
  }

  ghost predicate DecidesAt(a: string, b: string, n: nat)
    requires n < |b| && n <= |a|
  {
    a[..n] == b[..n] && (n == |a| || a[n] < b[n])
  }

  lemma {:induction false} TextLessExactly(a: string, b: string)
    ensures TextLess(a, b) <==> ComesFirst(a, b)
    decreases |a|
  {
    if b != [] {
      if a == [] || a[0] < b[0] {
        assert DecidesAt(a, b, 0);
      } else if a[0] == b[0] {
        TextLessExactly(a[1..], b[1..]);
        assert a == [a[0]] + a[1..] && b == [b[0]] + b[1..];
        forall n: nat | n < |b[1..]| && n <= |a[1..]|
          ensures DecidesAt(a[1..], b[1..], n) <==> DecidesAt(a, b, n + 1)
        {
          assert a[..n + 1] == [a[0]] + a[1..][..n] && b[..n + 1] == [b[0]] + b[1..][..n];
        }
        if ComesFirst(a, b) {
          var n: nat :| n < |b| && n <= |a| && DecidesAt(a, b, n);
          assert n > 0;
          assert DecidesAt(a[1..], b[1..], n - 1);
        }
      } else {
        forall n: nat | n < |b| && n <= |a| ensures !DecidesAt(a, b, n) {
          assert n > 0 ==> a[..n][0] == a[0] && b[..n][0] == b[0];
        }
      }
    }
  }

  /** The first of two commands is planned no later than the second. */
  predicate NotAfter(a: Command, b: Command) {
    a.order < b.order || (a.order == b.order && !TextLess(b.id, a.id))
  }

  predicate Arranged(commands: seq<Command>) {
    forall i, j | 0 <= i < j < |commands| :: NotAfter(commands[i], commands[j])
  }

  lemma {:induction false} TextLessOrders(a: string, b: string, c: string)
    ensures !(TextLess(a, b) && TextLess(b, a))
    ensures !TextLess(b, a) && !TextLess(c, b) ==> !TextLess(c, a)
    decreases |a|
  {
    if a != [] && b != [] {
      TextLessOrders(a[1..], b[1..], if c == [] then [] else c[1..]);
    }
  }

  lemma {:induction false} InsertArranges(command: Command, sorted: seq<Command>)
    requires Arranged(sorted)
    ensures Arranged(Insert(command, sorted))
    decreases |sorted|
  {
    if sorted == [] {
    } else if Before(command, sorted[0]) {
      TextLessOrders(command.id, sorted[0].id, "");
      forall j | 0 <= j < |sorted| ensures NotAfter(command, sorted[j]) {
        TextLessOrders(command.id, sorted[0].id, sorted[j].id);
      }
    } else {
      assert forall i | 0 <= i < |sorted[1..]| :: sorted[1..][i] == sorted[i + 1];
      var rest := Insert(command, sorted[1..]);
      InsertArranges(command, sorted[1..]);
      InsertPermutes(command, sorted[1..]);
      forall j | 0 <= j < |rest| ensures NotAfter(sorted[0], rest[j]) {
        assert rest[j] in multiset(rest);
        if rest[j] != command {
          assert rest[j] in sorted[1..];
        }
      }
    }
  }

  lemma {:induction false} SortedArranges(commands: seq<Command>)
    ensures Arranged(Sorted(commands))
    decreases |commands|
  {
    if commands != [] {
      SortedArranges(commands[..|commands| - 1]);
      InsertArranges(commands[|commands| - 1], Sorted(commands[..|commands| - 1]));
    }
  }

  /** The raw command at position i, counted from one, at its own order if it has one other than
      zero. */
  function Numbered(raw: RawCommand, position: nat): Command {
    match raw.order
    case None => Command(raw.id, position, raw.cfg)
    case Some(n) => Command(raw.id, if n == 0 then position else n, raw.cfg)
  }

  function AllNumbered(raw: seq<RawCommand>): seq<Command> {
    seq(|raw|, i requires 0 <= i < |raw| => Numbered(raw[i], i + 1))
  }

  lemma {:induction false} InputsAreNumbered(raw: seq<RawCommand>)
    ensures CommandInputs(raw) == AllNumbered(raw)
  {
  }

  /** The commands are planned by ascending order and, among equal orders, by ascending id. */
  lemma {:induction false} ScheduleExactly(raw: seq<RawCommand>)
    ensures Arranged(Schedule(raw)) && multiset(Schedule(raw)) == multiset(AllNumbered(raw))
  {
    InputsAreNumbered(raw);
    SortedSorts(AllNumbered(raw));
    SortedArranges(AllNumbered(raw));
  }
}
