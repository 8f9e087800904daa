/** The static checker of constant definitions (command_constant_definition_registry.py): which
    commands of a section may read, declare and delete which constants. */
module ConstantGraph {
  import opened Prelude
  import opened PyValues

  datatype Section =
    | Test | BeforeAll | BeforeEach | AfterEach | AfterAll
    | MockPreResponse | MockPostResponse | MockQueue

  datatype SourceType = Raw | Json | JsonArray | Dataset | SqsQueue

  datatype ResultConstant = ResultConstant(definitionId: string, name: string, valueType: SourceType)

  datatype PlainAction = Sleep | DropTable | CleanTable | DropDataset | CleanDataset

  datatype AssertCode =
    | JsonEquals | JsonEmpty | JsonNotEmpty | JsonContains
    | JsonArrayEquals | JsonArrayEmpty | JsonArrayNotEmpty | JsonArrayContains

  /** A command's configuration, as convert_to_config_command_type types it. An initConstant may
      still carry a target path, empty if it does not; only the target policy looks at it. */
  datatype Cfg =
    | InitConstant(definitionId: string, name: string, context: ConstantContext, sourceType: SourceType, target: string)
    | DeleteConstant(target: string)
    | Action(action: PlainAction)
    | SendMessageQueue(source: string, result: Option<ResultConstant>)
    | SaveTable(source: string, result: Option<ResultConstant>)
    | ExportDataset(source: string, result: Option<ResultConstant>)
    | RunSuite(constants: seq<string>, result: Option<ResultConstant>)
    | Assert(code: AssertCode, actual: string)

  /** A raw command; an absent or zero order stands for its position. */
  datatype RawCommand = RawCommand(id: string, order: Option<int>, cfg: Cfg)

  datatype Command = Command(id: string, order: int, cfg: Cfg)

  datatype PlannedDefinition = PlannedDefinition(
    id: string, commandId: string, order: int, section: Section, name: string,
    context: ConstantContext, valueType: SourceType, deletedAt: Option<int>)

  type Definitions = map<string, PlannedDefinition>

  datatype PlanError =
    | NotVisible(id: string)
    | IncompatibleType(name: string)
    | NotDeletable(name: string)
    | NotWritable(context: ConstantContext)
    | AlreadyDefined(name: string)

  datatype Planned = Planned(declared: seq<PlannedDefinition>, visible: Definitions)

  // ----- Tables -----

  function Readable(section: Section): set<ConstantContext> {
    match section
    case BeforeAll => {RunEnvelope, Results}
    case BeforeEach => {RunEnvelope, Global, Results}
    case Test => {RunEnvelope, Global, Local, Results}
    case AfterEach => {RunEnvelope, Global, Local, Results}
    case AfterAll => {RunEnvelope, Global, Results}
    case MockPreResponse => {RunEnvelope, Results}
    case MockPostResponse => {RunEnvelope, Results}
    case MockQueue => {RunEnvelope, Results}
  }

  function Writable(section: Section): set<ConstantContext> {
    match section
    case BeforeAll => {Global, Results}
    case BeforeEach => {Local, Results}
    case Test => {Local, Results}
    case AfterEach => {Local, Results}
    case AfterAll => {Global, Results}
    case MockPreResponse => {RunEnvelope, Results}
    case MockPostResponse => {Results}
    case MockQueue => {Results}
  }

  /** The types a command's references may have; None where the table has no entry. */
  function CompatibleTypes(cfg: Cfg): Option<set<SourceType>> {
    match cfg
    case SendMessageQueue(_, _) => Some({Raw, Json, JsonArray, Dataset})
    case SaveTable(_, _) => Some({Json, JsonArray, Dataset})
    case ExportDataset(_, _) => Some({Json, JsonArray, Dataset})
    case Assert(code, _) =>
      if code in {JsonEquals, JsonEmpty, JsonNotEmpty, JsonContains} then Some({Json, Raw}) else Some({JsonArray})
    case _ => None
  }

  /** The definitions a command refers to, in checking order. */
  function Refs(cfg: Cfg): seq<string> {
    match cfg
    case DeleteConstant(target) => [target]
    case SendMessageQueue(source, _) => [source]
    case SaveTable(source, _) => [source]
    case ExportDataset(source, _) => [source]
    case RunSuite(constants, _) => constants
    case Assert(_, actual) => [actual]
    case _ => []
  }

  function ResultOf(cfg: Cfg): Option<ResultConstant> {
    match cfg
    case SendMessageQueue(_, r) => r
    case SaveTable(_, r) => r
    case ExportDataset(_, r) => r
    case RunSuite(_, r) => r
    case _ => None
  }

  /** `_planned_declarations`. */
  function Declarations(command: Command, section: Section): seq<PlannedDefinition> {
    match command.cfg
    case InitConstant(id, name, context, sourceType, _) =>
      [PlannedDefinition(id, command.id, command.order, section, name, context, sourceType, None)]
    case _ =>
      match ResultOf(command.cfg)
      case None => []
      case Some(r) =>
        [PlannedDefinition(r.definitionId, command.id, command.order, section, r.name, Results, r.valueType, None)]
  }

  // ----- Planning -----

  /** `_carry_over_visible_map`. */
  function CarryOver(source: Definitions): Definitions {
    map id | id in source && source[id].deletedAt.None? :: source[id].(order := 0)
  }

  predicate Active(d: PlannedDefinition, readable: set<ConstantContext>, order: int) {
    && d.context in readable
    && d.order < order
    && !(d.deletedAt.Some? && d.deletedAt.value <= order)
  }

  const ALL_CONTEXTS := {RunEnvelope, Global, Local, Results}

  /** The first reference of a command that `_validate_ref_visibility` refuses, if any. */
  function RefError(command: Command, section: Section, defs: Definitions, refs: seq<string>): Option<PlanError> {
    if refs == [] then None
    else if refs[0] !in defs || !Active(defs[refs[0]], Readable(section), command.order) then Some(NotVisible(refs[0]))
    else
      var d, types := defs[refs[0]], CompatibleTypes(command.cfg);
      if types.Some? && d.valueType !in types.value then Some(IncompatibleType(d.name))
      else if command.cfg.DeleteConstant? && d.context !in Writable(section) then Some(NotDeletable(d.name))
      else RefError(command, section, defs, refs[1..])
  }

  /** A visible definition with the same name and scope. */
  predicate NameTaken(defs: Definitions, d: PlannedDefinition, order: int) {
    exists id | id in defs ::
      Active(defs[id], ALL_CONTEXTS, order + 1) && defs[id].name == d.name && defs[id].context == d.context
  }

  /** The reason `_validate_declarations` refuses a declaration, if any. */
  function DeclarationError(d: PlannedDefinition, section: Section, defs: Definitions, order: int): Option<PlanError> {
    if d.context !in Writable(section) then Some(NotWritable(d.context))
    else if NameTaken(defs, d, order) then Some(AlreadyDefined(d.name))
    else None
  }

  function DeclarationsError(command: Command, section: Section, defs: Definitions): Option<PlanError> {
    var declared := Declarations(command, section);
    if declared == [] then None else DeclarationError(declared[0], section, defs, command.order)
  }

  /** The definitions after an accepted command. */
  function Updated(command: Command, section: Section, defs: Definitions): Definitions {
    if command.cfg.DeleteConstant? then
      if command.cfg.target in defs
      then defs[command.cfg.target := defs[command.cfg.target].(deletedAt := Some(command.order))]
      else defs
    else
      var declared := Declarations(command, section);
      if declared == [] then defs else defs[declared[0].id := declared[0]]
  }

  function CommandError(command: Command, section: Section, defs: Definitions): Option<PlanError> {
    var refused := RefError(command, section, defs, Refs(command.cfg));
    if refused.Some? then refused
    else if command.cfg.DeleteConstant? then None
    else DeclarationsError(command, section, defs)
  }

  /** Checks commands one by one, stopping at the first refusal. */
  function PlanFrom(commands: seq<Command>, section: Section, defs: Definitions): Result<Definitions, PlanError>
    decreases |commands|
  {
    if commands == [] then Ok(defs)
    else
      match CommandError(commands[0], section, defs)
      case Some(e) => Raised(e)
      case None => PlanFrom(commands[1..], section, Updated(commands[0], section, defs))
  }

  function AllDeclarations(commands: seq<Command>, section: Section): seq<PlannedDefinition> {
    if commands == [] then [] else Declarations(commands[0], section) + AllDeclarations(commands[1..], section)
  }

  // ----- Ordering -----

  /** Python's string order. */
  predicate TextLess(a: string, b: string) {
    if b == [] then false
    else if a == [] then true
    else a[0] < b[0] || (a[0] == b[0] && TextLess(a[1..], b[1..]))
  }

  predicate Before(a: Command, b: Command) {
    a.order < b.order || (a.order == b.order && TextLess(a.id, b.id))
  }

  /** Inserts after every command that does not come strictly later, as a stable sort does. */
  function Insert(command: Command, sorted: seq<Command>): seq<Command> {
    if sorted == [] then [command]
    else if Before(command, sorted[0]) then [command] + sorted
    else [sorted[0]] + Insert(command, sorted[1..])
  }

  /** `commands.sort(key=(order, id))`. */
  function Sorted(commands: seq<Command>): seq<Command> {
    if commands == [] then [] else Insert(commands[|commands| - 1], Sorted(commands[..|commands| - 1]))
  }

  /** `_command_input` with the position as default order. */
  function CommandInput(raw: RawCommand, position: int): Command {
    Command(raw.id, if raw.order.Some? && raw.order.value != 0 then raw.order.value else position, raw.cfg)
  }

  function CommandInputs(raw: seq<RawCommand>): seq<Command> {
    seq(|raw|, i requires 0 <= i < |raw| => CommandInput(raw[i], i + 1))
  }

  /** The commands in the order they are planned. */
  function Schedule(raw: seq<RawCommand>): seq<Command> {
    Sorted(CommandInputs(raw))
  }

  /** What `plan_definitions_for_commands` returns or raises. */
  function Plan(raw: seq<RawCommand>, section: Section, initial: Definitions): Result<Planned, PlanError> {
    match PlanFrom(Schedule(raw), section, CarryOver(initial))
    case Raised(e) => Raised(e)
    case Ok(defs) => Ok(Planned(AllDeclarations(Schedule(raw), section), defs))
  }

  method ValidateRefs(command: Command, section: Section, defs: Definitions) returns (refused: Option<PlanError>)
    ensures refused == RefError(command, section, defs, Refs(command.cfg))
  {
    var refs := Refs(command.cfg);
    for i := 0 to |refs|
      invariant RefError(command, section, defs, refs) == RefError(command, section, defs, refs[i..])
    {
      if refs[i] !in defs || !Active(defs[refs[i]], Readable(section), command.order) {
        return Some(NotVisible(refs[i]));
      }
      var d, types := defs[refs[i]], CompatibleTypes(command.cfg);
      if types.Some? && d.valueType !in types.value {
        return Some(IncompatibleType(d.name));
      }
      if command.cfg.DeleteConstant? && d.context !in Writable(section) {
        return Some(NotDeletable(d.name));
      }
    }
    refused := None;
  }

  method ValidateDeclarations(command: Command, section: Section, defs: Definitions)
    returns (declared: seq<PlannedDefinition>, refused: Option<PlanError>)
    ensures declared == Declarations(command, section)
    ensures refused == DeclarationsError(command, section, defs)
  {
    declared := Declarations(command, section);
    if declared != [] {
      if declared[0].context !in Writable(section) {
        return declared, Some(NotWritable(declared[0].context));
      }
      if NameTaken(defs, declared[0], command.order) {
        return declared, Some(AlreadyDefined(declared[0].name));
      }
    }
    refused := None;
  }

  lemma {:induction false} PlanStep(commands: seq<Command>, i: nat, section: Section, defs: Definitions)
    requires i < |commands|
    ensures PlanFrom(commands[i..], section, defs) ==
            match CommandError(commands[i], section, defs)
            case Some(e) => Raised(e)
            case None => PlanFrom(commands[i + 1..], section, Updated(commands[i], section, defs))
  {
    assert commands[i..][1..] == commands[i + 1..];
  }

  lemma {:induction false} DeclarationsStep(commands: seq<Command>, i: nat, section: Section)
    requires i < |commands|
    ensures AllDeclarations(commands[i..], section)
         == Declarations(commands[i], section) + AllDeclarations(commands[i + 1..], section)
    ensures commands[i].cfg.DeleteConstant? ==>
              AllDeclarations(commands[i..], section) == AllDeclarations(commands[i + 1..], section)
  {
    assert commands[i..][1..] == commands[i + 1..];
  }

  lemma {:induction false} DeclarationsAppend(
    a: seq<PlannedDefinition>, b: seq<PlannedDefinition>, c: seq<PlannedDefinition>)
    ensures a + (b + c) == a + b + c
  {
  }

  method PlanDefinitionsForCommands(raw: seq<RawCommand>, section: Section, initial: Definitions)
    returns (result: Result<Planned, PlanError>)
    ensures result == Plan(raw, section, initial)
  {
    var definitions := CarryOver(initial);
    var planned: seq<PlannedDefinition> := [];
    var commands := Schedule(raw);
    for i := 0 to |commands|
      invariant PlanFrom(commands, section, CarryOver(initial)) == PlanFrom(commands[i..], section, definitions)
      invariant planned + AllDeclarations(commands[i..], section) == AllDeclarations(commands, section)
    {
      var command := commands[i];
      ghost var was := definitions;
      PlanStep(commands, i, section, definitions);
      DeclarationsStep(commands, i, section);
      var refused := ValidateRefs(command, section, definitions);
      if refused.Some? {
        return Raised(refused.value);
      }
      if command.cfg.DeleteConstant? {
        var target := command.cfg.target;
        definitions := definitions[target := definitions[target].(deletedAt := Some(command.order))];
        assert definitions == Updated(command, section, was);
      } else {
        var declared, error := ValidateDeclarations(command, section, definitions);
        if error.Some? {
          return Raised(error.value);
        }
        if declared != [] {
          definitions := definitions[declared[0].id := declared[0]];
        }
        assert definitions == Updated(command, section, was);
        DeclarationsAppend(planned, declared, AllDeclarations(commands[i + 1..], section));
        planned := planned + declared;
      }
    }
    assert planned + [] == planned;
    result := Ok(Planned(planned, definitions));
  }
}
