/** Normalizing a dataset perimeter (dataset_perimeter_compiler.py): from untyped JSON, a legacy
    filter form included, to a typed perimeter, and the JSON of the latter. */
module Perimeter {
  import opened Prelude
  import opened PyText
  import opened PyValues
  import opened Collecting
  import opened DatasetParameters

  datatype Logic = And | Or

  datatype Operator =
    | Eq | Neq | Gt | Gte | Lt | Lte | Contains | StartsWith | EndsWith | In | NotIn | IsNull | IsNotNull

  datatype Operand = Nothing | Literal(value: Value) | Reference(name: string)

  datatype Condition = Condition(field: string, operator: Operator, operand: Operand)

  datatype Item = Single(condition: Condition) | Group(logic: Logic, conditions: seq<Condition>)

  datatype Filter = Filter(logic: Logic, items: seq<Item>)

  datatype SortKey = SortKey(field: string, descending: bool)

  datatype Perimeter = Perimeter(
    params: seq<Param>, selected: Option<seq<string>>, filter: Option<Filter>, sort: Option<seq<SortKey>>)

  const NO_PERIMETER := Perimeter([], None, None, None)

  // ----- Reading untyped JSON -----

  /** `not v`. */
  predicate Falsy(v: Value) {
    match v
    case Null => true
    case Bool(b) => !b
    case Int(i) => i == 0
    case Float(x) => x == 0.0
    case Str(s) => s == ""
    case List(items) => items == []
    case Dict(entries) => entries == map[]
    case _ => false
  }

  /** `d.get(key)`. */
  function Get(d: map<string, Value>, key: string): Value {
    if key in d then d[key] else Null
  }

  /** `str(v or default).strip()`. */
  function TextOr(lib: Library, v: Value, default: string): string {
    Strip(if Falsy(v) then default else if v.Str? then v.s else lib.show(v))
  }

  function Text(lib: Library, v: Value): string {
    TextOr(lib, v, "")
  }

  /** `v or []`, which must then be a list. */
  function ListOr(v: Value, fault: Fault): Result<seq<Value>, Fault> {
    if Falsy(v) then Ok([]) else if v.List? then Ok(v.items) else Raised(fault)
  }

  function OperatorName(op: Operator): string {
    match op
    case Eq => "eq"
    case Neq => "neq"
    case Gt => "gt"
    case Gte => "gte"
    case Lt => "lt"
    case Lte => "lte"
    case Contains => "contains"
    case StartsWith => "starts_with"
    case EndsWith => "ends_with"
    case In => "in"
    case NotIn => "not_in"
    case IsNull => "is_null"
    case IsNotNull => "is_not_null"
  }

  const OPERATORS := [Eq, Neq, Gt, Gte, Lt, Lte, Contains, StartsWith, EndsWith, In, NotIn, IsNull, IsNotNull]

  function OperatorAmong(ops: seq<Operator>, name: string): Option<Operator> {
    if ops == [] then None
    else if OperatorName(ops[0]) == name then Some(ops[0])
    else OperatorAmong(ops[1..], name)
  }

  function OperatorNamed(name: string): Option<Operator> {
    OperatorAmong(OPERATORS, name)
  }

  function LogicName(logic: Logic): string {
    if logic == And then "AND" else "OR"
  }

  function ParseLogic(lib: Library, v: Value): Result<Logic, Fault> {
    var name := Upper(TextOr(lib, v, "AND"));
    if name == "AND" then Ok(And) else if name == "OR" then Ok(Or) else Raised(BadLogic)
  }

  function TypeName(kind: ParamType): string {
    match kind
    case TString => "string"
    case TInteger => "integer"
    case TNumber => "number"
    case TBoolean => "boolean"
    case TDate => "date"
    case TDateTime => "datetime"
  }

  function TypeNamed(name: string): Option<ParamType> {
    if name == "string" then Some(TString)
    else if name == "integer" then Some(TInteger)
    else if name == "number" then Some(TNumber)
    else if name == "boolean" then Some(TBoolean)
    else if name == "date" then Some(TDate)
    else if name == "datetime" then Some(TDateTime)
    else None
  }

  // ----- Parameters -----

  function ParseBinding(lib: Library, raw: Value): Result<Default, Fault> {
    if !raw.Dict? then Raised(BindingNotObject)
    else if Lower(Text(lib, Get(raw.entries, "kind"))) != "built_in" then Raised(BindingKind)
    else
      var resolver := Text(lib, Get(raw.entries, "resolver"));
      if resolver == "$now" then Ok(DefaultNow)
      else if resolver == "$today" then Ok(DefaultToday)
      else Raised(BindingResolver)
  }

  function ParseDefault(lib: Library, d: map<string, Value>, kind: ParamType): Result<Default, Fault> {
    var binding := Get(d, "default_binding");
    if "default_value" in d then
      if binding != Null then Raised(TwoDefaults)
      else if d["default_value"] == Null then Ok(DefaultValue(Null))
      else
        match Coerce(lib, kind, d["default_value"])
        case Raised(_) => Raised(BadDefault)
        case Ok(v) => Ok(DefaultValue(Serialized(lib, v)))
    else if binding == Null then Ok(NoDefault)
    else ParseBinding(lib, binding)
  }

  /** `_normalize_parameter_definition`. */
  function ParseParameter(lib: Library, raw: Value): Result<Param, Fault> {
    if !raw.Dict? then Raised(ParameterNotObject)
    else
      var d := raw.entries;
      var name, kind := Text(lib, Get(d, "name")), TypeNamed(Lower(Text(lib, Get(d, "type"))));
      var description := Text(lib, Get(d, "description"));
      if name == "" then Raised(ParameterNameMissing)
      else if kind.None? then Raised(ParameterTypeUnknown)
      else
        match ParseDefault(lib, d, kind.value)
        case Raised(e) => Raised(e)
        case Ok(default) =>
          Ok(Param(name, kind.value, if description == "" then None else Some(description), default))
  }

  /** One turn of the loop over `parameters`. */
  function ParameterStep(lib: Library): (seq<Param>, Value) -> Result<Param, Fault> {
    (before: seq<Param>, raw: Value) =>
      match ParseParameter(lib, raw)
      case Raised(e) => Raised(e)
      case Ok(p) => if p.name in Names(before) then Raised(DuplicateParameter) else Ok(p)
  }

  function ParseParameters(lib: Library, raw: Value): Result<seq<Param>, Fault> {
    if raw == Null then Ok([])
    else if !raw.List? then Raised(ParametersNotArray)
    else Collect(raw.items, ParameterStep(lib))
  }

  function Lookup(params: seq<Param>, name: string): Option<Param> {
    if params == [] then None else if params[0].name == name then Some(params[0]) else Lookup(params[1..], name)
  }

  // ----- Columns and sort keys -----

  function ColumnStep(lib: Library): (seq<string>, Value) -> Result<string, Fault> {
    (before: seq<string>, raw: Value) =>
      var name := Text(lib, raw);
      if name == "" then Raised(ColumnEmpty) else if name in before then Raised(DuplicateColumn) else Ok(name)
  }

  function ParseColumns(lib: Library, raw: Value): Result<Option<seq<string>>, Fault> {
    if raw == Null then Ok(None)
    else if !raw.List? then Raised(ColumnsNotArray)
    else
      match Collect(raw.items, ColumnStep(lib))
      case Raised(e) => Raised(e)
      case Ok(columns) => Ok(Some(columns))
  }

  function SortStep(lib: Library): (seq<SortKey>, Value) -> Result<SortKey, Fault> {
    (before: seq<SortKey>, raw: Value) =>
      if !raw.Dict? then Raised(SortNotObject)
      else
        var field := Text(lib, Get(raw.entries, "field"));
        var direction := Lower(TextOr(lib, Get(raw.entries, "direction"), "asc"));
        if field == "" then Raised(SortFieldMissing)
        else if direction == "asc" then Ok(SortKey(field, false))
        else if direction == "desc" then Ok(SortKey(field, true))
        else Raised(SortDirection)
  }

  function ParseSort(lib: Library, raw: Value): Result<Option<seq<SortKey>>, Fault> {
    if raw == Null then Ok(None)
    else if !raw.List? then Raised(SortNotArray)
    else
      match Collect(raw.items, SortStep(lib))
      case Raised(e) => Raised(e)
      case Ok(keys) => Ok(Some(keys))
  }

  // ----- The filter -----

  predicate IsReference(lib: Library, raw: Value) {
    raw.Dict? && Lower(Text(lib, Get(raw.entries, "kind"))) == "parameter"
  }

  /** `is_operator_compatible`. */
  predicate Compatible(kind: ParamType, op: Operator) {
    match op
    case Eq | Neq => true
    case Gt | Gte | Lt | Lte => kind != TString && kind != TBoolean
    case Contains | StartsWith | EndsWith => kind == TString
    case _ => false
  }

  predicate OnText(op: Operator) {
    op == Contains || op == StartsWith || op == EndsWith
  }

  predicate OnList(op: Operator) {
    op == In || op == NotIn
  }

  predicate OnNothing(op: Operator) {
    op == IsNull || op == IsNotNull
  }

  /** `_normalize_filter_value`. */
  function ParseOperand(lib: Library, raw: Value, op: Operator, params: seq<Param>): Result<Operand, Fault> {
    if IsReference(lib, raw) then
      var name := Text(lib, Get(raw.entries, "name"));
      var param := Lookup(params, name);
      if name == "" then Raised(ReferenceUnnamed)
      else if param.None? then Raised(ReferenceUnknown)
      else if OnList(op) then Raised(ReferenceInList)
      else if !Compatible(param.value.kind, op) then Raised(ReferenceIncompatible)
      else Ok(Reference(name))
    else if OnList(op) && (!raw.List? || raw.items == []) then Raised(ListExpected)
    else if OnText(op) && !raw.Str? then Raised(TextExpected)
    else Ok(Literal(raw))
  }

  /** `_normalize_filter_condition`. */
  function ParseCondition(lib: Library, raw: Value, params: seq<Param>): Result<Condition, Fault> {
    if !raw.Dict? then Raised(ItemNotObject)
    else
      var d := raw.entries;
      var field, op := Text(lib, Get(d, "field")), OperatorNamed(Lower(Text(lib, Get(d, "operator"))));
      if field == "" then Raised(FieldMissing)
      else if op.None? then Raised(OperatorUnknown)
      else if OnNothing(op.value) then Ok(Condition(field, op.value, Nothing))
      else if "value" !in d then Raised(ValueMissing)
      else
        match ParseOperand(lib, d["value"], op.value, params)
        case Raised(e) => Raised(e)
        case Ok(operand) => Ok(Condition(field, op.value, operand))
  }

  function ConditionStep(lib: Library, params: seq<Param>): (seq<Condition>, Value) -> Result<Condition, Fault> {
    (before: seq<Condition>, raw: Value) => ParseCondition(lib, raw, params)
  }

  /** `_normalize_filter_item`. */
  function ParseItem(lib: Library, raw: Value, params: seq<Param>): Result<Item, Fault> {
    if !raw.Dict? then Raised(ItemNotObject)
    else
      var d := raw.entries;
      var kind := Lower(TextOr(lib, Get(d, "kind"), "condition"));
      if kind == "group" then
        match ParseLogic(lib, Get(d, "logic"))
        case Raised(e) => Raised(e)
        case Ok(logic) =>
          match ListOr(Get(d, "conditions"), ConditionsNotArray)
          case Raised(e) => Raised(e)
          case Ok(raws) =>
            match Collect(raws, ConditionStep(lib, params))
            case Raised(e) => Raised(e)
            case Ok(conditions) => if conditions == [] then Raised(GroupEmpty) else Ok(Group(logic, conditions))
      else if kind == "condition" then
        match ParseCondition(lib, raw, params)
        case Raised(e) => Raised(e)
        case Ok(condition) => Ok(Single(condition))
      else Raised(ItemKind)
  }

  function ItemStep(lib: Library, params: seq<Param>): (seq<Item>, Value) -> Result<Item, Fault> {
    (before: seq<Item>, raw: Value) => ParseItem(lib, raw, params)
  }

  /** The items of a filter, from `items` or else from the legacy `conditions`. */
  function ParseItems(lib: Library, d: map<string, Value>, logic: Logic, params: seq<Param>): Result<seq<Item>, Fault> {
    if Get(d, "items") != Null then
      match ListOr(Get(d, "items"), ItemsNotArray)
      case Raised(e) => Raised(e)
      case Ok(raws) => Collect(raws, ItemStep(lib, params))
    else
      match ListOr(Get(d, "conditions"), ConditionsNotArray)
      case Raised(e) => Raised(e)
      case Ok(raws) =>
        match Collect(raws, ConditionStep(lib, params))
        case Raised(e) => Raised(e)
        case Ok(conditions) => Ok(if conditions == [] then [] else [Group(logic, conditions)])
  }

  function ParseFilter(lib: Library, raw: Value, params: seq<Param>): Result<Option<Filter>, Fault> {
    if raw == Null then Ok(None)
    else if !raw.Dict? then Raised(FilterNotObject)
    else
      match ParseLogic(lib, Get(raw.entries, "logic"))
      case Raised(e) => Raised(e)
      case Ok(logic) =>
        match ParseItems(lib, raw.entries, logic, params)
        case Raised(e) => Raised(e)
        case Ok(items) => Ok(if items == [] then None else Some(Filter(logic, items)))
  }

  // ----- The whole perimeter -----

  /** What `normalize` accepts, as a typed perimeter; NO_PERIMETER stands for no perimeter. */
  function Parse(lib: Library, raw: Value): Result<Perimeter, Fault> {
    if raw == Null then Ok(NO_PERIMETER)
    else if !raw.Dict? then Raised(PerimeterNotObject)
    else
      var d := raw.entries;
      match ParseParameters(lib, Get(d, "parameters"))
      case Raised(e) => Raised(e)
      case Ok(params) =>
        match ParseColumns(lib, Get(d, "selected_columns"))
        case Raised(e) => Raised(e)
        case Ok(selected) =>
          match ParseFilter(lib, Get(d, "filter"), params)
          case Raised(e) => Raised(e)
          case Ok(filter) =>
            match ParseSort(lib, Get(d, "sort"))
            case Raised(e) => Raised(e)
            case Ok(sort) => Ok(Perimeter(params, selected, filter, sort))
  }

  // ----- The JSON of a typed perimeter -----

  function DefaultEntries(default: Default): map<string, Value> {
    match default
    case NoDefault => map[]
    case DefaultValue(v) => map["default_value" := v]
    case DefaultNow => map["default_binding" := Dict(map["kind" := Str("built_in"), "resolver" := Str("$now")])]
    case DefaultToday => map["default_binding" := Dict(map["kind" := Str("built_in"), "resolver" := Str("$today")])]
  }

  function ParameterJson(p: Param): Value {
    Dict(map["name" := Str(p.name), "type" := Str(TypeName(p.kind)),
             "description" := if p.description.Some? then Str(p.description.value) else Null]
         + DefaultEntries(p.default))
  }

  function OperandEntries(operand: Operand): map<string, Value> {
    match operand
    case Nothing => map[]
    case Literal(v) => map["value" := v]
    case Reference(name) => map["value" := Dict(map["kind" := Str("parameter"), "name" := Str(name)])]
  }

  function ConditionEntries(c: Condition): map<string, Value> {
    map["field" := Str(c.field), "operator" := Str(OperatorName(c.operator))] + OperandEntries(c.operand)
  }

  function ConditionsJson(conditions: seq<Condition>): Value {
    List(seq(|conditions|, i requires 0 <= i < |conditions| => Dict(ConditionEntries(conditions[i]))))
  }

  function ItemJson(item: Item): Value {
    match item
    case Single(c) => Dict(map["kind" := Str("condition")] + ConditionEntries(c))
    case Group(logic, conditions) =>
      Dict(map["kind" := Str("group"), "logic" := Str(LogicName(logic)), "conditions" := ConditionsJson(conditions)])
  }

  function FilterJson(filter: Filter): Value {
    Dict(map["logic" := Str(LogicName(filter.logic)), "items" := List(ItemsJson(filter.items))])
  }

  function ItemsJson(items: seq<Item>): seq<Value> {
    seq(|items|, i requires 0 <= i < |items| => ItemJson(items[i]))
  }

  function SortJson(key: SortKey): Value {
    Dict(map["field" := Str(key.field), "direction" := Str(if key.descending then "desc" else "asc")])
  }

  function ParametersEntries(params: seq<Param>): map<string, Value> {
    if params == [] then map[]
    else map["parameters" := List(seq(|params|, i requires 0 <= i < |params| => ParameterJson(params[i])))]
  }

  function ColumnsEntries(selected: Option<seq<string>>): map<string, Value> {
    if selected.None? then map[]
    else
      map["selected_columns" := List(seq(|selected.value|, i requires 0 <= i < |selected.value| => Str(selected.value[i])))]
  }

  function FilterEntries(filter: Option<Filter>): map<string, Value> {
    if filter.None? then map[] else map["filter" := FilterJson(filter.value)]
  }

  function SortEntries(sort: Option<seq<SortKey>>): map<string, Value> {
    if sort.None? then map[]
    else map["sort" := List(seq(|sort.value|, i requires 0 <= i < |sort.value| => SortJson(sort.value[i])))]
  }

  /** The normalized perimeter as the source returns it: an object, or nothing. */
  function ToJson(p: Perimeter): Value {
    var entries := ParametersEntries(p.params) + ColumnsEntries(p.selected) + FilterEntries(p.filter) + SortEntries(p.sort);
    if entries == map[] then Null else Dict(entries)
  }
}
