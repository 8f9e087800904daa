/** `normalize` as the source runs it, and its idempotence. */
module PerimeterNormalize {
  import opened Prelude
  import opened PyText
  import opened PyValues
  import opened Collecting
  import opened DatasetParameters
  import opened Perimeter

  // ----- The loops -----

  method NormalizeParameters(lib: Library, raw: Value) returns (r: Result<seq<Param>, Fault>)
    ensures r == ParseParameters(lib, raw)
  {
    if raw == Null {
      return Ok([]);
    }
    if !raw.List? {
      return Raised(ParametersNotArray);
    }
    var params: seq<Param> := [];
    for i := 0 to |raw.items|
      invariant Collect(raw.items[..i], ParameterStep(lib)) == Ok(params)
    {
      assert raw.items[..i + 1][..i] == raw.items[..i];
      var parsed := ParseParameter(lib, raw.items[i]);
      if parsed.Raised? {
        CollectStops(raw.items, ParameterStep(lib), i + 1, parsed.error);
        return Raised(parsed.error);
      }
      if parsed.value.name in Names(params) {
        CollectStops(raw.items, ParameterStep(lib), i + 1, DuplicateParameter);
        return Raised(DuplicateParameter);
      }
      params := params + [parsed.value];
    }
    assert raw.items[..|raw.items|] == raw.items;
    return Ok(params);
  }

  method NormalizeColumns(lib: Library, raw: Value) returns (r: Result<Option<seq<string>>, Fault>)
    ensures r == ParseColumns(lib, raw)
  {
    if raw == Null {
      return Ok(None);
    }
    if !raw.List? {
      return Raised(ColumnsNotArray);
    }
    var selected: seq<string> := [];
    for i := 0 to |raw.items|
      invariant Collect(raw.items[..i], ColumnStep(lib)) == Ok(selected)
    {
      assert raw.items[..i + 1][..i] == raw.items[..i];
      var name := Text(lib, raw.items[i]);
      if name == "" {
        CollectStops(raw.items, ColumnStep(lib), i + 1, ColumnEmpty);
        return Raised(ColumnEmpty);
      }
      if name in selected {
        CollectStops(raw.items, ColumnStep(lib), i + 1, DuplicateColumn);
        return Raised(DuplicateColumn);
      }
      selected := selected + [name];
    }
    assert raw.items[..|raw.items|] == raw.items;
    return Ok(Some(selected));
  }

  method NormalizeSort(lib: Library, raw: Value) returns (r: Result<Option<seq<SortKey>>, Fault>)
    ensures r == ParseSort(lib, raw)
  {
    if raw == Null {
      return Ok(None);
    }
    if !raw.List? {
      return Raised(SortNotArray);
    }
    var keys: seq<SortKey> := [];
    for i := 0 to |raw.items|
      invariant Collect(raw.items[..i], SortStep(lib)) == Ok(keys)
    {
      assert raw.items[..i + 1][..i] == raw.items[..i];
      var key := SortStep(lib)(keys, raw.items[i]);
      if key.Raised? {
        CollectStops(raw.items, SortStep(lib), i + 1, key.error);
        return Raised(key.error);
      }
      keys := keys + [key.value];
    }
    assert raw.items[..|raw.items|] == raw.items;
    return Ok(Some(keys));
  }

  /** `normalize`, keeping the typed form of its result. */
  method Normalize(lib: Library, raw: Value) returns (r: Result<Perimeter, Fault>)
    ensures r == Parse(lib, raw)
  {
    if raw == Null {
      return Ok(NO_PERIMETER);
    }
    if !raw.Dict? {
      return Raised(PerimeterNotObject);
    }
    var normalized := NO_PERIMETER;
    var params := NormalizeParameters(lib, Get(raw.entries, "parameters"));
    if params.Raised? {
      return Raised(params.error);
    }
    normalized := normalized.(params := params.value);
    var selected := NormalizeColumns(lib, Get(raw.entries, "selected_columns"));
    if selected.Raised? {
      return Raised(selected.error);
    }
    normalized := normalized.(selected := selected.value);
    var filter := ParseFilter(lib, Get(raw.entries, "filter"), params.value);
    if filter.Raised? {
      return Raised(filter.error);
    }
    normalized := normalized.(filter := filter.value);
    var sort := NormalizeSort(lib, Get(raw.entries, "sort"));
    if sort.Raised? {
      return Raised(sort.error);
    }
    return Ok(normalized.(sort := sort.value));
  }

  // ----- Texts that read back -----

  lemma {:induction false} TextReadsBack(lib: Library, s: string, default: string)
    requires Trimmed(s) && s != ""
    ensures TextOr(lib, Str(s), default) == s
  {
    TrimmedStrips(s);
  }

  lemma {:induction false} TextTrims(lib: Library, v: Value, default: string)
    ensures Trimmed(TextOr(lib, v, default))
  {
    StripTrims(if Falsy(v) then default else if v.Str? then v.s else lib.show(v));
  }

  /** A word in lower case without outer blanks. */
  predicate Plain(s: string) {
    s != "" && Trimmed(s) && Lower(s) == s
  }

  lemma {:induction false} OperatorReadsBack(lib: Library, op: Operator)
    ensures OperatorNamed(Lower(Text(lib, Str(OperatorName(op))))) == Some(op)
  {
    assert Plain(OperatorName(op));
    TextReadsBack(lib, OperatorName(op), "");
    OperatorNamesDiffer(op);
  }

  lemma {:induction false} OperatorNamesDiffer(op: Operator)
    ensures OperatorNamed(OperatorName(op)) == Some(op)
  {
    var i := match op
      case Eq => 0
      case Neq => 1
      case Gt => 2
      case Gte => 3
      case Lt => 4
      case Lte => 5
      case Contains => 6
      case StartsWith => 7
      case EndsWith => 8
      case In => 9
      case NotIn => 10
      case IsNull => 11
      case IsNotNull => 12;
    assert OPERATORS[i] == op;
    forall j | 0 <= j < i ensures OperatorName(OPERATORS[j]) != OperatorName(op) {
      OperatorNamesApart(OPERATORS[j], op);
    }
    FirstAmong(OPERATORS, i);
  }

  lemma {:induction false} OperatorNamesApart(a: Operator, b: Operator)
    requires a != b
    ensures OperatorName(a) != OperatorName(b)
  {
  }

  lemma {:induction false} FirstAmong(ops: seq<Operator>, i: nat)
    requires i < |ops| && forall j | 0 <= j < i :: OperatorName(ops[j]) != OperatorName(ops[i])
    ensures OperatorAmong(ops, OperatorName(ops[i])) == Some(ops[i])
    decreases i
  {
    if i > 0 {
      assert forall j | 0 <= j < i :: ops[1..][j] == ops[j + 1];
      FirstAmong(ops[1..], i - 1);
    }
  }

  lemma {:induction false} LogicReadsBack(lib: Library, logic: Logic)
    ensures ParseLogic(lib, Str(LogicName(logic))) == Ok(logic)
  {
    var name := LogicName(logic);
    assert Trimmed(name) && Upper(name) == name;
    TextReadsBack(lib, name, "AND");
  }

  lemma {:induction false} TypeReadsBack(lib: Library, kind: ParamType)
    ensures TypeNamed(Lower(Text(lib, Str(TypeName(kind))))) == Some(kind)
  {
    assert Plain(TypeName(kind));
    TextReadsBack(lib, TypeName(kind), "");
    assert "string"[0] == 's' && "number"[0] == 'n' && "integer"[0] == 'i' && "boolean"[0] == 'b';
  }

  // ----- Parameters -----

  lemma {:induction false} BindingReadsBack(lib: Library, resolver: string)
    requires resolver == "$now" || resolver == "$today"
    ensures ParseBinding(lib, Dict(map["kind" := Str("built_in"), "resolver" := Str(resolver)]))
         == Ok(if resolver == "$now" then DefaultNow else DefaultToday)
  {
    var d := map["kind" := Str("built_in"), "resolver" := Str(resolver)];
    assert d["kind"] == Str("built_in") && d["resolver"] == Str(resolver);
    assert Plain("built_in") && Trimmed(resolver);
    TextReadsBack(lib, "built_in", "");
    TextReadsBack(lib, resolver, "");
  }

  /** The entries of a parameter's JSON. */
  lemma {:induction false} ParameterKeys(p: Param)
    ensures var d := ParameterJson(p).entries;
            && Get(d, "name") == Str(p.name) && Get(d, "type") == Str(TypeName(p.kind))
            && Get(d, "description") == (if p.description.Some? then Str(p.description.value) else Null)
            && Get(d, "default_binding") == Get(DefaultEntries(p.default), "default_binding")
            && ("default_value" in d <==> p.default.DefaultValue?)
            && ("default_value" in d ==> d["default_value"] == p.default.value)
  {
    assert "name"[0] == 'n' && "type"[0] == 't' && "description"[0] == 'd';
    assert "default_value"[8] == 'v' && "default_binding"[8] == 'b' && "description"[1] == 'e' && "description"[2] == 's';
  }

  lemma {:induction false} DefaultReadsBack(lib: Library, d: map<string, Value>, p: Param)
    requires Lawful(lib) && ParseDefault(lib, d, p.kind) == Ok(p.default)
    ensures ParseDefault(lib, ParameterJson(p).entries, p.kind) == Ok(p.default)
  {
    ParameterKeys(p);
    match p.default {
      case NoDefault =>
      case DefaultValue(v) =>
        if v != Null {
          StoredDefaultReadsBack(lib, p.kind, d["default_value"]);
        }
      case DefaultNow => BindingReadsBack(lib, "$now");
      case DefaultToday => BindingReadsBack(lib, "$today");
    }
  }

  lemma {:induction false} ParameterReadsBack(lib: Library, raw: Value, p: Param)
    requires Lawful(lib) && ParseParameter(lib, raw) == Ok(p)
    ensures ParseParameter(lib, ParameterJson(p)) == Ok(p)
  {
    ParameterKeys(p);
    TextTrims(lib, Get(raw.entries, "name"), "");
    TextTrims(lib, Get(raw.entries, "description"), "");
    TextReadsBack(lib, p.name, "");
    TypeReadsBack(lib, p.kind);
    if p.description.Some? {
      TextReadsBack(lib, p.description.value, "");
    }
    DefaultReadsBack(lib, raw.entries, p);
  }

  lemma {:induction false} ParametersReadBack(lib: Library, raw: Value, params: seq<Param>)
    requires Lawful(lib) && ParseParameters(lib, raw) == Ok(params)
    ensures ParseParameters(lib, Get(ParametersEntries(params), "parameters")) == Ok(params)
    ensures DistinctNames(params)
  {
    if raw != Null {
      CollectExactly(raw.items, ParameterStep(lib), params);
      var jsons := seq(|params|, i requires 0 <= i < |params| => ParameterJson(params[i]));
      forall i | 0 <= i < |params| ensures ParameterStep(lib)(params[..i], jsons[i]) == Ok(params[i]) {
        assert ParameterStep(lib)(params[..i], raw.items[i]) == Ok(params[i]);
        ParameterReadsBack(lib, raw.items[i], params[i]);
      }
      CollectExactly(jsons, ParameterStep(lib), params);
      NamesAreDistinct(lib, raw.items, params);
    }
  }

  lemma {:induction false} NamesAreDistinct(lib: Library, raws: seq<Value>, params: seq<Param>)
    requires Collect(raws, ParameterStep(lib)) == Ok(params)
    ensures DistinctNames(params)
  {
    CollectExactly(raws, ParameterStep(lib), params);
    forall i, j | 0 <= i < j < |params| ensures params[i].name != params[j].name {
      assert ParameterStep(lib)(params[..j], raws[j]) == Ok(params[j]);
      assert Names(params[..j])[i] == params[i].name;
    }
  }

  // ----- Columns and sort keys -----

  lemma {:induction false} ColumnsReadBack(lib: Library, raw: Value, selected: Option<seq<string>>)
    requires ParseColumns(lib, raw) == Ok(selected)
    ensures ParseColumns(lib, Get(ColumnsEntries(selected), "selected_columns")) == Ok(selected)
  {
    if raw != Null {
      var columns := selected.value;
      CollectExactly(raw.items, ColumnStep(lib), columns);
      var jsons := seq(|columns|, i requires 0 <= i < |columns| => Str(columns[i]));
      forall i | 0 <= i < |columns| ensures ColumnStep(lib)(columns[..i], jsons[i]) == Ok(columns[i]) {
        assert ColumnStep(lib)(columns[..i], raw.items[i]) == Ok(columns[i]);
        TextTrims(lib, raw.items[i], "");
        TextReadsBack(lib, columns[i], "");
      }
      CollectExactly(jsons, ColumnStep(lib), columns);
    }
  }

  lemma {:induction false} SortKeys(key: SortKey)
    ensures var d := SortJson(key).entries;
            Get(d, "field") == Str(key.field) && Get(d, "direction") == Str(if key.descending then "desc" else "asc")
  {
    assert "field"[0] == 'f' && "direction"[0] == 'd';
  }

  lemma {:induction false} DirectionReadsBack(lib: Library, descending: bool)
    ensures Lower(TextOr(lib, Str(if descending then "desc" else "asc"), "asc")) == if descending then "desc" else "asc"
  {
    var direction := if descending then "desc" else "asc";
    assert Plain(direction);
    TextReadsBack(lib, direction, "asc");
  }

  lemma {:induction false} SortKeyReadsBack(lib: Library, raw: Value, key: SortKey, before: seq<SortKey>)
    requires SortStep(lib)(before, raw) == Ok(key)
    ensures SortStep(lib)(before, SortJson(key)) == Ok(key)
  {
    SortKeys(key);
    TextTrims(lib, Get(raw.entries, "field"), "");
    TextReadsBack(lib, key.field, "");
    DirectionReadsBack(lib, key.descending);
  }

  lemma {:induction false} SortReadsBack(lib: Library, raw: Value, sort: Option<seq<SortKey>>)
    requires ParseSort(lib, raw) == Ok(sort)
    ensures ParseSort(lib, Get(SortEntries(sort), "sort")) == Ok(sort)
  {
    if raw != Null {
      var keys := sort.value;
      CollectExactly(raw.items, SortStep(lib), keys);
      var jsons := seq(|keys|, i requires 0 <= i < |keys| => SortJson(keys[i]));
      forall i | 0 <= i < |keys| ensures SortStep(lib)(keys[..i], jsons[i]) == Ok(keys[i]) {
        assert SortStep(lib)(keys[..i], raw.items[i]) == Ok(keys[i]);
        SortKeyReadsBack(lib, raw.items[i], keys[i], keys[..i]);
      }
      CollectExactly(jsons, SortStep(lib), keys);
    }
  }

  // ----- Well-typed filters -----

  /** A condition as normalizing leaves it. */
  predicate WellCondition(lib: Library, params: seq<Param>, c: Condition) {
    && c.field != "" && Trimmed(c.field) && (c.operand.Nothing? <==> OnNothing(c.operator))
    && match c.operand
       case Nothing => true
       case Reference(name) =>
         && name != "" && Trimmed(name) && Lookup(params, name).Some? && !OnList(c.operator)
         && Compatible(Lookup(params, name).value.kind, c.operator)
       case Literal(v) =>
         && !IsReference(lib, v) && (OnList(c.operator) ==> v.List? && v.items != []) && (OnText(c.operator) ==> v.Str?)
  }

  predicate WellItem(lib: Library, params: seq<Param>, item: Item) {
    match item
    case Single(c) => WellCondition(lib, params, c)
    case Group(_, cs) => cs != [] && forall i | 0 <= i < |cs| :: WellCondition(lib, params, cs[i])
  }

  predicate WellFilter(lib: Library, params: seq<Param>, filter: Option<Filter>) {
    filter.Some? ==>
      filter.value.items != [] && forall i | 0 <= i < |filter.value.items| :: WellItem(lib, params, filter.value.items[i])
  }

  lemma {:induction false} ParsedConditionIsWell(lib: Library, raw: Value, params: seq<Param>)
    ensures var r := ParseCondition(lib, raw, params); r.Ok? ==> WellCondition(lib, params, r.value)
  {
    if raw.Dict? {
      TextTrims(lib, Get(raw.entries, "field"), "");
      var v := Get(raw.entries, "value");
      if v.Dict? {
        TextTrims(lib, Get(v.entries, "name"), "");
      }
    }
  }

  lemma {:induction false} ParsedConditionsAreWell(
    lib: Library, raws: seq<Value>, params: seq<Param>, conditions: seq<Condition>)
    requires Collect(raws, ConditionStep(lib, params)) == Ok(conditions)
    ensures forall i | 0 <= i < |conditions| :: WellCondition(lib, params, conditions[i])
  {
    CollectExactly(raws, ConditionStep(lib, params), conditions);
    forall i | 0 <= i < |conditions| ensures WellCondition(lib, params, conditions[i]) {
      assert ConditionStep(lib, params)(conditions[..i], raws[i]) == Ok(conditions[i]);
      ParsedConditionIsWell(lib, raws[i], params);
    }
  }

  lemma {:induction false} ParsedItemIsWell(lib: Library, raw: Value, params: seq<Param>)
    ensures var r := ParseItem(lib, raw, params); r.Ok? ==> WellItem(lib, params, r.value)
  {
    var r := ParseItem(lib, raw, params);
    if r.Ok? {
      match r.value
      case Single(_) => ParsedConditionIsWell(lib, raw, params);
      case Group(_, conditions) =>
        ParsedConditionsAreWell(lib, ListOr(Get(raw.entries, "conditions"), ConditionsNotArray).value, params, conditions);
    }
  }

  lemma {:induction false} ParsedItemsAreWell(
    lib: Library, d: map<string, Value>, logic: Logic, params: seq<Param>, items: seq<Item>)
    requires ParseItems(lib, d, logic, params) == Ok(items)
    ensures forall i | 0 <= i < |items| :: WellItem(lib, params, items[i])
  {
    if Get(d, "items") != Null {
      var raws := ListOr(Get(d, "items"), ItemsNotArray).value;
      CollectExactly(raws, ItemStep(lib, params), items);
      forall i | 0 <= i < |items| ensures WellItem(lib, params, items[i]) {
        assert ItemStep(lib, params)(items[..i], raws[i]) == Ok(items[i]);
        ParsedItemIsWell(lib, raws[i], params);
      }
    } else if items != [] {
      var raws := ListOr(Get(d, "conditions"), ConditionsNotArray).value;
      ParsedConditionsAreWell(lib, raws, params, Collect(raws, ConditionStep(lib, params)).value);
    }
  }

  /** What normalizing accepts is well typed. */
  lemma {:induction false} ParsedFilterIsWell(lib: Library, raw: Value, params: seq<Param>)
    ensures var r := ParseFilter(lib, raw, params); r.Ok? ==> WellFilter(lib, params, r.value)
  {
    var r := ParseFilter(lib, raw, params);
    if r.Ok? && r.value.Some? {
      ParsedItemsAreWell(lib, raw.entries, r.value.value.logic, params, r.value.value.items);
    }
  }

  // ----- The filter reads back -----

  lemma {:induction false} ReferenceReadsBack(lib: Library, name: string)
    requires Trimmed(name) && name != ""
    ensures var raw := Dict(map["kind" := Str("parameter"), "name" := Str(name)]);
            IsReference(lib, raw) && Text(lib, Get(raw.entries, "name")) == name
  {
    var d := map["kind" := Str("parameter"), "name" := Str(name)];
    assert Get(d, "kind") == Str("parameter") && Get(d, "name") == Str(name);
    assert Plain("parameter");
    TextReadsBack(lib, "parameter", "");
    TextReadsBack(lib, name, "");
  }

  /** Entries that hold a condition's JSON, and perhaps a kind. */
  predicate HoldsCondition(d: map<string, Value>, c: Condition) {
    && Get(d, "field") == Str(c.field) && Get(d, "operator") == Str(OperatorName(c.operator))
    && ("value" in d <==> !c.operand.Nothing?)
    && ("value" in d ==> d["value"] == OperandEntries(c.operand)["value"])
  }

  lemma {:induction false} ConditionKeys(c: Condition)
    ensures HoldsCondition(ConditionEntries(c), c)
    ensures HoldsCondition(map["kind" := Str("condition")] + ConditionEntries(c), c)
    ensures (map["kind" := Str("condition")] + ConditionEntries(c))["kind"] == Str("condition")
  {
    assert "field"[0] == 'f' && "operator"[0] == 'o' && "value"[0] == 'v' && "kind"[0] == 'k';
  }

  lemma {:induction false} OperandReadsBack(lib: Library, params: seq<Param>, c: Condition)
    requires WellCondition(lib, params, c) && !OnNothing(c.operator)
    ensures "value" in OperandEntries(c.operand)
    ensures ParseOperand(lib, OperandEntries(c.operand)["value"], c.operator, params) == Ok(c.operand)
  {
    if c.operand.Reference? {
      ReferenceReadsBack(lib, c.operand.name);
    }
  }

  lemma {:induction false} ConditionReadsBack(lib: Library, params: seq<Param>, c: Condition, d: map<string, Value>)
    requires WellCondition(lib, params, c) && HoldsCondition(d, c)
    ensures ParseCondition(lib, Dict(d), params) == Ok(c)
  {
    TextReadsBack(lib, c.field, "");
    OperatorReadsBack(lib, c.operator);
    if !OnNothing(c.operator) {
      OperandReadsBack(lib, params, c);
    }
  }

  lemma {:induction false} ConditionsReadBack(lib: Library, params: seq<Param>, conditions: seq<Condition>)
    requires forall i | 0 <= i < |conditions| :: WellCondition(lib, params, conditions[i])
    ensures Collect(ConditionsJson(conditions).items, ConditionStep(lib, params)) == Ok(conditions)
  {
    var jsons := ConditionsJson(conditions).items;
    forall i | 0 <= i < |conditions|
      ensures ConditionStep(lib, params)(conditions[..i], jsons[i]) == Ok(conditions[i])
    {
      ConditionKeys(conditions[i]);
      ConditionReadsBack(lib, params, conditions[i], ConditionEntries(conditions[i]));
    }
    CollectExactly(jsons, ConditionStep(lib, params), conditions);
  }

  lemma {:induction false} GroupKeys(logic: Logic, conditions: seq<Condition>)
    ensures var d := ItemJson(Group(logic, conditions)).entries;
            && Get(d, "kind") == Str("group") && Get(d, "logic") == Str(LogicName(logic))
            && Get(d, "conditions") == ConditionsJson(conditions)
  {
    assert "kind"[0] == 'k' && "logic"[0] == 'l' && "conditions"[0] == 'c';
  }

  lemma {:induction false} KindReadsBack(lib: Library)
    ensures Lower(TextOr(lib, Str("group"), "condition")) == "group"
    ensures Lower(TextOr(lib, Str("condition"), "condition")) == "condition"
    ensures "condition" != "group"
  {
    assert Plain("group") && Plain("condition");
    TextReadsBack(lib, "group", "condition");
    TextReadsBack(lib, "condition", "condition");
    assert "condition"[0] == 'c' && "group"[0] == 'g';
  }

  lemma {:induction false} GroupParses(
    lib: Library, d: map<string, Value>, params: seq<Param>, logic: Logic, raws: seq<Value>, conditions: seq<Condition>)
    requires Get(d, "kind") == Str("group") && Get(d, "logic") == Str(LogicName(logic))
    requires Get(d, "conditions") == List(raws) && raws != []
    requires conditions != [] && Collect(raws, ConditionStep(lib, params)) == Ok(conditions)
    ensures ParseItem(lib, Dict(d), params) == Ok(Group(logic, conditions))
  {
    KindReadsBack(lib);
    LogicReadsBack(lib, logic);
  }

  lemma {:induction false} FilterParses(
    lib: Library, d: map<string, Value>, raws: seq<Value>, params: seq<Param>, logic: Logic, items: seq<Item>)
    requires ParseLogic(lib, Get(d, "logic")) == Ok(logic) && items != []
    requires Get(d, "items") == List(raws) && raws != [] && Collect(raws, ItemStep(lib, params)) == Ok(items)
    ensures ParseFilter(lib, Dict(d), params) == Ok(Some(Filter(logic, items)))
  {
    assert ParseItems(lib, d, logic, params) == Ok(items);
  }

  lemma {:induction false} ItemReadsBack(lib: Library, params: seq<Param>, item: Item)
    requires WellItem(lib, params, item)
    ensures ParseItem(lib, ItemJson(item), params) == Ok(item)
  {
    match item
    case Single(c) =>
      ConditionKeys(c);
      KindReadsBack(lib);
      ConditionReadsBack(lib, params, c, map["kind" := Str("condition")] + ConditionEntries(c));
    case Group(logic, conditions) =>
      ConditionsReadBack(lib, params, conditions);
      GroupKeys(logic, conditions);
      var raws := ConditionsJson(conditions).items;
      assert |raws| == |conditions|;
      GroupParses(lib, ItemJson(item).entries, params, logic, raws, conditions);
  }

  lemma {:induction false} ItemsReadBack(lib: Library, params: seq<Param>, items: seq<Item>)
    requires forall i | 0 <= i < |items| :: WellItem(lib, params, items[i])
    ensures Collect(ItemsJson(items), ItemStep(lib, params)) == Ok(items)
  {
    var jsons := ItemsJson(items);
    forall i | 0 <= i < |items| ensures ItemStep(lib, params)(items[..i], jsons[i]) == Ok(items[i]) {
      ItemReadsBack(lib, params, items[i]);
    }
    CollectExactly(jsons, ItemStep(lib, params), items);
  }

  lemma {:induction false} FilterKeys(filter: Filter)
    ensures var d := FilterJson(filter).entries;
            && Get(d, "logic") == Str(LogicName(filter.logic)) && Get(d, "items") == List(ItemsJson(filter.items))
  {
    assert "logic"[0] == 'l' && "items"[0] == 'i';
  }

  lemma {:induction false} FilterReadsBack(lib: Library, params: seq<Param>, filter: Option<Filter>)
    requires WellFilter(lib, params, filter)
    ensures ParseFilter(lib, Get(FilterEntries(filter), "filter"), params) == Ok(filter)
  {
    if filter.Some? {
      var logic, items := filter.value.logic, filter.value.items;
      ItemsReadBack(lib, params, items);
      FilterKeys(filter.value);
      LogicReadsBack(lib, logic);
      assert |ItemsJson(items)| == |items|;
      FilterParses(lib, FilterJson(filter.value).entries, ItemsJson(items), params, logic, items);
    }
  }

  // ----- The whole perimeter -----

  lemma {:induction false} PerimeterKeys(p: Perimeter)
    ensures match ToJson(p)
            case Dict(d) =>
              && Get(d, "parameters") == Get(ParametersEntries(p.params), "parameters")
              && Get(d, "selected_columns") == Get(ColumnsEntries(p.selected), "selected_columns")
              && Get(d, "filter") == Get(FilterEntries(p.filter), "filter")
              && Get(d, "sort") == Get(SortEntries(p.sort), "sort")
            case _ => ToJson(p) == Null && p == NO_PERIMETER
  {
    var a, b, c, d := ParametersEntries(p.params), ColumnsEntries(p.selected), FilterEntries(p.filter), SortEntries(p.sort);
    PartKeys(p);
    GetJoined(a, b, c, d, "parameters");
    GetJoined(a, b, c, d, "selected_columns");
    GetJoined(a, b, c, d, "filter");
    GetJoined(a, b, c, d, "sort");
    if p != NO_PERIMETER {
      NotEmpty(p);
    }
  }

  lemma {:induction false} GetJoined(
    a: map<string, Value>, b: map<string, Value>, c: map<string, Value>, d: map<string, Value>, key: string)
    ensures Get(a + b + c + d, key) ==
            if key in d then Get(d, key) else if key in c then Get(c, key) else if key in b then Get(b, key) else Get(a, key)
  {
  }

  lemma {:induction false} PartKeys(p: Perimeter)
    ensures ParametersEntries(p.params).Keys <= {"parameters"} && ColumnsEntries(p.selected).Keys <= {"selected_columns"}
    ensures FilterEntries(p.filter).Keys <= {"filter"} && SortEntries(p.sort).Keys <= {"sort"}
    ensures "parameters" != "selected_columns" && "parameters" != "filter" && "parameters" != "sort"
    ensures "selected_columns" != "filter" && "selected_columns" != "sort" && "filter" != "sort"
  {
    assert "parameters"[0] == 'p' && "selected_columns"[1] == 'e' && "filter"[0] == 'f' && "sort"[1] == 'o';
    assert "selected_columns"[0] == 's' && "sort"[0] == 's';
  }

  lemma {:induction false} NotEmpty(p: Perimeter)
    requires p != NO_PERIMETER
    ensures ToJson(p).Dict?
  {
    var entries := ParametersEntries(p.params) + ColumnsEntries(p.selected) + FilterEntries(p.filter) + SortEntries(p.sort);
    assert p.params != [] ==> "parameters" in entries;
    assert p.selected.Some? ==> "selected_columns" in entries;
    assert p.filter.Some? ==> "filter" in entries;
    assert p.sort.Some? ==> "sort" in entries;
  }

  /** The parts of a typed perimeter that is its own normal form. */
  predicate WellPerimeter(lib: Library, p: Perimeter) {
    && ParseParameters(lib, Get(ParametersEntries(p.params), "parameters")) == Ok(p.params)
    && ParseColumns(lib, Get(ColumnsEntries(p.selected), "selected_columns")) == Ok(p.selected)
    && WellFilter(lib, p.params, p.filter)
    && ParseSort(lib, Get(SortEntries(p.sort), "sort")) == Ok(p.sort)
  }

  lemma {:induction false} ParsedIsWell(lib: Library, raw: Value, p: Perimeter)
    requires Lawful(lib) && Parse(lib, raw) == Ok(p)
    ensures WellPerimeter(lib, p)
  {
    if raw != Null {
      var d := raw.entries;
      ParametersReadBack(lib, Get(d, "parameters"), p.params);
      ColumnsReadBack(lib, Get(d, "selected_columns"), p.selected);
      ParsedFilterIsWell(lib, Get(d, "filter"), p.params);
      SortReadsBack(lib, Get(d, "sort"), p.sort);
    }
  }

  lemma {:induction false} WellReadsBack(lib: Library, p: Perimeter)
    requires WellPerimeter(lib, p)
    ensures Parse(lib, ToJson(p)) == Ok(p)
  {
    FilterReadsBack(lib, p.params, p.filter);
    PerimeterKeys(p);
  }

  /** Normalizing is idempotent: what it returns is accepted again and unchanged, defaults coerced
      and serialized the first time included. */
  lemma {:induction false} NormalizeIsIdempotent(lib: Library, raw: Value, p: Perimeter)
    requires Lawful(lib) && Parse(lib, raw) == Ok(p)
    ensures Parse(lib, ToJson(p)) == Ok(p)
  {
    ParsedIsWell(lib, raw, p);
    WellReadsBack(lib, p);
  }
}
