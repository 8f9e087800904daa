/** Which untyped perimeters are accepted, read off their JSON, and what their parameters, columns
    and sort keys mean. */
module PerimeterAcceptance {
  import opened Prelude
  import opened PyText
  import opened PyValues
  import opened Collecting
  import opened DatasetParameters
  import opened CoercionMeaning
  import opened Perimeter
  import opened PerimeterQuery
  import opened PerimeterMeaning

  // ----- Words -----

  const COMPARISONS := {"gt", "gte", "lt", "lte"}
  const TEXT_TESTS := {"contains", "starts_with", "ends_with"}
  const ORDERED_TYPES := {"integer", "number", "date", "datetime"}

  /** The lower-case word under a key. */
  function Word(lib: Library, d: map<string, Value>, key: string): string {
    Lower(Text(lib, Get(d, key)))
  }

  /** The values of a type, by its name; None for any other text. */
  function TypeOf(word: string): Option<ParamType> {
    match word
    case "string" => Some(TString)
    case "integer" => Some(TInteger)
    case "number" => Some(TNumber)
    case "boolean" => Some(TBoolean)
    case "date" => Some(TDate)
    case "datetime" => Some(TDateTime)
    case _ => None
  }

  /** `str(v or default).strip()`: null, false, zero and what is empty count as nothing. */
  lemma {:induction false} TextExactly(lib: Library, v: Value, default: string)
    ensures v in {Null, Bool(false), Int(0), Float(0.0), Str(""), List([]), Dict(map[])} ==>
              TextOr(lib, v, default) == Strip(default)
    ensures v.Str? && v.s != "" ==> TextOr(lib, v, default) == Strip(v.s)
    ensures v !in {Null, Bool(false), Int(0), Float(0.0), List([]), Dict(map[])} && !v.Str? ==>
              TextOr(lib, v, default) == Strip(lib.show(v))
  {
  }

  // ----- What is accepted -----

  ghost predicate BindingRight(lib: Library, v: Value) {
    && v.Dict? && Word(lib, v.entries, "kind") == "built_in"
    && (Text(lib, Get(v.entries, "resolver")) == "$now" || Text(lib, Get(v.entries, "resolver")) == "$today")
  }

  /** At most one default: a value of the type, or the clock. */
  ghost predicate DefaultRight(lib: Library, d: map<string, Value>, kind: ParamType) {
    if "default_value" in d
    then Get(d, "default_binding") == Null && exists v :: StandsFor(lib, kind, d["default_value"], v)
    else Get(d, "default_binding") == Null || BindingRight(lib, Get(d, "default_binding"))
  }

  ghost predicate ParameterRight(lib: Library, v: Value) {
    && v.Dict? && Text(lib, Get(v.entries, "name")) != ""
    && TypeOf(Word(lib, v.entries, "type")).Some?
    && DefaultRight(lib, v.entries, TypeOf(Word(lib, v.entries, "type")).value)
  }

  /** The name a parameter declares, and the word of its type. */
  function NameIn(lib: Library, v: Value): string {
    Text(lib, Get(EntriesOf(v), "name"))
  }

  function TypeIn(lib: Library, v: Value): string {
    Word(lib, EntriesOf(v), "type")
  }

  ghost predicate ParametersRight(lib: Library, v: Value) {
    v == Null || (v.List? && ListedRight(lib, v.items))
  }

  ghost predicate ListedRight(lib: Library, raws: seq<Value>) {
    && (forall i | 0 <= i < |raws| :: ParameterRight(lib, raws[i]))
    && forall i, j | 0 <= i < j < |raws| :: NameIn(lib, raws[i]) != NameIn(lib, raws[j])
  }

  ghost predicate ColumnsRight(lib: Library, v: Value) {
    v == Null || (v.List? && NamedRight(lib, v.items))
  }

  ghost predicate NamedRight(lib: Library, raws: seq<Value>) {
    && (forall i | 0 <= i < |raws| :: Text(lib, raws[i]) != "")
    && forall i, j | 0 <= i < j < |raws| :: Text(lib, raws[i]) != Text(lib, raws[j])
  }

  /** `asc` where nothing is said. */
  function Direction(lib: Library, v: Value): string {
    Lower(TextOr(lib, Get(EntriesOf(v), "direction"), "asc"))
  }

  ghost predicate SortRight(lib: Library, v: Value) {
    v == Null || (v.List? && forall i | 0 <= i < |v.items| :: KeyRight(lib, v.items[i]))
  }

  ghost predicate KeyRight(lib: Library, v: Value) {
    v.Dict? && Text(lib, Get(v.entries, "field")) != "" && (Direction(lib, v) == "asc" || Direction(lib, v) == "desc")
  }

  /** Some parameter has the name, and a type the operator can be asked of. */
  ghost predicate ReferenceRight(lib: Library, raws: seq<Value>, name: string, op: string) {
    && name != ""
    && exists i | 0 <= i < |raws| :: NameIn(lib, raws[i]) == name && Suits(op, TypeIn(lib, raws[i]))
  }

  predicate Suits(op: string, kind: string) {
    || op == "eq" || op == "neq"
    || (op in COMPARISONS && kind in ORDERED_TYPES)
    || (op in TEXT_TESTS && kind == "string")
  }

  ghost predicate OperandRight(lib: Library, raws: seq<Value>, v: Value, op: string) {
    if v.Dict? && Word(lib, v.entries, "kind") == "parameter"
    then ReferenceRight(lib, raws, Text(lib, Get(v.entries, "name")), op)
    else (op == "in" || op == "not_in" ==> v.List? && v.items != []) && (op in TEXT_TESTS ==> v.Str?)
  }

  ghost predicate ConditionRight(lib: Library, raws: seq<Value>, v: Value) {
    && v.Dict? && Text(lib, Get(v.entries, "field")) != ""
    && var op := Word(lib, v.entries, "operator");
    || op == "is_null" || op == "is_not_null"
    || ((op == "eq" || op == "neq" || op in COMPARISONS || op in TEXT_TESTS || op == "in" || op == "not_in")
        && "value" in v.entries && OperandRight(lib, raws, v.entries["value"], op))
  }

  ghost predicate ConditionsRight(lib: Library, raws: seq<Value>, v: Value) {
    && (Falsy(v) || v.List?)
    && forall i | 0 <= i < |ItemsOf(v)| :: ConditionRight(lib, raws, ItemsOf(v)[i])
  }

  predicate LogicRight(lib: Library, d: map<string, Value>) {
    Upper(TextOr(lib, Get(d, "logic"), "AND")) == "AND" || Upper(TextOr(lib, Get(d, "logic"), "AND")) == "OR"
  }

  ghost predicate ItemRight(lib: Library, raws: seq<Value>, v: Value) {
    && v.Dict?
    && var kind := Lower(TextOr(lib, Get(v.entries, "kind"), "condition"));
    if kind == "group" then
      LogicRight(lib, v.entries) && ConditionsRight(lib, raws, Get(v.entries, "conditions"))
      && ItemsOf(Get(v.entries, "conditions")) != []
    else kind == "condition" && ConditionRight(lib, raws, v)
  }

  ghost predicate FilterRight(lib: Library, raws: seq<Value>, v: Value) {
    v == Null ||
    (&& v.Dict? && LogicRight(lib, v.entries)
     && if Get(v.entries, "items") == Null then ConditionsRight(lib, raws, Get(v.entries, "conditions"))
        else
          && (Falsy(Get(v.entries, "items")) || Get(v.entries, "items").List?)
          && forall i | 0 <= i < |ItemsOf(Get(v.entries, "items"))| ::
               ItemRight(lib, raws, ItemsOf(Get(v.entries, "items"))[i]))
  }

  ghost predicate PerimeterRight(lib: Library, v: Value) {
    v == Null ||
    (&& v.Dict?
     && ParametersRight(lib, Get(v.entries, "parameters"))
     && ColumnsRight(lib, Get(v.entries, "selected_columns"))
     && FilterRight(lib, ItemsOf(Get(v.entries, "parameters")), Get(v.entries, "filter"))
     && SortRight(lib, Get(v.entries, "sort")))
  }

  // ----- Parameters -----

  lemma {:induction false} TypesAreNamed(word: string)
    ensures TypeNamed(word) == TypeOf(word)
  {
  }

  lemma {:induction false} DefaultAcceptedExactly(lib: Library, d: map<string, Value>, kind: ParamType)
    ensures ParseDefault(lib, d, kind).Ok? <==> DefaultRight(lib, d, kind)
  {
    if "default_value" in d {
      var v := d["default_value"];
      if Coerce(lib, kind, v).Ok? {
        CoercesExactly(lib, kind, v, Coerce(lib, kind, v).value);
      }
      forall out ensures StandsFor(lib, kind, v, out) ==> Coerce(lib, kind, v) == Ok(out) {
        CoercesExactly(lib, kind, v, out);
      }
    }
  }

  lemma {:induction false} ParameterAcceptedExactly(lib: Library, v: Value)
    ensures ParseParameter(lib, v).Ok? <==> ParameterRight(lib, v)
    ensures ParseParameter(lib, v).Ok? ==>
              && ParseParameter(lib, v).value.name == NameIn(lib, v)
              && TypeOf(TypeIn(lib, v)) == Some(ParseParameter(lib, v).value.kind)
  {
    if v.Dict? {
      TypesAreNamed(Word(lib, v.entries, "type"));
      if TypeOf(Word(lib, v.entries, "type")).Some? {
        DefaultAcceptedExactly(lib, v.entries, TypeOf(Word(lib, v.entries, "type")).value);
      }
    }
  }

  /** The parameters parsed from a list carry its names and types in order. */
  ghost predicate ParsedFrom(lib: Library, raws: seq<Value>, params: seq<Param>) {
    && |params| == |raws|
    && forall i | 0 <= i < |raws| ::
         params[i].name == NameIn(lib, raws[i]) && TypeOf(TypeIn(lib, raws[i])) == Some(params[i].kind)
  }

  lemma {:induction false} ParsedGrows(lib: Library, init: seq<Value>, params: seq<Param>, last: Value, p: Param)
    requires ParsedFrom(lib, init, params) && p.name == NameIn(lib, last) && TypeOf(TypeIn(lib, last)) == Some(p.kind)
    ensures ParsedFrom(lib, init + [last], params + [p])
  {
  }

  /** One parameter more. */
  lemma {:induction false} OneParameterMore(lib: Library, init: seq<Value>, params: seq<Param>, last: Value)
    requires ListedRight(lib, init) && ParsedFrom(lib, init, params)
    ensures ParameterStep(lib)(params, last).Ok? <==> ListedRight(lib, init + [last])
    ensures ParameterStep(lib)(params, last).Ok? ==>
              ParsedFrom(lib, init + [last], params + [ParameterStep(lib)(params, last).value])
  {
    ParameterAcceptedExactly(lib, last);
    ListedGrows(lib, init, last);
    NamesAreParsed(lib, init, params, NameIn(lib, last));
    if ParseParameter(lib, last).Ok? {
      ParsedGrows(lib, init, params, last, ParseParameter(lib, last).value);
    }
  }

  lemma {:induction false} ListedAcceptedExactly(lib: Library, raws: seq<Value>)
    ensures Collect(raws, ParameterStep(lib)).Ok? <==> ListedRight(lib, raws)
    ensures Collect(raws, ParameterStep(lib)).Ok? ==> ParsedFrom(lib, raws, Collect(raws, ParameterStep(lib)).value)
    decreases |raws|
  {
    if raws != [] {
      var init, last := raws[..|raws| - 1], raws[|raws| - 1];
      assert raws == init + [last];
      ListedAcceptedExactly(lib, init);
      if Collect(init, ParameterStep(lib)).Ok? {
        OneParameterMore(lib, init, Collect(init, ParameterStep(lib)).value, last);
      } else {
        ListedGrows(lib, init, last);
      }
    }
  }

  lemma {:induction false} NamesAreParsed(lib: Library, raws: seq<Value>, params: seq<Param>, name: string)
    requires ParsedFrom(lib, raws, params)
    ensures name in Names(params) <==> exists i | 0 <= i < |raws| :: NameIn(lib, raws[i]) == name
  {
    if i :| 0 <= i < |raws| && NameIn(lib, raws[i]) == name {
      assert Names(params)[i] == name;
    }
  }

  lemma {:induction false} ListedGrows(lib: Library, init: seq<Value>, last: Value)
    ensures ListedRight(lib, init + [last]) <==>
            && ListedRight(lib, init) && ParameterRight(lib, last)
            && forall i | 0 <= i < |init| :: NameIn(lib, init[i]) != NameIn(lib, last)
  {
    var all := init + [last];
    assert forall i | 0 <= i < |init| :: all[i] == init[i];
    assert all[|init|] == last;
  }

  lemma {:induction false} ParametersAcceptedExactly(lib: Library, v: Value)
    ensures ParseParameters(lib, v).Ok? <==> ParametersRight(lib, v)
    ensures ParseParameters(lib, v).Ok? ==> ParsedFrom(lib, ItemsOf(v), ParseParameters(lib, v).value)
  {
    if v.List? {
      ListedAcceptedExactly(lib, v.items);
    }
  }

  // ----- Columns and sort keys -----

  /** The columns a list names, in order. */
  function TextsOf(lib: Library, raws: seq<Value>): seq<string> {
    seq(|raws|, i requires 0 <= i < |raws| => Text(lib, raws[i]))
  }

  lemma {:induction false} NamedGrows(lib: Library, init: seq<Value>, last: Value)
    ensures NamedRight(lib, init + [last]) <==>
            NamedRight(lib, init) && Text(lib, last) != "" && Text(lib, last) !in TextsOf(lib, init)
    ensures TextsOf(lib, init + [last]) == TextsOf(lib, init) + [Text(lib, last)]
  {
    var all := init + [last];
    assert forall i | 0 <= i < |init| :: all[i] == init[i] && TextsOf(lib, init)[i] == Text(lib, init[i]);
    assert all[|init|] == last;
  }

  lemma {:induction false} NamedAcceptedExactly(lib: Library, raws: seq<Value>)
    ensures Collect(raws, ColumnStep(lib)).Ok? <==> NamedRight(lib, raws)
    ensures Collect(raws, ColumnStep(lib)).Ok? ==> Collect(raws, ColumnStep(lib)).value == TextsOf(lib, raws)
    decreases |raws|
  {
    if raws != [] {
      var init, last := raws[..|raws| - 1], raws[|raws| - 1];
      NamedAcceptedExactly(lib, init);
      NamedGrows(lib, init, last);
      assert raws == init + [last];
    }
  }

  lemma {:induction false} ColumnsAcceptedExactly(lib: Library, v: Value)
    ensures ParseColumns(lib, v).Ok? <==> ColumnsRight(lib, v)
  {
    if v.List? {
      NamedAcceptedExactly(lib, v.items);
    }
  }

  function KeyOf(lib: Library, v: Value): SortKey {
    SortKey(Text(lib, Get(EntriesOf(v), "field")), Direction(lib, v) == "desc")
  }

  /** The sort keys a list names, in order. */
  function KeysOf(lib: Library, raws: seq<Value>): seq<SortKey> {
    seq(|raws|, i requires 0 <= i < |raws| => KeyOf(lib, raws[i]))
  }

  lemma {:induction false} KeyAcceptedExactly(lib: Library, before: seq<SortKey>, v: Value)
    ensures SortStep(lib)(before, v).Ok? <==> KeyRight(lib, v)
    ensures SortStep(lib)(before, v).Ok? ==> SortStep(lib)(before, v).value == KeyOf(lib, v)
  {
    assert "asc"[0] == 'a' && "desc"[0] == 'd';
  }

  lemma {:induction false} KeysAcceptedExactly(lib: Library, raws: seq<Value>)
    ensures Collect(raws, SortStep(lib)).Ok? <==> forall i | 0 <= i < |raws| :: KeyRight(lib, raws[i])
    ensures Collect(raws, SortStep(lib)).Ok? ==> Collect(raws, SortStep(lib)).value == KeysOf(lib, raws)
    decreases |raws|
  {
    if raws != [] {
      var init, last := raws[..|raws| - 1], raws[|raws| - 1];
      KeysAcceptedExactly(lib, init);
      assert raws == init + [last] && KeysOf(lib, raws) == KeysOf(lib, init) + [KeyOf(lib, last)];
      forall before ensures SortStep(lib)(before, last).Ok? <==> KeyRight(lib, last)
        ensures SortStep(lib)(before, last).Ok? ==> SortStep(lib)(before, last).value == KeyOf(lib, last)
      {
        KeyAcceptedExactly(lib, before, last);
      }
    }
  }

  lemma {:induction false} SortAcceptedExactly(lib: Library, v: Value)
    ensures ParseSort(lib, v).Ok? <==> SortRight(lib, v)
  {
    if v.List? {
      KeysAcceptedExactly(lib, v.items);
    }
  }

  // ----- Conditions -----

  /** The parameter a name is looked up to. */
  lemma {:induction false} LookupExactly(params: seq<Param>, name: string)
    ensures Lookup(params, name).Some? ==> exists i | 0 <= i < |params| :: params[i] == Lookup(params, name).value
    ensures Lookup(params, name).Some? ==> Lookup(params, name).value.name == name
    ensures Lookup(params, name).None? ==> forall i | 0 <= i < |params| :: params[i].name != name
    decreases |params|
  {
    if params != [] {
      LookupExactly(params[1..], name);
      assert forall i | 0 < i < |params| :: params[i] == params[1..][i - 1];
      if params[0].name != name && Lookup(params[1..], name).Some? {
        var i :| 0 <= i < |params[1..]| && params[1..][i] == Lookup(params[1..], name).value;
        assert params[i + 1] == Lookup(params, name).value;
      }
    }
  }

  predicate OperatorWord(op: string) {
    || op == "is_null" || op == "is_not_null"
    || op == "eq" || op == "neq" || op in COMPARISONS || op in TEXT_TESTS || op == "in" || op == "not_in"
  }

  /** The classes of the operators, by their texts. */
  lemma {:induction false} OperatorClasses(op: Operator, kind: ParamType, word: string)
    requires TypeOf(word) == Some(kind)
    ensures var name := OperatorName(op);
            && OperatorWord(name)
            && (OnNothing(op) <==> name == "is_null" || name == "is_not_null")
            && (OnList(op) <==> name == "in" || name == "not_in")
            && (OnText(op) <==> name in TEXT_TESTS)
            && (!OnList(op) ==> (Compatible(kind, op) <==> Suits(name, word)))
            && (OnList(op) ==> !Suits(name, word))
  {
  }

  lemma {:induction false} NamedOperators(name: string)
    ensures OperatorNamed(name).Some? <==> OperatorWord(name)
    ensures OperatorNamed(name).Some? ==> OperatorName(OperatorNamed(name).value) == name
  {
    AmongOperators(OPERATORS, name);
    AllAmong(OPERATORS, name);
    assert OperatorName(OPERATORS[0]) == "eq" && OperatorName(OPERATORS[1]) == "neq" && OperatorName(OPERATORS[2]) == "gt";
    assert OperatorName(OPERATORS[3]) == "gte" && OperatorName(OPERATORS[4]) == "lt" && OperatorName(OPERATORS[5]) == "lte";
    assert OperatorName(OPERATORS[6]) == "contains" && OperatorName(OPERATORS[7]) == "starts_with";
    assert OperatorName(OPERATORS[8]) == "ends_with";
    assert OperatorName(OPERATORS[9]) == "in" && OperatorName(OPERATORS[10]) == "not_in";
    assert OperatorName(OPERATORS[11]) == "is_null" && OperatorName(OPERATORS[12]) == "is_not_null";
    forall op: Operator ensures OperatorWord(OperatorName(op)) {
      OperatorClasses(op, TString, "string");
    }
  }

  lemma {:induction false} AllAmong(ops: seq<Operator>, name: string)
    ensures OperatorAmong(ops, name).Some? <==> exists i | 0 <= i < |ops| :: OperatorName(ops[i]) == name
    decreases |ops|
  {
    if ops != [] {
      AllAmong(ops[1..], name);
      assert forall i | 0 < i < |ops| :: ops[i] == ops[1..][i - 1];
    }
  }

  lemma {:induction false} ReferenceAcceptedExactly(
    lib: Library, raws: seq<Value>, params: seq<Param>, name: string, op: Operator)
    requires ParsedFrom(lib, raws, params) && ListedRight(lib, raws)
    ensures (name != "" && Lookup(params, name).Some? && !OnList(op) && Compatible(Lookup(params, name).value.kind, op))
            <==> ReferenceRight(lib, raws, name, OperatorName(op))
  {
    LookupExactly(params, name);
    forall i | 0 <= i < |raws| && NameIn(lib, raws[i]) == name
      ensures Lookup(params, name) == Some(params[i])
      ensures Suits(OperatorName(op), TypeIn(lib, raws[i])) <==> !OnList(op) && Compatible(params[i].kind, op)
    {
      assert params[i].name == name;
      LookupIsOnly(lib, raws, params, name, i);
      OperatorClasses(op, params[i].kind, TypeIn(lib, raws[i]));
    }
    if Lookup(params, name).Some? {
      var i :| 0 <= i < |params| && params[i] == Lookup(params, name).value;
      assert NameIn(lib, raws[i]) == name;
    }
  }

  lemma {:induction false} LookupIsOnly(lib: Library, raws: seq<Value>, params: seq<Param>, name: string, i: nat)
    requires ParsedFrom(lib, raws, params) && ListedRight(lib, raws)
    requires i < |raws| && NameIn(lib, raws[i]) == name
    ensures Lookup(params, name) == Some(params[i])
  {
    LookupExactly(params, name);
    assert params[i].name == name;
    var j :| 0 <= j < |params| && params[j] == Lookup(params, name).value;
    assert NameIn(lib, raws[j]) == name;
    assert i == j;
  }

  lemma {:induction false} OperandAcceptedExactly(
    lib: Library, raws: seq<Value>, params: seq<Param>, v: Value, op: Operator)
    requires ParsedFrom(lib, raws, params) && ListedRight(lib, raws) && !OnNothing(op)
    ensures ParseOperand(lib, v, op, params).Ok? <==> OperandRight(lib, raws, v, OperatorName(op))
  {
    OperatorClasses(op, TString, "string");
    if IsReference(lib, v) {
      ReferenceAcceptedExactly(lib, raws, params, Text(lib, Get(v.entries, "name")), op);
    }
  }

  lemma {:induction false} ConditionAcceptedExactly(lib: Library, raws: seq<Value>, params: seq<Param>, v: Value)
    requires ParsedFrom(lib, raws, params) && ListedRight(lib, raws)
    ensures ParseCondition(lib, v, params).Ok? <==> ConditionRight(lib, raws, v)
  {
    if v.Dict? {
      var name := Word(lib, v.entries, "operator");
      NamedOperators(name);
      if OperatorNamed(name).Some? {
        var op := OperatorNamed(name).value;
        OperatorClasses(op, TString, "string");
        if "value" in v.entries && !OnNothing(op) {
          OperandAcceptedExactly(lib, raws, params, v.entries["value"], op);
        }
      }
    }
  }

  lemma {:induction false} ConditionStepRight(
    lib: Library, raws: seq<Value>, params: seq<Param>, before: seq<Condition>, v: Value)
    requires ParsedFrom(lib, raws, params) && ListedRight(lib, raws)
    ensures ConditionStep(lib, params)(before, v).Ok? <==> ConditionRight(lib, raws, v)
  {
    ConditionAcceptedExactly(lib, raws, params, v);
  }

  lemma {:induction false} ConditionsGrow(lib: Library, raws: seq<Value>, vs: seq<Value>)
    requires vs != []
    ensures var init := vs[..|vs| - 1];
            (forall i | 0 <= i < |vs| :: ConditionRight(lib, raws, vs[i]))
            <==> (forall i | 0 <= i < |init| :: ConditionRight(lib, raws, init[i])) && ConditionRight(lib, raws, vs[|vs| - 1])
  {
    var init := vs[..|vs| - 1];
    assert forall i | 0 <= i < |init| :: init[i] == vs[i];
  }

  lemma {:induction false} EachConditionRight(lib: Library, raws: seq<Value>, params: seq<Param>, vs: seq<Value>)
    requires ParsedFrom(lib, raws, params) && ListedRight(lib, raws)
    ensures Collect(vs, ConditionStep(lib, params)).Ok? <==> forall i | 0 <= i < |vs| :: ConditionRight(lib, raws, vs[i])
    decreases |vs|
  {
    if vs != [] {
      var before := Collect(vs[..|vs| - 1], ConditionStep(lib, params));
      EachConditionRight(lib, raws, params, vs[..|vs| - 1]);
      ConditionsGrow(lib, raws, vs);
      if before.Ok? {
        ConditionStepRight(lib, raws, params, before.value, vs[|vs| - 1]);
      }
    }
  }

  lemma {:induction false} ConditionsAcceptedExactly(
    lib: Library, raws: seq<Value>, params: seq<Param>, v: Value, fault: Fault)
    requires ParsedFrom(lib, raws, params) && ListedRight(lib, raws)
    ensures (ListOr(v, fault).Ok? && Collect(ListOr(v, fault).value, ConditionStep(lib, params)).Ok?)
            <==> ConditionsRight(lib, raws, v)
    ensures ListOr(v, fault).Ok? ==> ListOr(v, fault).value == ItemsOf(v)
  {
    ListOrItems(v, fault);
    EachConditionRight(lib, raws, params, ItemsOf(v));
  }

  // ----- Items and filter -----

  lemma {:induction false} LogicAcceptedExactly(lib: Library, d: map<string, Value>)
    ensures ParseLogic(lib, Get(d, "logic")).Ok? <==> LogicRight(lib, d)
  {
  }

  lemma {:induction false} GroupAcceptedExactly(lib: Library, raws: seq<Value>, params: seq<Param>, v: Value)
    requires ParsedFrom(lib, raws, params) && ListedRight(lib, raws)
    requires v.Dict? && Lower(TextOr(lib, Get(v.entries, "kind"), "condition")) == "group"
    ensures ParseItem(lib, v, params).Ok? <==> ItemRight(lib, raws, v)
  {
    LogicAcceptedExactly(lib, v.entries);
    ConditionsAcceptedExactly(lib, raws, params, Get(v.entries, "conditions"), ConditionsNotArray);
    CollectCounts(ItemsOf(Get(v.entries, "conditions")), ConditionStep(lib, params));
  }

  lemma {:induction false} ItemAcceptedExactly(lib: Library, raws: seq<Value>, params: seq<Param>, v: Value)
    requires ParsedFrom(lib, raws, params) && ListedRight(lib, raws)
    ensures ParseItem(lib, v, params).Ok? <==> ItemRight(lib, raws, v)
  {
    if v.Dict? && Lower(TextOr(lib, Get(v.entries, "kind"), "condition")) == "group" {
      GroupAcceptedExactly(lib, raws, params, v);
    } else {
      ConditionAcceptedExactly(lib, raws, params, v);
    }
  }

  lemma {:induction false} ItemStepRight(
    lib: Library, raws: seq<Value>, params: seq<Param>, before: seq<Item>, v: Value)
    requires ParsedFrom(lib, raws, params) && ListedRight(lib, raws)
    ensures ItemStep(lib, params)(before, v).Ok? <==> ItemRight(lib, raws, v)
  {
    ItemAcceptedExactly(lib, raws, params, v);
  }

  lemma {:induction false} ItemsGrow(lib: Library, raws: seq<Value>, vs: seq<Value>)
    requires vs != []
    ensures var init := vs[..|vs| - 1];
            (forall i | 0 <= i < |vs| :: ItemRight(lib, raws, vs[i]))
            <==> (forall i | 0 <= i < |init| :: ItemRight(lib, raws, init[i])) && ItemRight(lib, raws, vs[|vs| - 1])
  {
    var init := vs[..|vs| - 1];
    assert forall i | 0 <= i < |init| :: init[i] == vs[i];
  }

  lemma {:induction false} EachItemRight(lib: Library, raws: seq<Value>, params: seq<Param>, vs: seq<Value>)
    requires ParsedFrom(lib, raws, params) && ListedRight(lib, raws)
    ensures Collect(vs, ItemStep(lib, params)).Ok? <==> forall i | 0 <= i < |vs| :: ItemRight(lib, raws, vs[i])
    decreases |vs|
  {
    if vs != [] {
      var before := Collect(vs[..|vs| - 1], ItemStep(lib, params));
      EachItemRight(lib, raws, params, vs[..|vs| - 1]);
      ItemsGrow(lib, raws, vs);
      if before.Ok? {
        ItemStepRight(lib, raws, params, before.value, vs[|vs| - 1]);
      }
    }
  }

  lemma {:induction false} FilterAcceptedExactly(lib: Library, raws: seq<Value>, params: seq<Param>, v: Value)
    requires ParsedFrom(lib, raws, params) && ListedRight(lib, raws)
    ensures ParseFilter(lib, v, params).Ok? <==> FilterRight(lib, raws, v)
  {
    if v.Dict? {
      LogicAcceptedExactly(lib, v.entries);
      ListOrItems(Get(v.entries, "items"), ItemsNotArray);
      EachItemRight(lib, raws, params, ItemsOf(Get(v.entries, "items")));
      ConditionsAcceptedExactly(lib, raws, params, Get(v.entries, "conditions"), ConditionsNotArray);
    }
  }

  // ----- The perimeter -----

  /** A perimeter is accepted exactly when each of its parts is in order: declared parameters of known
      types with defaults of their type, distinct columns, conditions with an operator and an operand
      it can take, sort keys with a direction. */
  lemma {:induction false} PerimeterAcceptedExactly(lib: Library, v: Value)
    ensures Parse(lib, v).Ok? <==> PerimeterRight(lib, v)
  {
    if v.Dict? {
      var parameters := Get(v.entries, "parameters");
      ParametersAcceptedExactly(lib, parameters);
      ColumnsAcceptedExactly(lib, Get(v.entries, "selected_columns"));
      SortAcceptedExactly(lib, Get(v.entries, "sort"));
      if ParseParameters(lib, parameters).Ok? {
        FilterAcceptedExactly(lib, ItemsOf(parameters), ParseParameters(lib, parameters).value, Get(v.entries, "filter"));
      }
    }
  }

  // ----- What is compiled beside the filter -----

  /** The columns, the order and the limit of the query, read off the JSON: the columns named, or all
      of the table's, sorted by the keys named, all of which the table has. */
  lemma {:induction false} ClausesMean(
    lib: Library, columns: seq<string>, d: map<string, Value>, limit: Option<int>, env: Env, query: Query)
    requires CompileJson(lib, columns, Dict(d), limit, env) == Ok(query)
    ensures query.columns == (if ItemsOf(Get(d, "selected_columns")) == [] then columns
                              else TextsOf(lib, ItemsOf(Get(d, "selected_columns"))))
    ensures query.order == KeysOf(lib, ItemsOf(Get(d, "sort"))) && query.limit == limit
    ensures forall i | 0 <= i < |query.columns| :: query.columns[i] in columns
    ensures forall i | 0 <= i < |query.order| :: query.order[i].field in columns
  {
    if Get(d, "selected_columns").List? {
      NamedAcceptedExactly(lib, Get(d, "selected_columns").items);
    }
    if Get(d, "sort").List? {
      KeysAcceptedExactly(lib, Get(d, "sort").items);
    }
  }

  // ----- Defaults of the clock -----

  /** A parameter bound to the clock resolves to the present moment or to today, as values of its
      type. */
  lemma {:induction false} ClockDefaults(lib: Library, v: Value, p: Param, overrides: map<string, Value>, out: Value)
    requires ParseParameter(lib, v) == Ok(p) && "default_value" !in v.entries && Get(v.entries, "default_binding") != Null
    requires p.name !in overrides
    ensures ValueFor(lib, p, overrides) == Ok(out) <==>
              if Text(lib, Get(EntriesOf(Get(v.entries, "default_binding")), "resolver")) == "$now"
              then StandsFor(lib, p.kind, DateTime(lib.now.0, lib.now.1), out)
              else StandsFor(lib, p.kind, Date(lib.today), out)
  {
    CoercesExactly(lib, p.kind, DateTime(lib.now.0, lib.now.1), out);
    CoercesExactly(lib, p.kind, Date(lib.today), out);
  }

  /** One with a declared default resolves to what that stands for; one without any, to null; and an
      override of exactly its name takes the place of its default. */
  lemma {:induction false} PlainDefaults(lib: Library, p: Param, overrides: map<string, Value>, out: Value)
    ensures p.name in overrides ==>
              (ValueFor(lib, p, overrides) == Ok(out) <==> StandsFor(lib, p.kind, overrides[p.name], out))
    ensures p.name !in overrides && p.default.DefaultValue? ==>
              (ValueFor(lib, p, overrides) == Ok(out) <==> StandsFor(lib, p.kind, p.default.value, out))
    ensures p.name !in overrides && p.default == NoDefault ==> ValueFor(lib, p, overrides) == Ok(Null)
  {
    if p.name in overrides {
      CoercesExactly(lib, p.kind, overrides[p.name], out);
    } else if p.default.DefaultValue? {
      CoercesExactly(lib, p.kind, p.default.value, out);
    }
  }
}
