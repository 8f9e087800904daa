/** What normalizing and resolving guarantee to the compiler, and parameters as literals. */
module PerimeterTyping {
  import opened Prelude
  import opened PyText
  import opened PyValues
  import opened Collecting
  import opened DatasetParameters
  import opened Perimeter
  import opened PerimeterNormalize
  import opened PerimeterQuery

  // ----- Operands -----

  predicate Orderable(v: Value) {
    v.Int? || v.Float? || v.Date? || v.DateTime?
  }

  lemma {:induction false} LookupFinds(params: seq<Param>, name: string) returns (i: nat)
    requires Lookup(params, name).Some?
    ensures i < |params| && Lookup(params, name) == Some(params[i]) && params[i].name == name
    decreases |params|
  {
    if params[0].name == name {
      i := 0;
    } else {
      i := LookupFinds(params[1..], name);
      i := i + 1;
    }
  }

  /** In an accepted perimeter with resolved parameters every operand has a value. A parameter's is
      null or of its declared type, so that a text operator is given a text and an ordering
      operator an ordered value, or null. */
  lemma {:induction false} OperandsAreTyped(
    lib: Library, params: seq<Param>, c: Condition, overrides: map<string, Value>, env: Env)
    requires WellCondition(lib, params, c) && Provides(lib, params, overrides, env)
    ensures OperandValue(c.operand, env).Ok?
    ensures var v := OperandValue(c.operand, env).value;
            && (c.operand.Reference? ==> v == Null || Inhabits(Lookup(params, c.operand.name).value.kind, v))
            && (OnText(c.operator) ==> v == Null || v.Str?)
            && (OnOrder(c.operator) && c.operand.Reference? ==> v == Null || Orderable(v))
  {
    if c.operand.Reference? {
      var i := LookupFinds(params, c.operand.name);
      ResolvedAreTyped(lib, params, overrides, env, i);
    }
  }

  // ----- When compilation succeeds -----

  predicate FitsCondition(columns: seq<string>, c: Condition) {
    c.field in columns
  }

  predicate FitsItem(columns: seq<string>, item: Item) {
    match item
    case Single(c) => FitsCondition(columns, c)
    case Group(_, cs) => forall i | 0 <= i < |cs| :: FitsCondition(columns, cs[i])
  }

  predicate FitsFilter(columns: seq<string>, filter: Option<Filter>) {
    filter.Some? ==> forall i | 0 <= i < |filter.value.items| :: FitsItem(columns, filter.value.items[i])
  }

  /** Every column a perimeter names exists. */
  predicate Fits(columns: seq<string>, p: Perimeter) {
    && (p.selected.Some? ==> forall i | 0 <= i < |p.selected.value| :: p.selected.value[i] in columns)
    && FitsFilter(columns, p.filter)
    && (p.sort.Some? ==> forall i | 0 <= i < |p.sort.value| :: p.sort.value[i].field in columns)
  }

  /** No ordering or text operator is given null or a boolean. */
  predicate ConditionAllowed(c: Condition, env: Env) {
    OperandValue(c.operand, env).Ok?
    && (OperandValue(c.operand, env).value == Null || OperandValue(c.operand, env).value.Bool?) ==>
      c.operator == Eq || c.operator == Neq || OnList(c.operator) || OnNothing(c.operator)
  }

  predicate ItemAllowed(item: Item, env: Env) {
    match item
    case Single(c) => ConditionAllowed(c, env)
    case Group(_, cs) => forall i | 0 <= i < |cs| :: ConditionAllowed(cs[i], env)
  }

  predicate FilterAllowed(filter: Option<Filter>, env: Env) {
    filter.Some? ==> forall i | 0 <= i < |filter.value.items| :: ItemAllowed(filter.value.items[i], env)
  }

  /** A fault of a condition: its column does not exist, or the toolkit refuses its operand. */
  predicate ConditionFault(e: Fault) {
    e == NoSuchField || e == OperandRefused
  }

  lemma {:induction false} ConditionCompilesExactly(columns: seq<string>, c: Condition, env: Env)
    requires OperandValue(c.operand, env).Ok?
    ensures CompileCondition(columns, c, env).Ok? <==> FitsCondition(columns, c) && ConditionAllowed(c, env)
    ensures CompileCondition(columns, c, env).Raised? ==> ConditionFault(CompileCondition(columns, c, env).error)
  {
  }

  lemma {:induction false} GroupCompilesExactly(columns: seq<string>, cs: seq<Condition>, env: Env)
    requires forall i | 0 <= i < |cs| :: OperandValue(cs[i].operand, env).Ok?
    ensures var r := Collect(cs, CompileStep(columns, env));
            && (r.Ok? <==> forall i | 0 <= i < |cs| :: FitsCondition(columns, cs[i]) && ConditionAllowed(cs[i], env))
            && (r.Raised? ==> ConditionFault(r.error))
  {
    var step := CompileStep(columns, env);
    if Collect(cs, step).Raised? {
      var i := CollectBlames(cs, step);
      ConditionCompilesExactly(columns, cs[i], env);
    } else {
      var parts := Collect(cs, step).value;
      CollectExactly(cs, step, parts);
      forall i | 0 <= i < |cs| ensures FitsCondition(columns, cs[i]) && ConditionAllowed(cs[i], env) {
        assert step(parts[..i], cs[i]) == Ok(parts[i]);
        ConditionCompilesExactly(columns, cs[i], env);
      }
    }
  }

  lemma {:induction false} ItemCompilesExactly(
    lib: Library, columns: seq<string>, params: seq<Param>, item: Item, overrides: map<string, Value>, env: Env)
    requires WellItem(lib, params, item) && Provides(lib, params, overrides, env)
    ensures CompileItem(columns, item, env).Ok? <==> FitsItem(columns, item) && ItemAllowed(item, env)
    ensures CompileItem(columns, item, env).Raised? ==> ConditionFault(CompileItem(columns, item, env).error)
  {
    match item
    case Single(c) => OperandsAreTyped(lib, params, c, overrides, env);
    case Group(_, cs) =>
      forall i | 0 <= i < |cs| ensures OperandValue(cs[i].operand, env).Ok? {
        OperandsAreTyped(lib, params, cs[i], overrides, env);
      }
      GroupCompilesExactly(columns, cs, env);
  }

  lemma {:induction false} FilterCompilesExactly(
    lib: Library, columns: seq<string>, params: seq<Param>, filter: Option<Filter>, overrides: map<string, Value>, env: Env)
    requires WellFilter(lib, params, filter) && Provides(lib, params, overrides, env)
    ensures var r := CompileFilter(columns, filter, env);
            && (r.Ok? <==> FitsFilter(columns, filter) && FilterAllowed(filter, env))
            && (r.Raised? ==> ConditionFault(r.error))
  {
    if filter.Some? {
      var items, step := filter.value.items, CompileItemStep(columns, env);
      forall i | 0 <= i < |items|
        ensures CompileItem(columns, items[i], env).Ok? <==> FitsItem(columns, items[i]) && ItemAllowed(items[i], env)
        ensures CompileItem(columns, items[i], env).Raised? ==> ConditionFault(CompileItem(columns, items[i], env).error)
      {
        ItemCompilesExactly(lib, columns, params, items[i], overrides, env);
      }
      if Collect(items, step).Raised? {
        var i := CollectBlames(items, step);
      } else {
        var parts := Collect(items, step).value;
        CollectExactly(items, step, parts);
        forall i | 0 <= i < |items| ensures FitsItem(columns, items[i]) && ItemAllowed(items[i], env) {
          assert step(parts[..i], items[i]) == Ok(parts[i]);
        }
      }
    }
  }

  lemma {:induction false} ChoicesExactly(columns: seq<string>, p: Perimeter)
    ensures ChooseColumns(columns, p.selected).Ok? <==>
              p.selected.Some? ==> forall i | 0 <= i < |p.selected.value| :: p.selected.value[i] in columns
    ensures ChooseColumns(columns, p.selected).Raised? ==> ChooseColumns(columns, p.selected) == Raised(NoSuchColumn)
    ensures ChooseOrder(columns, p.sort).Ok? <==>
              p.sort.Some? ==> forall i | 0 <= i < |p.sort.value| :: p.sort.value[i].field in columns
    ensures ChooseOrder(columns, p.sort).Raised? ==> ChooseOrder(columns, p.sort) == Raised(NoSuchSortField)
  {
  }

  /** An accepted perimeter with resolved parameters compiles exactly when the table has every
      column it names and no ordering or text operator is given null or a boolean; a missing
      parameter is never the reason it does not. */
  lemma {:induction false} CompilesExactly(
    lib: Library, columns: seq<string>, raw: Value, p: Perimeter, overrides: map<string, Value>, limit: Option<int>, env: Env)
    requires Lawful(lib) && Parse(lib, raw) == Ok(p) && Provides(lib, p.params, overrides, env)
    ensures var r := CompileJson(lib, columns, raw, limit, env);
            (r.Ok? <==> Fits(columns, p) && FilterAllowed(p.filter, env)) && r != Raised(ParameterUnresolved)
  {
    ParsedIsWell(lib, raw, p);
    FilterCompilesExactly(lib, columns, p.params, p.filter, overrides, env);
    ChoicesExactly(columns, p);
  }

  /** Rows with x above a bound that is a parameter without a default. */
  const UNSET := Param("p", TInteger, None, NoDefault)
  const BOUNDED := Perimeter([UNSET], None, Some(Filter(And, [Single(Condition("x", Gt, Reference("p")))])), None)

  lemma {:induction false} UnsetIsRead(lib: Library)
    ensures ParseParameters(lib, Get(ParametersEntries([UNSET]), "parameters")) == Ok([UNSET])
  {
    var json := ParameterJson(UNSET);
    ParameterKeys(UNSET);
    assert Trimmed("p");
    TextReadsBack(lib, "p", "");
    TypeReadsBack(lib, TInteger);
    assert ParseParameter(lib, json) == Ok(UNSET);
    var step := ParameterStep(lib);
    assert step([UNSET][..0], json) == Ok(UNSET);
    CollectExactly([json], step, [UNSET]);
    assert Get(ParametersEntries([UNSET]), "parameters") == List([json]);
  }

  lemma {:induction false} BoundedIsWell(lib: Library)
    ensures WellPerimeter(lib, BOUNDED)
  {
    UnsetIsRead(lib);
    assert Trimmed("x") && Trimmed("p");
    assert WellItem(lib, BOUNDED.params, Single(Condition("x", Gt, Reference("p"))));
  }

  lemma {:induction false} UnsetResolves(lib: Library)
    ensures ResolveFault(lib, BOUNDED.params, Null).None? && Provides(lib, BOUNDED.params, map[], map["p" := Null])
  {
    assert Names([UNSET]) == ["p"];
    assert [UNSET][1..] == [];
    assert FirstUnresolvable(lib, [], map[]).None?;
  }

  /** An accepted perimeter whose columns exist need not compile: without an override the bound
      resolves to null, and an ordering against null is refused. */
  lemma {:induction false} UnsetBoundIsRefused(lib: Library, limit: Option<int>)
    ensures Parse(lib, ToJson(BOUNDED)) == Ok(BOUNDED) && Fits(["x"], BOUNDED)
    ensures ResolveFault(lib, BOUNDED.params, Null).None? && Provides(lib, BOUNDED.params, map[], map["p" := Null])
    ensures CompileJson(lib, ["x"], ToJson(BOUNDED), limit, map["p" := Null]) == Raised(OperandRefused)
  {
    BoundedIsWell(lib);
    WellReadsBack(lib, BOUNDED);
    UnsetResolves(lib);
    BoundIsRefused();
  }

  lemma {:induction false} BoundIsRefused()
    ensures ChooseColumns(["x"], BOUNDED.selected).Ok?
    ensures CompileFilter(["x"], BOUNDED.filter, map["p" := Null]) == Raised(OperandRefused)
  {
    var items, step := BOUNDED.filter.value.items, CompileItemStep(["x"], map["p" := Null]);
    assert step([], items[0]) == Raised(OperandRefused);
    assert Collect(items[..0], step) == Ok([]);
  }

  /** Compiling what normalizing returned is compiling the original. */
  lemma {:induction false} NormalizedCompilesAlike(
    lib: Library, columns: seq<string>, raw: Value, p: Perimeter, limit: Option<int>, env: Env)
    requires Lawful(lib) && Parse(lib, raw) == Ok(p)
    ensures CompileJson(lib, columns, ToJson(p), limit, env) == CompileJson(lib, columns, raw, limit, env)
  {
    NormalizeIsIdempotent(lib, raw, p);
  }

  // ----- Parameters as literals -----

  /** Each parameter with a value other than null replaced by that value. */
  function SubstitutedCondition(c: Condition, env: Env): Condition {
    if c.operand.Reference? && c.operand.name in env && env[c.operand.name] != Null then
      c.(operand := Literal(env[c.operand.name]))
    else c
  }

  function SubstitutedConditions(cs: seq<Condition>, env: Env): seq<Condition> {
    seq(|cs|, i requires 0 <= i < |cs| => SubstitutedCondition(cs[i], env))
  }

  function SubstitutedItem(item: Item, env: Env): Item {
    match item
    case Single(c) => Single(SubstitutedCondition(c, env))
    case Group(logic, cs) => Group(logic, SubstitutedConditions(cs, env))
  }

  function SubstitutedItems(items: seq<Item>, env: Env): seq<Item> {
    seq(|items|, i requires 0 <= i < |items| => SubstitutedItem(items[i], env))
  }

  function Substituted(p: Perimeter, env: Env): Perimeter {
    if p.filter.None? then p
    else p.(filter := Some(Filter(p.filter.value.logic, SubstitutedItems(p.filter.value.items, env))))
  }

  /** The part of an environment that substitution leaves in use. */
  function NullsOf(env: Env): Env {
    map name | name in env && env[name] == Null :: Null
  }

  lemma {:induction false} ItemSubstitutes(columns: seq<string>, item: Item, env: Env)
    ensures CompileItem(columns, SubstitutedItem(item, env), NullsOf(env)) == CompileItem(columns, item, env)
  {
    if item.Group? {
      CollectAlike(SubstitutedConditions(item.conditions, env), item.conditions,
                   CompileStep(columns, NullsOf(env)), CompileStep(columns, env));
    }
  }

  /** Compiling with an environment is compiling with its values written as literals. */
  lemma {:induction false} SubstitutionCompiles(columns: seq<string>, p: Perimeter, limit: Option<int>, env: Env)
    ensures CompileTyped(columns, Substituted(p, env), limit, NullsOf(env)) == CompileTyped(columns, p, limit, env)
  {
    if p.filter.Some? {
      var items := p.filter.value.items;
      forall i | 0 <= i < |items|
        ensures CompileItem(columns, SubstitutedItem(items[i], env), NullsOf(env)) == CompileItem(columns, items[i], env)
      {
        ItemSubstitutes(columns, items[i], env);
      }
      CollectAlike(SubstitutedItems(items, env), items, CompileItemStep(columns, NullsOf(env)), CompileItemStep(columns, env));
    }
  }

  lemma {:induction false} SubstitutedConditionIsWell(
    lib: Library, params: seq<Param>, c: Condition, overrides: map<string, Value>, env: Env)
    requires WellCondition(lib, params, c) && Provides(lib, params, overrides, env)
    ensures WellCondition(lib, params, SubstitutedCondition(c, env))
  {
    OperandsAreTyped(lib, params, c, overrides, env);
  }

  lemma {:induction false} SubstitutedIsWell(
    lib: Library, p: Perimeter, overrides: map<string, Value>, env: Env)
    requires WellPerimeter(lib, p) && Provides(lib, p.params, overrides, env)
    ensures WellPerimeter(lib, Substituted(p, env))
  {
    if p.filter.Some? {
      var items := p.filter.value.items;
      forall i | 0 <= i < |items| ensures WellItem(lib, p.params, SubstitutedItem(items[i], env)) {
        assert WellItem(lib, p.params, items[i]);
        match items[i]
        case Single(c) => SubstitutedConditionIsWell(lib, p.params, c, overrides, env);
        case Group(_, cs) =>
          forall j | 0 <= j < |cs| ensures WellCondition(lib, p.params, SubstitutedCondition(cs[j], env)) {
            SubstitutedConditionIsWell(lib, p.params, cs[j], overrides, env);
          }
      }
    }
  }

  /** The same on untyped JSON: the perimeter with literals is accepted, and compiles to the query
      the original compiles to with its parameters. */
  lemma {:induction false} LiteralsCompileAlike(
    lib: Library, columns: seq<string>, raw: Value, p: Perimeter, overrides: map<string, Value>, limit: Option<int>, env: Env)
    requires Lawful(lib) && Parse(lib, raw) == Ok(p) && Provides(lib, p.params, overrides, env)
    ensures CompileJson(lib, columns, ToJson(Substituted(p, env)), limit, NullsOf(env))
         == CompileJson(lib, columns, raw, limit, env)
  {
    ParsedIsWell(lib, raw, p);
    SubstitutedIsWell(lib, p, overrides, env);
    WellReadsBack(lib, Substituted(p, env));
    SubstitutionCompiles(columns, p, limit, env);
  }
}
