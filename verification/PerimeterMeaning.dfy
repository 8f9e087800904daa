/** What a perimeter means, read directly from its untyped JSON, and that compiling it preserves
    this meaning on every row. */
module PerimeterMeaning {
  import opened Prelude
  import opened PyText
  import opened PyValues
  import opened Collecting
  import opened DatasetParameters
  import opened Perimeter
  import opened PerimeterQuery
  import opened LikePatterns

  // ----- Direct evaluation -----

  function AllOf(ts: seq<Truth>): Truth {
    if False in ts then False else if Unknown in ts then Unknown else True
  }

  function AnyOf(ts: seq<Truth>): Truth {
    if True in ts then True else if Unknown in ts then Unknown else False
  }

  function Fold(logic: Logic, ts: seq<Truth>): Truth {
    if logic == Or then AnyOf(ts) else AllOf(ts)
  }

  /** A test that needs both sides. */
  function Known(cell: Value, operand: Value, holds: bool): Truth {
    if cell == Null || operand == Null then Unknown else Decided(holds)
  }

  /** Membership with nulls: found, not found, or not known. */
  function MemberTruth(db: Database, cell: Value, elements: seq<Value>): Truth {
    if exists i | 0 <= i < |elements| :: cell != Null && elements[i] != Null && db.compare(Equal, cell, elements[i]) then True
    else if elements != [] && (cell == Null || Null in elements) then Unknown
    else False
  }

  /** The text operators, either as their names promise or as LIKE reads them. */
  function TextTruth(db: Database, anchor: Anchor, cell: Value, operand: Value, plain: bool): Truth {
    Known(cell, operand,
          if plain then Promised(anchor, db.text(operand), db.text(cell))
          else Matches(db.dialect, Pattern(anchor, db.text(operand)), db.text(cell)))
  }

  /** What an operator says about a cell. */
  function OperatorTruth(db: Database, op: Operator, cell: Value, operand: Value, plain: bool): Truth {
    match op
    case Eq => if operand == Null then Decided(cell == Null) else Known(cell, operand, db.compare(Equal, cell, operand))
    case Neq => if operand == Null then Decided(cell != Null) else Known(cell, operand, db.compare(NotEqual, cell, operand))
    case Gt => Known(cell, operand, db.compare(Greater, cell, operand))
    case Gte => Known(cell, operand, db.compare(GreaterEqual, cell, operand))
    case Lt => Known(cell, operand, db.compare(Less, cell, operand))
    case Lte => Known(cell, operand, db.compare(LessEqual, cell, operand))
    case Contains => TextTruth(db, Anywhere, cell, operand, plain)
    case StartsWith => TextTruth(db, AtStart, cell, operand, plain)
    case EndsWith => TextTruth(db, AtEnd, cell, operand, plain)
    case In => MemberTruth(db, cell, ElementsOf(operand))
    case NotIn => Negation(MemberTruth(db, cell, ElementsOf(operand)))
    case IsNull => Decided(cell == Null)
    case IsNotNull => Decided(cell != Null)
  }

  /** A text in a cell, as its name promises or as LIKE reads the pattern. */
  function WordText(db: Database, cell: Value, operand: Value, promised: bool, pattern: string, plain: bool): Truth {
    if cell == Null || operand == Null then Unknown
    else if (if plain then promised else Matches(db.dialect, pattern, db.text(cell))) then True
    else False
  }

  function WordComparison(db: Database, c: Comparison, cell: Value, operand: Value): Truth {
    if cell == Null || operand == Null then Unknown else if db.compare(c, cell, operand) then True else False
  }

  /** What the text of an operator says about a cell. */
  function WordTruth(db: Database, word: string, cell: Value, operand: Value, plain: bool): Truth {
    if word == "eq" then
      if operand == Null then (if cell == Null then True else False) else WordComparison(db, Equal, cell, operand)
    else if word == "neq" then
      if operand == Null then (if cell == Null then False else True) else WordComparison(db, NotEqual, cell, operand)
    else if word == "gt" then WordComparison(db, Greater, cell, operand)
    else if word == "gte" then WordComparison(db, GreaterEqual, cell, operand)
    else if word == "lt" then WordComparison(db, Less, cell, operand)
    else if word == "lte" then WordComparison(db, LessEqual, cell, operand)
    else if word == "contains" then
      WordText(db, cell, operand, Occurs(db.text(operand), db.text(cell)), "%" + db.text(operand) + "%", plain)
    else if word == "starts_with" then
      WordText(db, cell, operand, db.text(operand) <= db.text(cell), db.text(operand) + "%", plain)
    else if word == "ends_with" then
      WordText(db, cell, operand, EndsIn(db.text(cell), db.text(operand)), "%" + db.text(operand), plain)
    else if word == "in" then MemberTruth(db, cell, if operand.List? then operand.items else [operand])
    else if word == "not_in" then
      (match MemberTruth(db, cell, if operand.List? then operand.items else [operand])
       case True => False
       case False => True
       case Unknown => Unknown)
    else if word == "is_null" then (if cell == Null then True else False)
    else if word == "is_not_null" then (if cell == Null then False else True)
    else Unknown
  }

  predicate EndsIn(text: string, end: string) {
    |end| <= |text| && text[|text| - |end|..] == end
  }

  /** The value a raw condition compares with: a literal, or a parameter's value. */
  function RawOperand(lib: Library, raw: Value, env: Env): Value {
    if raw.Dict? && Lower(Text(lib, Get(raw.entries, "kind"))) == "parameter"
    then Get(env, Text(lib, Get(raw.entries, "name")))
    else raw
  }

  function EntriesOf(raw: Value): map<string, Value> {
    if raw.Dict? then raw.entries else map[]
  }

  function ItemsOf(raw: Value): seq<Value> {
    if raw.List? then raw.items else []
  }

  function RawCondition(lib: Library, db: Database, raw: Value, env: Env, row: Record, plain: bool): Truth {
    var d := EntriesOf(raw);
    WordTruth(db, Lower(Text(lib, Get(d, "operator"))), Get(row, Text(lib, Get(d, "field"))),
              RawOperand(lib, Get(d, "value"), env), plain)
  }

  function RawConditions(lib: Library, db: Database, raws: seq<Value>, env: Env, row: Record, plain: bool): seq<Truth> {
    seq(|raws|, i requires 0 <= i < |raws| => RawCondition(lib, db, raws[i], env, row, plain))
  }

  /** OR when the text says so, else AND. */
  function RawLogic(lib: Library, raw: Value): Logic {
    if Upper(TextOr(lib, raw, "AND")) == "OR" then Or else And
  }

  function RawItem(lib: Library, db: Database, raw: Value, env: Env, row: Record, plain: bool): Truth {
    var d := EntriesOf(raw);
    if Lower(TextOr(lib, Get(d, "kind"), "condition")) == "group" then
      Fold(RawLogic(lib, Get(d, "logic")), RawConditions(lib, db, ItemsOf(Get(d, "conditions")), env, row, plain))
    else RawCondition(lib, db, raw, env, row, plain)
  }

  function RawItems(lib: Library, db: Database, raws: seq<Value>, env: Env, row: Record, plain: bool): seq<Truth> {
    seq(|raws|, i requires 0 <= i < |raws| => RawItem(lib, db, raws[i], env, row, plain))
  }

  /** The truth of a filter: of its items, or in the legacy form of its conditions. A filter
      without any holds. */
  function RawFilter(lib: Library, db: Database, raw: Value, env: Env, row: Record, plain: bool): Truth {
    var d := EntriesOf(raw);
    var ts :=
      if Get(d, "items") != Null then RawItems(lib, db, ItemsOf(Get(d, "items")), env, row, plain)
      else RawConditions(lib, db, ItemsOf(Get(d, "conditions")), env, row, plain);
    if ts == [] then True else Fold(RawLogic(lib, Get(d, "logic")), ts)
  }

  /** What a raw perimeter says about a row. */
  function Meaning(lib: Library, db: Database, raw: Value, env: Env, row: Record, plain: bool): Truth {
    var filter := Get(EntriesOf(raw), "filter");
    if filter == Null then True else RawFilter(lib, db, filter, env, row, plain)
  }

  // ----- Operands without wildcards -----

  predicate PlainCondition(db: Database, c: Condition, env: Env) {
    OnText(c.operator) && OperandValue(c.operand, env).Ok? ==> !Wild(db.dialect, db.text(OperandValue(c.operand, env).value))
  }

  predicate PlainItem(db: Database, item: Item, env: Env) {
    match item
    case Single(c) => PlainCondition(db, c, env)
    case Group(_, cs) => forall i | 0 <= i < |cs| :: PlainCondition(db, cs[i], env)
  }

  predicate PlainFilter(db: Database, filter: Option<Filter>, env: Env) {
    filter.Some? ==> forall i | 0 <= i < |filter.value.items| :: PlainItem(db, filter.value.items[i], env)
  }

  // ----- Conditions -----

  lemma {:induction false} AmongIsMember(db: Database, cell: Value, elements: seq<Value>)
    ensures AmongTruth(db, cell, elements) == MemberTruth(db, cell, elements)
    decreases |elements|
  {
    if elements != [] {
      var rest := elements[1..];
      AmongIsMember(db, cell, rest);
      assert elements == [elements[0]] + rest;
      assert forall i | 0 <= i < |rest| :: rest[i] == elements[i + 1];
      if exists i | 0 <= i < |elements| :: cell != Null && elements[i] != Null && db.compare(Equal, cell, elements[i]) {
        var i :| 0 <= i < |elements| && cell != Null && elements[i] != Null && db.compare(Equal, cell, elements[i]);
        if i > 0 {
          assert rest[i - 1] == elements[i];
        }
      }
    }
  }

  /** The expression of a condition that can be built says what its operator says. */
  lemma {:induction false} OperatorMeans(
    db: Database, row: Record, column: string, op: Operator, value: Value, plain: bool)
    requires !Refused(op, value) && (plain && OnText(op) ==> !Wild(db.dialect, db.text(value)))
    ensures Eval(db, row, ConditionExpr(column, op, value)) == OperatorTruth(db, op, Get(row, column), value, plain)
  {
    var cell := Get(row, column);
    if OnText(op) {
      var anchor := if op == Contains then Anywhere else if op == StartsWith then AtStart else AtEnd;
      if plain {
        PlainPatternKeepsPromise(db.dialect, anchor, db.text(value), db.text(cell));
      }
    } else if OnList(op) {
      AmongIsMember(db, cell, ElementsOf(value));
    }
  }

  lemma {:induction false} AmongOperators(ops: seq<Operator>, word: string)
    ensures OperatorAmong(ops, word).Some? ==> OperatorName(OperatorAmong(ops, word).value) == word
    decreases |ops|
  {
    if ops != [] {
      AmongOperators(ops[1..], word);
    }
  }

  /** An operator says what its text says. */
  lemma {:induction false} WordMeans(db: Database, word: string, op: Operator, cell: Value, operand: Value, plain: bool)
    requires OperatorNamed(word) == Some(op)
    ensures WordTruth(db, word, cell, operand, plain) == OperatorTruth(db, op, cell, operand, plain)
  {
    AmongOperators(OPERATORS, word);
    NameMeans(db, op, cell, operand, plain);
  }

  lemma {:induction false} NameMeans(db: Database, op: Operator, cell: Value, operand: Value, plain: bool)
    ensures WordTruth(db, OperatorName(op), cell, operand, plain) == OperatorTruth(db, op, cell, operand, plain)
  {
  }

  /** What a parsed condition keeps of its raw form. */
  lemma {:induction false} ConditionKeeps(lib: Library, raw: Value, params: seq<Param>, c: Condition, env: Env)
    requires ParseCondition(lib, raw, params) == Ok(c) && OperandValue(c.operand, env).Ok?
    ensures raw.Dict? && c.field == Text(lib, Get(raw.entries, "field"))
    ensures OperatorNamed(Lower(Text(lib, Get(raw.entries, "operator")))) == Some(c.operator)
    ensures !OnNothing(c.operator) ==> OperandValue(c.operand, env).value == RawOperand(lib, Get(raw.entries, "value"), env)
  {
  }

  lemma {:induction false} ConditionMeans(
    lib: Library, db: Database, raw: Value, params: seq<Param>, c: Condition, columns: seq<string>, env: Env, e: Expr,
    row: Record, plain: bool)
    requires ParseCondition(lib, raw, params) == Ok(c) && CompileCondition(columns, c, env) == Ok(e)
    requires plain ==> PlainCondition(db, c, env)
    ensures Eval(db, row, e) == RawCondition(lib, db, raw, env, row, plain)
  {
    ConditionKeeps(lib, raw, params, c, env);
    var value := OperandValue(c.operand, env).value;
    OperatorMeans(db, row, c.field, c.operator, value, plain);
    WordMeans(db, Lower(Text(lib, Get(raw.entries, "operator"))), c.operator, Get(row, c.field),
              RawOperand(lib, Get(raw.entries, "value"), env), plain);
    NothingIgnored(db, c.operator, Get(row, c.field), value, RawOperand(lib, Get(raw.entries, "value"), env), plain);
  }

  /** The null tests do not look at an operand. */
  lemma {:induction false} NothingIgnored(db: Database, op: Operator, cell: Value, a: Value, b: Value, plain: bool)
    ensures OnNothing(op) ==> OperatorTruth(db, op, cell, a, plain) == OperatorTruth(db, op, cell, b, plain)
  {
  }

  // ----- Groups -----

  lemma {:induction false} AllMeans(db: Database, row: Record, parts: seq<Expr>, ts: seq<Truth>, n: nat)
    requires n <= |parts| == |ts| && forall i | 0 <= i < |parts| :: Eval(db, row, parts[i]) == ts[i]
    ensures EvalAll(db, row, All(parts), n) == AllOf(ts[..n])
    decreases n
  {
    if n > 0 {
      AllMeans(db, row, parts, ts, n - 1);
      assert ts[..n] == ts[..n - 1] + [ts[n - 1]];
    }
  }

  lemma {:induction false} AnyMeans(db: Database, row: Record, parts: seq<Expr>, ts: seq<Truth>, n: nat)
    requires n <= |parts| == |ts| && forall i | 0 <= i < |parts| :: Eval(db, row, parts[i]) == ts[i]
    ensures EvalAny(db, row, Any(parts), n) == AnyOf(ts[..n])
    decreases n
  {
    if n > 0 {
      AnyMeans(db, row, parts, ts, n - 1);
      assert ts[..n] == ts[..n - 1] + [ts[n - 1]];
    }
  }

  /** A conjunction or disjunction of expressions means the fold of what they mean. */
  lemma {:induction false} CombineMeans(db: Database, row: Record, logic: Logic, parts: seq<Expr>, ts: seq<Truth>)
    requires |parts| == |ts| && forall i | 0 <= i < |parts| :: Eval(db, row, parts[i]) == ts[i]
    ensures Eval(db, row, Combine(logic, parts)) == Fold(logic, ts)
  {
    assert ts[..|ts|] == ts;
    if logic == Or {
      AnyMeans(db, row, parts, ts, |parts|);
    } else {
      AllMeans(db, row, parts, ts, |parts|);
    }
  }

  lemma {:induction false} ConditionsMean(
    lib: Library, db: Database, raws: seq<Value>, params: seq<Param>, cs: seq<Condition>, columns: seq<string>, env: Env,
    parts: seq<Expr>, row: Record, plain: bool)
    requires Collect(raws, ConditionStep(lib, params)) == Ok(cs) && Collect(cs, CompileStep(columns, env)) == Ok(parts)
    requires plain ==> forall i | 0 <= i < |cs| :: PlainCondition(db, cs[i], env)
    ensures |parts| == |raws| == |cs|
    ensures forall i | 0 <= i < |parts| ::
              Eval(db, row, parts[i]) == RawConditions(lib, db, raws, env, row, plain)[i]
  {
    CollectExactly(raws, ConditionStep(lib, params), cs);
    CollectExactly(cs, CompileStep(columns, env), parts);
    forall i | 0 <= i < |parts| ensures Eval(db, row, parts[i]) == RawCondition(lib, db, raws[i], env, row, plain) {
      assert ConditionStep(lib, params)(cs[..i], raws[i]) == Ok(cs[i]);
      assert CompileStep(columns, env)(parts[..i], cs[i]) == Ok(parts[i]);
      ConditionMeans(lib, db, raws[i], params, cs[i], columns, env, parts[i], row, plain);
    }
  }

  /** `v or []` is the list of v's items. */
  lemma {:induction false} ListOrItems(v: Value, fault: Fault)
    ensures ListOr(v, fault).Ok? ==> ListOr(v, fault).value == ItemsOf(v)
  {
  }

  lemma {:induction false} GroupMeans(
    lib: Library, db: Database, raws: seq<Value>, params: seq<Param>, logic: Logic, cs: seq<Condition>,
    columns: seq<string>, env: Env, e: Expr, row: Record, plain: bool)
    requires Collect(raws, ConditionStep(lib, params)) == Ok(cs)
    requires CompileItem(columns, Group(logic, cs), env) == Ok(e)
    requires plain ==> PlainItem(db, Group(logic, cs), env)
    ensures Eval(db, row, e) == Fold(logic, RawConditions(lib, db, raws, env, row, plain))
  {
    var parts := Collect(cs, CompileStep(columns, env)).value;
    ConditionsMean(lib, db, raws, params, cs, columns, env, parts, row, plain);
    CombineMeans(db, row, logic, parts, RawConditions(lib, db, raws, env, row, plain));
  }

  lemma {:induction false} ItemMeans(
    lib: Library, db: Database, raw: Value, params: seq<Param>, item: Item, columns: seq<string>, env: Env, e: Expr,
    row: Record, plain: bool)
    requires ParseItem(lib, raw, params) == Ok(item) && CompileItem(columns, item, env) == Ok(e)
    requires plain ==> PlainItem(db, item, env)
    ensures Eval(db, row, e) == RawItem(lib, db, raw, env, row, plain)
  {
    match item
    case Single(c) => ConditionMeans(lib, db, raw, params, c, columns, env, e, row, plain);
    case Group(logic, cs) =>
      ListOrItems(Get(raw.entries, "conditions"), ConditionsNotArray);
      GroupMeans(lib, db, ItemsOf(Get(raw.entries, "conditions")), params, logic, cs, columns, env, e, row, plain);
  }

  // ----- The filter -----

  lemma {:induction false} ItemsMean(
    lib: Library, db: Database, raws: seq<Value>, params: seq<Param>, items: seq<Item>, columns: seq<string>, env: Env,
    parts: seq<Expr>, row: Record, plain: bool)
    requires Collect(raws, ItemStep(lib, params)) == Ok(items) && Collect(items, CompileItemStep(columns, env)) == Ok(parts)
    requires plain ==> forall i | 0 <= i < |items| :: PlainItem(db, items[i], env)
    ensures |parts| == |raws| == |items|
    ensures forall i | 0 <= i < |parts| :: Eval(db, row, parts[i]) == RawItems(lib, db, raws, env, row, plain)[i]
  {
    CollectExactly(raws, ItemStep(lib, params), items);
    CollectExactly(items, CompileItemStep(columns, env), parts);
    forall i | 0 <= i < |parts| ensures Eval(db, row, parts[i]) == RawItem(lib, db, raws[i], env, row, plain) {
      assert ItemStep(lib, params)(items[..i], raws[i]) == Ok(items[i]);
      assert CompileItemStep(columns, env)(parts[..i], items[i]) == Ok(parts[i]);
      ItemMeans(lib, db, raws[i], params, items[i], columns, env, parts[i], row, plain);
    }
  }

  /** Compiling the one group of a legacy filter gives what its conditions mean. */
  lemma {:induction false} LegacyMeans(
    lib: Library, db: Database, raws: seq<Value>, params: seq<Param>, logic: Logic, cs: seq<Condition>,
    columns: seq<string>, env: Env, parts: seq<Expr>, row: Record, plain: bool)
    requires Collect(raws, ConditionStep(lib, params)) == Ok(cs)
    requires Collect([Group(logic, cs)], CompileItemStep(columns, env)) == Ok(parts)
    requires plain ==> PlainItem(db, Group(logic, cs), env)
    ensures Eval(db, row, Combine(logic, parts)) == Fold(logic, RawConditions(lib, db, raws, env, row, plain))
  {
    CollectExactly([Group(logic, cs)], CompileItemStep(columns, env), parts);
    assert CompileItemStep(columns, env)(parts[..0], Group(logic, cs)) == Ok(parts[0]);
    GroupMeans(lib, db, raws, params, logic, cs, columns, env, parts[0], row, plain);
    var t := Fold(logic, RawConditions(lib, db, raws, env, row, plain));
    CombineMeans(db, row, logic, parts, [t]);
  }

  lemma {:induction false} LogicIsRead(lib: Library, raw: Value)
    ensures ParseLogic(lib, raw).Ok? ==> ParseLogic(lib, raw).value == RawLogic(lib, raw)
  {
    assert "AND"[0] == 'A' && "OR"[0] == 'O';
  }

  function WhereTruth(db: Database, row: Record, where: Option<Expr>): Truth {
    if where.None? then True else Eval(db, row, where.value)
  }

  lemma {:induction false} FilterMeans(
    lib: Library, db: Database, raw: Value, params: seq<Param>, filter: Option<Filter>, columns: seq<string>, env: Env,
    where: Option<Expr>, row: Record, plain: bool)
    requires raw != Null && ParseFilter(lib, raw, params) == Ok(filter) && CompileFilter(columns, filter, env) == Ok(where)
    requires plain ==> PlainFilter(db, filter, env)
    ensures WhereTruth(db, row, where) == RawFilter(lib, db, raw, env, row, plain)
  {
    var d := raw.entries;
    var logic := ParseLogic(lib, Get(d, "logic")).value;
    LogicIsRead(lib, Get(d, "logic"));
    ListOrItems(Get(d, "items"), ItemsNotArray);
    ListOrItems(Get(d, "conditions"), ConditionsNotArray);
    if Get(d, "items") != Null {
      var raws, items := ItemsOf(Get(d, "items")), ParseItems(lib, d, logic, params).value;
      CollectExactly(raws, ItemStep(lib, params), items);
      if items != [] {
        var parts := Collect(items, CompileItemStep(columns, env)).value;
        ItemsMean(lib, db, raws, params, items, columns, env, parts, row, plain);
        CombineMeans(db, row, logic, parts, RawItems(lib, db, raws, env, row, plain));
      }
    } else {
      var raws := ItemsOf(Get(d, "conditions"));
      var cs := Collect(raws, ConditionStep(lib, params)).value;
      CollectExactly(raws, ConditionStep(lib, params), cs);
      if cs != [] {
        var parts := Collect([Group(logic, cs)], CompileItemStep(columns, env)).value;
        LegacyMeans(lib, db, raws, params, logic, cs, columns, env, parts, row, plain);
      }
    }
  }

  /** Compilation preserves meaning: on every row and for every environment, the compiled condition
      has the truth the raw perimeter has when read directly, the legacy form included. Where no
      text operand holds a wildcard, that reading can take the text operators at their word. */
  lemma {:induction false} CompilePreservesMeaning(
    lib: Library, db: Database, columns: seq<string>, raw: Value, limit: Option<int>, env: Env, query: Query, row: Record,
    plain: bool)
    requires CompileJson(lib, columns, raw, limit, env) == Ok(query)
    requires plain ==> PlainFilter(db, Parse(lib, raw).value.filter, env)
    ensures WhereTruth(db, row, query.where) == Meaning(lib, db, raw, env, row, plain)
  {
    if raw != Null {
      var filter, p := Get(raw.entries, "filter"), Parse(lib, raw).value;
      if filter != Null {
        FilterMeans(lib, db, filter, p.params, p.filter, columns, env, query.where, row, plain);
      }
    }
  }
}
