/** Compiling a perimeter to a query (dataset_perimeter_compiler.py), with conditions as a small
    expression tree that rows are tested with in SQL's three-valued logic. */
module PerimeterQuery {
  import opened Prelude
  import opened PyText
  import opened PyValues
  import opened Collecting
  import opened DatasetParameters
  import opened Perimeter
  import opened PerimeterNormalize

  // ----- Expressions -----

  datatype Comparison = Equal | NotEqual | Greater | GreaterEqual | Less | LessEqual

  datatype Anchor = Anywhere | AtStart | AtEnd

  datatype Expr =
    | TestNull(column: string, negated: bool)
    | Compare(op: Comparison, column: string, value: Value)
    | Like(anchor: Anchor, column: string, value: Value)
    | Among(column: string, value: Value, negated: bool)
    | All(parts: seq<Expr>)
    | Any(parts: seq<Expr>)

  datatype Truth = True | False | Unknown

  type Record = map<string, Value>

  /** What LIKE takes for special beside `%` and `_` when no escape is named: a backslash before a
      character that stands for itself (PostgreSQL), and character classes in brackets (SQL
      Server). */
  datatype Dialect = Dialect(backslash: bool, classes: bool, member: (string, char) -> bool)

  /** What the database decides: comparisons of values that are not null, texts for LIKE, and how
      LIKE reads a pattern. */
  datatype Database = Database(
    compare: (Comparison, Value, Value) -> bool, text: Value -> string, dialect: Dialect)

  function Decided(b: bool): Truth {
    if b then True else False
  }

  function Negation(t: Truth): Truth {
    match t
    case True => False
    case False => True
    case Unknown => Unknown
  }

  function Conjunction(a: Truth, b: Truth): Truth {
    if a == False || b == False then False else if a == Unknown || b == Unknown then Unknown else True
  }

  function Disjunction(a: Truth, b: Truth): Truth {
    if a == True || b == True then True else if a == Unknown || b == Unknown then Unknown else False
  }

  /** The place of the first closing bracket, or the length if there is none. */
  function CloseAt(s: string): (i: nat)
    ensures i <= |s|
  {
    if s == "" || s[0] == ']' then 0 else 1 + CloseAt(s[1..])
  }

  /** LIKE: `%` stands for any text, `_` for any character, a class for any of its members, and an
      escaped character for itself. A class that is not closed matches nothing; nor does a pattern
      that ends in its escape, which makes the query fail. */
  predicate Matches(d: Dialect, pattern: string, text: string)
    decreases |pattern|, |text|
  {
    if pattern == "" then text == ""
    else if d.backslash && pattern[0] == '\\' then
      |pattern| > 1 && text != "" && text[0] == pattern[1] && Matches(d, pattern[2..], text[1..])
    else if pattern[0] == '%' then Matches(d, pattern[1..], text) || (text != "" && Matches(d, pattern, text[1..]))
    else if d.classes && pattern[0] == '[' then
      var close := 1 + CloseAt(pattern[1..]);
      close < |pattern| && text != "" && d.member(pattern[1..close], text[0]) && Matches(d, pattern[close + 1..], text[1..])
    else text != "" && (pattern[0] == '_' || pattern[0] == text[0]) && Matches(d, pattern[1..], text[1..])
  }

  /** The pattern of `contains`, `startswith` and `endswith`, whose operand is not escaped. */
  function Pattern(anchor: Anchor, operand: string): string {
    match anchor
    case Anywhere => "%" + operand + "%"
    case AtStart => operand + "%"
    case AtEnd => "%" + operand
  }

  function ElementsOf(value: Value): seq<Value> {
    if value.List? then value.items else [value]
  }

  function CellOf(row: Record, column: string): Value {
    Get(row, column)
  }

  /** `column IN (values)`, one element at a time. */
  function AmongTruth(db: Database, cell: Value, values: seq<Value>): Truth {
    if values == [] then False
    else
      Disjunction(
        if cell == Null || values[0] == Null then Unknown else Decided(db.compare(Equal, cell, values[0])),
        AmongTruth(db, cell, values[1..]))
  }

  function Eval(db: Database, row: Record, e: Expr): Truth
    decreases e, if e.All? || e.Any? then |e.parts| + 1 else 0
  {
    match e
    case TestNull(column, negated) => Decided((CellOf(row, column) == Null) != negated)
    case Compare(op, column, value) =>
      if CellOf(row, column) == Null || value == Null then Unknown
      else Decided(db.compare(op, CellOf(row, column), value))
    case Like(anchor, column, value) =>
      if CellOf(row, column) == Null || value == Null then Unknown
      else Decided(Matches(db.dialect, Pattern(anchor, db.text(value)), db.text(CellOf(row, column))))
    case Among(column, value, negated) =>
      var found := AmongTruth(db, CellOf(row, column), ElementsOf(value));
      if negated then Negation(found) else found
    case All(parts) => EvalAll(db, row, e, |parts|)
    case Any(parts) => EvalAny(db, row, e, |parts|)
  }

  /** The first n conjuncts. */
  function EvalAll(db: Database, row: Record, e: Expr, n: nat): Truth
    requires e.All? && n <= |e.parts|
    decreases e, n
  {
    if n == 0 then True else Conjunction(EvalAll(db, row, e, n - 1), Eval(db, row, e.parts[n - 1]))
  }

  /** The first n disjuncts. */
  function EvalAny(db: Database, row: Record, e: Expr, n: nat): Truth
    requires e.Any? && n <= |e.parts|
    decreases e, n
  {
    if n == 0 then False else Disjunction(EvalAny(db, row, e, n - 1), Eval(db, row, e.parts[n - 1]))
  }

  // ----- Compilation -----

  type Env = map<string, Value>

  datatype Query = Query(columns: seq<string>, where: Option<Expr>, order: seq<SortKey>, limit: Option<int>)

  function OperandValue(operand: Operand, env: Env): Result<Value, Fault> {
    match operand
    case Nothing => Ok(Null)
    case Literal(v) => Ok(v)
    case Reference(name) => if name in env then Ok(env[name]) else Raised(ParameterUnresolved)
  }

  predicate OnOrder(op: Operator) {
    op == Gt || op == Gte || op == Lt || op == Lte
  }

  /** The SQL toolkit builds no ordering and no LIKE against null or a boolean: it raises. */
  predicate Refused(op: Operator, value: Value) {
    (OnOrder(op) || OnText(op)) && (value == Null || value.Bool?)
  }

  function ConditionExpr(column: string, op: Operator, value: Value): Expr {
    match op
    case Eq => if value == Null then TestNull(column, false) else Compare(Equal, column, value)
    case Neq => if value == Null then TestNull(column, true) else Compare(NotEqual, column, value)
    case Gt => Compare(Greater, column, value)
    case Gte => Compare(GreaterEqual, column, value)
    case Lt => Compare(Less, column, value)
    case Lte => Compare(LessEqual, column, value)
    case Contains => Like(Anywhere, column, value)
    case StartsWith => Like(AtStart, column, value)
    case EndsWith => Like(AtEnd, column, value)
    case In => Among(column, value, false)
    case NotIn => Among(column, value, true)
    case IsNull => TestNull(column, false)
    case IsNotNull => TestNull(column, true)
  }

  /** `_compile_condition`. */
  function CompileCondition(columns: seq<string>, c: Condition, env: Env): Result<Expr, Fault> {
    if c.field !in columns then Raised(NoSuchField)
    else
      match OperandValue(c.operand, env)
      case Raised(e) => Raised(e)
      case Ok(value) =>
        if Refused(c.operator, value) then Raised(OperandRefused) else Ok(ConditionExpr(c.field, c.operator, value))
  }

  function CompileStep(columns: seq<string>, env: Env): (seq<Expr>, Condition) -> Result<Expr, Fault> {
    (before: seq<Expr>, c: Condition) => CompileCondition(columns, c, env)
  }

  function Combine(logic: Logic, parts: seq<Expr>): Expr {
    if logic == Or then Any(parts) else All(parts)
  }

  /** `_compile_filter_item`. */
  function CompileItem(columns: seq<string>, item: Item, env: Env): Result<Expr, Fault> {
    match item
    case Single(c) => CompileCondition(columns, c, env)
    case Group(logic, conditions) =>
      match Collect(conditions, CompileStep(columns, env))
      case Raised(e) => Raised(e)
      case Ok(parts) => Ok(Combine(logic, parts))
  }

  function CompileItemStep(columns: seq<string>, env: Env): (seq<Expr>, Item) -> Result<Expr, Fault> {
    (before: seq<Expr>, item: Item) => CompileItem(columns, item, env)
  }

  function CompileFilter(columns: seq<string>, filter: Option<Filter>, env: Env): Result<Option<Expr>, Fault> {
    if filter.None? || filter.value.items == [] then Ok(None)
    else
      match Collect(filter.value.items, CompileItemStep(columns, env))
      case Raised(e) => Raised(e)
      case Ok(parts) => Ok(Some(Combine(filter.value.logic, parts)))
  }

  /** The columns asked for, all if none are. */
  function SelectedColumns(columns: seq<string>, selected: Option<seq<string>>): seq<string> {
    if selected.Some? && selected.value != [] then selected.value else columns
  }

  function OrderKeys(sort: Option<seq<SortKey>>): seq<SortKey> {
    if sort.Some? then sort.value else []
  }

  function ChooseColumns(columns: seq<string>, selected: Option<seq<string>>): Result<seq<string>, Fault> {
    var chosen := SelectedColumns(columns, selected);
    if exists i | 0 <= i < |chosen| :: chosen[i] !in columns then Raised(NoSuchColumn) else Ok(chosen)
  }

  function ChooseOrder(columns: seq<string>, sort: Option<seq<SortKey>>): Result<seq<SortKey>, Fault> {
    var keys := OrderKeys(sort);
    if exists i | 0 <= i < |keys| :: keys[i].field !in columns then Raised(NoSuchSortField) else Ok(keys)
  }

  /** The query of an accepted perimeter, or the first fault in the order the source finds them. */
  function CompileTyped(columns: seq<string>, p: Perimeter, limit: Option<int>, env: Env): Result<Query, Fault> {
    match ChooseColumns(columns, p.selected)
    case Raised(e) => Raised(e)
    case Ok(selected) =>
      match CompileFilter(columns, p.filter, env)
      case Raised(e) => Raised(e)
      case Ok(where) =>
        match ChooseOrder(columns, p.sort)
        case Raised(e) => Raised(e)
        case Ok(order) => Ok(Query(selected, where, order, limit))
  }

  /** `compile` on untyped JSON. */
  function CompileJson(
    lib: Library, columns: seq<string>, raw: Value, limit: Option<int>, env: Env): Result<Query, Fault> {
    match Parse(lib, raw)
    case Raised(e) => Raised(e)
    case Ok(p) => CompileTyped(columns, p, limit, env)
  }

  method SelectColumns(columns: seq<string>, selected: Option<seq<string>>) returns (r: Result<seq<string>, Fault>)
    ensures r == ChooseColumns(columns, selected)
  {
    if selected.None? || selected.value == [] {
      return Ok(columns);
    }
    for i := 0 to |selected.value|
      invariant forall j | 0 <= j < i :: selected.value[j] in columns
    {
      if selected.value[i] !in columns {
        return Raised(NoSuchColumn);
      }
    }
    return Ok(selected.value);
  }

  method OrderBy(columns: seq<string>, sort: Option<seq<SortKey>>) returns (r: Result<seq<SortKey>, Fault>)
    ensures r == ChooseOrder(columns, sort)
  {
    var order: seq<SortKey> := [];
    var keys := OrderKeys(sort);
    for i := 0 to |keys|
      invariant order == keys[..i] && forall j | 0 <= j < i :: keys[j].field in columns
    {
      if keys[i].field !in columns {
        return Raised(NoSuchSortField);
      }
      order := order + [keys[i]];
    }
    assert order == keys;
    return Ok(order);
  }

  /** `compile`: the statement is rebuilt as its clauses are found. */
  method Compile(lib: Library, columns: seq<string>, raw: Value, limit: Option<int>, env: Env)
    returns (r: Result<Query, Fault>)
    ensures r == CompileJson(lib, columns, raw, limit, env)
  {
    var normalized := Normalize(lib, raw);
    if normalized.Raised? {
      return Raised(normalized.error);
    }
    var p := normalized.value;
    var selected := SelectColumns(columns, p.selected);
    if selected.Raised? {
      return Raised(selected.error);
    }
    var stmt := Query(selected.value, None, [], None);
    var where := CompileFilter(columns, p.filter, env);
    if where.Raised? {
      return Raised(where.error);
    }
    stmt := stmt.(where := where.value);
    var order := OrderBy(columns, p.sort);
    if order.Raised? {
      return Raised(order.error);
    }
    stmt := stmt.(order := order.value);
    if limit.Some? {
      stmt := stmt.(limit := limit);
    }
    return Ok(stmt);
  }
}
