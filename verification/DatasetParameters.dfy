/** Dataset parameters (dataset_parameter_resolver.py): typed coercion and resolution. */
module DatasetParameters {
  import opened Prelude
  import opened PyText
  import opened PyValues

  /** The library functions of Python the code calls, and the clock. */
  datatype Library = Library(
    show: Value -> string,                        // str() of a value that is not a string
    parseFloat: string -> Option<real>,           // float()
    parseDate: string -> Option<int>,             // date.fromisoformat
    parseDateTime: string -> Option<(int, int)>,  // datetime.fromisoformat
    showDate: int -> string,                      // date.isoformat
    showDateTime: (int, int) -> string,           // datetime.isoformat
    now: (int, int), today: int)

  /** ISO texts read back as what was written, have no outer blanks and no `Z` at the end. */
  ghost predicate Lawful(lib: Library) {
    && (forall d :: Trimmed(lib.showDate(d)) && lib.parseDate(lib.showDate(d)) == Some(d))
    && (forall d, c ::
          && Trimmed(lib.showDateTime(d, c)) && !EndsWithZ(lib.showDateTime(d, c))
          && lib.parseDateTime(lib.showDateTime(d, c)) == Some((d, c)))
  }

  predicate EndsWithZ(s: string) {
    s != [] && s[|s| - 1] == 'Z'
  }

  datatype ParamType = TString | TInteger | TNumber | TBoolean | TDate | TDateTime

  /** Where a parameter gets its value from: nothing, a declared value (which may be null), or the
      clock. */
  datatype Default = NoDefault | DefaultValue(value: Value) | DefaultNow | DefaultToday

  datatype Param = Param(name: string, kind: ParamType, description: Option<string>, default: Default)

  datatype Fault =
    | PerimeterNotObject | ParametersNotArray | ParameterNotObject | ParameterNameMissing | ParameterTypeUnknown
    | TwoDefaults | BadDefault | BindingNotObject | BindingKind | BindingResolver | DuplicateParameter
    | ColumnsNotArray | ColumnEmpty | DuplicateColumn
    | FilterNotObject | BadLogic | ItemsNotArray | ConditionsNotArray | ItemNotObject | ItemKind | GroupEmpty
    | FieldMissing | OperatorUnknown | ValueMissing | ReferenceUnnamed | ReferenceUnknown | ReferenceInList
    | ReferenceIncompatible | ListExpected | TextExpected
    | SortNotArray | SortNotObject | SortFieldMissing | SortDirection
    | NoSuchColumn | NoSuchField | ParameterUnresolved | OperandRefused | NoSuchSortField
    | OverridesNotObject | OverrideUnknown | Unresolvable(parameter: string) | WrongType

  // ----- Coercion -----

  predicate Integral(x: real) {
    x == x.Floor as real
  }

  function SkipDashes(s: string): string {
    if s != [] && s[0] == '-' then SkipDashes(s[1..]) else s
  }

  function CoerceInteger(v: Value): Result<Value, Fault> {
    match v
    case Int(_) => Ok(v)
    case Float(x) => if Integral(x) then Ok(Int(x.Floor)) else Raised(WrongType)
    case Str(s) =>
      var raw := Strip(s);
      if AllDigits(raw) then Ok(Int(ParseNat(raw)))
      else if AllDigits(SkipDashes(raw)) && raw[1..] == SkipDashes(raw) then Ok(Int(0 - ParseNat(SkipDashes(raw))))
      else Raised(WrongType)
    case _ => Raised(WrongType)
  }

  function CoerceNumber(lib: Library, v: Value): Result<Value, Fault> {
    match v
    case Int(_) => Ok(v)
    case Float(_) => Ok(v)
    case Str(s) =>
      (match lib.parseFloat(Strip(s))
       case None => Raised(WrongType)
       case Some(x) => if Integral(x) then Ok(Int(x.Floor)) else Ok(Float(x)))
    case _ => Raised(WrongType)
  }

  function CoerceBoolean(v: Value): Result<Value, Fault> {
    match v
    case Bool(_) => Ok(v)
    case Int(i) => if i == 0 || i == 1 then Ok(Bool(i == 1)) else Raised(WrongType)
    case Str(s) =>
      var word := Lower(Strip(s));
      if word == "true" || word == "1" || word == "yes" then Ok(Bool(true))
      else if word == "false" || word == "0" || word == "no" then Ok(Bool(false))
      else Raised(WrongType)
    case _ => Raised(WrongType)
  }

  function CoerceDateTime(lib: Library, v: Value): Result<Value, Fault> {
    match v
    case DateTime(_, _) => Ok(v)
    case Date(d) => Ok(DateTime(d, 0))
    case Str(s) =>
      var raw := Strip(s);
      var iso := if EndsWithZ(raw) then raw[..|raw| - 1] + "+00:00" else raw;
      (match lib.parseDateTime(iso)
       case None => Raised(WrongType)
       case Some(moment) => Ok(DateTime(moment.0, moment.1)))
    case _ => Raised(WrongType)
  }

  function CoerceDate(lib: Library, v: Value): Result<Value, Fault> {
    match v
    case DateTime(d, _) => Ok(Date(d))
    case Date(_) => Ok(v)
    case Str(s) =>
      (match lib.parseDate(Strip(s))
       case Some(d) => Ok(Date(d))
       case None =>
         match CoerceDateTime(lib, Str(Strip(s)))
         case Raised(e) => Raised(e)
         case Ok(moment) => if moment.DateTime? then Ok(Date(moment.date)) else Raised(WrongType))
    case _ => Raised(WrongType)
  }

  /** `coerce_value`; null passes for every type. */
  function Coerce(lib: Library, kind: ParamType, v: Value): Result<Value, Fault> {
    if v == Null then Ok(Null)
    else
      match kind
      case TString => Ok(if v.Str? then v else Str(lib.show(v)))
      case TInteger => CoerceInteger(v)
      case TNumber => CoerceNumber(lib, v)
      case TBoolean => CoerceBoolean(v)
      case TDate => CoerceDate(lib, v)
      case TDateTime => CoerceDateTime(lib, v)
  }

  /** The values a parameter of a type can take, null apart. */
  predicate Inhabits(kind: ParamType, v: Value) {
    match kind
    case TString => v.Str?
    case TInteger => v.Int?
    case TNumber => v.Int? || v.Float?
    case TBoolean => v.Bool?
    case TDate => v.Date?
    case TDateTime => v.DateTime?
  }

  lemma {:induction false} CoercedInhabits(lib: Library, kind: ParamType, v: Value)
    ensures Coerce(lib, kind, v).Ok? && v != Null ==> Inhabits(kind, Coerce(lib, kind, v).value)
    ensures Inhabits(kind, v) ==> Coerce(lib, kind, v) == Ok(v)
  {
  }

  /** Defaults are stored as JSON: dates as ISO text. */
  function Serialized(lib: Library, v: Value): Value {
    match v
    case DateTime(d, c) => Str(lib.showDateTime(d, c))
    case Date(d) => Str(lib.showDate(d))
    case _ => v
  }

  /** A stored default reads back as the value it was made from. */
  lemma {:induction false} StoredDefaultReadsBack(lib: Library, kind: ParamType, v: Value)
    requires Lawful(lib) && v != Null && Coerce(lib, kind, v).Ok?
    ensures Serialized(lib, Coerce(lib, kind, v).value) != Null
    ensures Coerce(lib, kind, Serialized(lib, Coerce(lib, kind, v).value)) == Coerce(lib, kind, v)
  {
    CoercedInhabits(lib, kind, v);
    var stored := Serialized(lib, Coerce(lib, kind, v).value);
    if stored.Str? {
      if Trimmed(stored.s) {
        TrimmedStrips(stored.s);
      }
    }
  }

  // ----- Resolution -----

  /** The value a parameter gets: an override under exactly its name, else its default. */
  function ValueFor(lib: Library, p: Param, overrides: map<string, Value>): Result<Value, Fault> {
    var source :=
      if p.name in overrides then overrides[p.name]
      else
        match p.default
        case NoDefault => Null
        case DefaultValue(v) => v
        case DefaultNow => DateTime(lib.now.0, lib.now.1)
        case DefaultToday => Date(lib.today);
    match Coerce(lib, p.kind, source)
    case Raised(_) => Raised(Unresolvable(p.name))
    case Ok(v) => Ok(v)
  }

  function Names(params: seq<Param>): seq<string> {
    seq(|params|, i requires 0 <= i < |params| => params[i].name)
  }

  predicate DistinctNames(params: seq<Param>) {
    forall i, j | 0 <= i < j < |params| :: params[i].name != params[j].name
  }

  /** An environment gives each parameter its value. */
  ghost predicate Provides(lib: Library, params: seq<Param>, overrides: map<string, Value>, env: map<string, Value>) {
    && (forall name :: name in env <==> name in Names(params))
    && forall i | 0 <= i < |params| :: params[i].name in env && ValueFor(lib, params[i], overrides) == Ok(env[params[i].name])
  }

  /** The overrides `resolve` accepts: an object, or nothing. */
  function OverridesOf(explicit: Value): Option<map<string, Value>> {
    match explicit
    case Null => Some(map[])
    case Dict(entries) => Some(entries)
    case _ => None
  }

  /** Why resolution fails, if it does. Without parameters nothing is looked at. */
  function ResolveFault(lib: Library, params: seq<Param>, explicit: Value): Option<Fault> {
    if params == [] then None
    else if OverridesOf(explicit).None? then Some(OverridesNotObject)
    else if exists key | key in OverridesOf(explicit).value :: Strip(key) !in Names(params) then Some(OverrideUnknown)
    else FirstUnresolvable(lib, params, OverridesOf(explicit).value)
  }

  function FirstUnresolvable(lib: Library, params: seq<Param>, overrides: map<string, Value>): Option<Fault> {
    if params == [] then None
    else
      match ValueFor(lib, params[0], overrides)
      case Raised(e) => Some(e)
      case Ok(_) => FirstUnresolvable(lib, params[1..], overrides)
  }

  /** `resolve`, for the parameters of a normalized perimeter. */
  method Resolve(lib: Library, params: seq<Param>, explicit: Value) returns (r: Result<map<string, Value>, Fault>)
    requires DistinctNames(params)
    ensures match ResolveFault(lib, params, explicit)
            case Some(e) => r == Raised(e)
            case None => r.Ok? && Provides(lib, params, if params == [] then map[] else OverridesOf(explicit).value, r.value)
  {
    var resolved: map<string, Value> := map[];
    if params == [] {
      return Ok(resolved);
    }
    if OverridesOf(explicit).None? {
      return Raised(OverridesNotObject);
    }
    var overrides := OverridesOf(explicit).value;
    if exists key | key in overrides :: Strip(key) !in Names(params) {
      return Raised(OverrideUnknown);
    }
    assert params[0..] == params;
    for i := 0 to |params|
      invariant Provides(lib, params[..i], overrides, resolved)
      invariant FirstUnresolvable(lib, params[i..], overrides) == FirstUnresolvable(lib, params, overrides)
    {
      assert params[i..][0] == params[i] && params[i..][1..] == params[i + 1..];
      var value := ValueFor(lib, params[i], overrides);
      if value.Raised? {
        return Raised(value.error);
      }
      ProvidesGrows(lib, params, i, overrides, resolved);
      resolved := resolved[params[i].name := value.value];
    }
    assert params[..|params|] == params;
    return Ok(resolved);
  }

  lemma {:induction false} ProvidesGrows(
    lib: Library, params: seq<Param>, i: nat, overrides: map<string, Value>, env: map<string, Value>)
    requires i < |params| && DistinctNames(params) && Provides(lib, params[..i], overrides, env)
    requires ValueFor(lib, params[i], overrides).Ok?
    ensures Provides(lib, params[..i + 1], overrides, env[params[i].name := ValueFor(lib, params[i], overrides).value])
  {
    assert Names(params[..i + 1]) == Names(params[..i]) + [params[i].name];
    forall j | 0 <= j < i ensures params[j].name in env && ValueFor(lib, params[j], overrides) == Ok(env[params[j].name]) {
      assert params[..i][j] == params[j];
    }
  }

  /** Resolution succeeds exactly when every override names a parameter, outer blanks apart, and
      every parameter's own value can be coerced. */
  lemma {:induction false} ResolvesExactly(lib: Library, params: seq<Param>, explicit: Value)
    requires params != []
    ensures ResolveFault(lib, params, explicit).None? <==>
              && OverridesOf(explicit).Some?
              && (forall key | key in OverridesOf(explicit).value :: Strip(key) in Names(params))
              && (forall i | 0 <= i < |params| :: ValueFor(lib, params[i], OverridesOf(explicit).value).Ok?)
  {
    if OverridesOf(explicit).Some? {
      UnresolvableExactly(lib, params, OverridesOf(explicit).value);
    }
  }

  lemma {:induction false} UnresolvableExactly(lib: Library, params: seq<Param>, overrides: map<string, Value>)
    ensures FirstUnresolvable(lib, params, overrides).None? <==>
              forall i | 0 <= i < |params| :: ValueFor(lib, params[i], overrides).Ok?
    decreases |params|
  {
    if params != [] {
      UnresolvableExactly(lib, params[1..], overrides);
      assert forall i | 0 < i < |params| :: params[i] == params[1..][i - 1];
    }
  }

  // ----- Which overrides count -----

  /** A normalized perimeter has stripped its names. */
  predicate TrimmedNames(params: seq<Param>) {
    forall i | 0 <= i < |params| :: Trimmed(params[i].name)
  }

  /** Every override names a parameter, outer blanks apart. */
  predicate OverridesKnown(params: seq<Param>, overrides: map<string, Value>) {
    forall key | key in overrides :: Strip(key) in Names(params)
  }

  /** Giving the key some other value would change what some parameter gets. */
  ghost predicate TakesEffect(lib: Library, params: seq<Param>, overrides: map<string, Value>, key: string) {
    exists i, v | 0 <= i < |params| :: Changes(lib, params[i], overrides, key, v)
  }

  predicate Changes(lib: Library, p: Param, overrides: map<string, Value>, key: string, v: Value) {
    ValueFor(lib, p, overrides[key := v]) != ValueFor(lib, p, overrides)
  }

  function SomeValue(kind: ParamType): (v: Value)
    ensures Inhabits(kind, v) && v != Null
  {
    match kind
    case TString => Str("")
    case TInteger => Int(0)
    case TNumber => Int(0)
    case TBoolean => Bool(false)
    case TDate => Date(0)
    case TDateTime => DateTime(0, 0)
  }

  /** An override takes effect exactly when its key is the name of a parameter, letter for letter. */
  lemma {:induction false} TakesEffectExactly(
    lib: Library, params: seq<Param>, overrides: map<string, Value>, key: string)
    ensures TakesEffect(lib, params, overrides, key) <==> key in Names(params)
  {
    if key in Names(params) {
      var i :| 0 <= i < |Names(params)| && Names(params)[i] == key;
      var p, other := params[i], SomeValue(params[i].kind);
      CoercedInhabits(lib, p.kind, other);
      assert ValueFor(lib, p, overrides[key := Null]) == Ok(Null);
      assert ValueFor(lib, p, overrides[key := other]) == Ok(other);
      assert Changes(lib, params[i], overrides, key, Null) || Changes(lib, params[i], overrides, key, other);
    } else {
      forall i, v | 0 <= i < |params| ensures !Changes(lib, params[i], overrides, key, v) {
        assert Names(params)[i] == params[i].name;
      }
    }
  }

  /** Accepted overrides all take effect exactly when none of their keys is padded with blanks. */
  lemma {:induction false} OverridesTakeEffectExactly(lib: Library, params: seq<Param>, overrides: map<string, Value>)
    requires TrimmedNames(params) && DistinctNames(params) && OverridesKnown(params, overrides)
    ensures (forall key | key in overrides :: TakesEffect(lib, params, overrides, key))
            <==> (forall key | key in overrides :: Strip(key) == key)
  {
    forall key | key in overrides ensures TakesEffect(lib, params, overrides, key) <==> Strip(key) == key {
      TakesEffectExactly(lib, params, overrides, key);
      if key in Names(params) {
        var i :| 0 <= i < |Names(params)| && Names(params)[i] == key;
        assert key == params[i].name;
        TrimmedStrips(key);
      }
    }
  }

  /** The overrides under exactly the name of a parameter. */
  function ExactlyNamed(params: seq<Param>, overrides: map<string, Value>): map<string, Value> {
    map key | key in overrides && key in Names(params) :: overrides[key]
  }

  /** Resolving with accepted overrides is resolving with those under exact names only: the same
      fault, or the same environment. */
  lemma {:induction false} OnlyExactNamesCount(
    lib: Library, params: seq<Param>, overrides: map<string, Value>, env: map<string, Value>)
    requires TrimmedNames(params) && OverridesKnown(params, overrides)
    ensures OverridesKnown(params, ExactlyNamed(params, overrides))
    ensures ResolveFault(lib, params, Dict(overrides)) == ResolveFault(lib, params, Dict(ExactlyNamed(params, overrides)))
    ensures Provides(lib, params, overrides, env) <==> Provides(lib, params, ExactlyNamed(params, overrides), env)
  {
    var exact := ExactlyNamed(params, overrides);
    forall i | 0 <= i < |params| ensures ValueFor(lib, params[i], overrides) == ValueFor(lib, params[i], exact) {
      assert Names(params)[i] == params[i].name;
    }
    SameValuesSameFault(lib, params, overrides, exact);
  }

  lemma {:induction false} SameValuesSameFault(
    lib: Library, params: seq<Param>, a: map<string, Value>, b: map<string, Value>)
    requires forall i | 0 <= i < |params| :: ValueFor(lib, params[i], a) == ValueFor(lib, params[i], b)
    ensures FirstUnresolvable(lib, params, a) == FirstUnresolvable(lib, params, b)
    decreases |params|
  {
    if params != [] {
      assert forall i | 0 <= i < |params[1..]| :: params[1..][i] == params[i + 1];
      SameValuesSameFault(lib, params[1..], a, b);
    }
  }

  /** An override whose name is padded with blanks is accepted beside any others, and whatever its
      value it changes neither the fault nor any parameter's value. */
  lemma {:induction false} PaddedOverrideIgnored(
    lib: Library, params: seq<Param>, overrides: map<string, Value>, padded: string, v: Value, i: nat)
    requires TrimmedNames(params) && OverridesKnown(params, overrides) && padded !in overrides
    requires Strip(padded) in Names(params) && Strip(padded) != padded && i < |params|
    ensures OverridesKnown(params, overrides[padded := v])
    ensures ResolveFault(lib, params, Dict(overrides[padded := v])) == ResolveFault(lib, params, Dict(overrides))
    ensures ValueFor(lib, params[i], overrides[padded := v]) == ValueFor(lib, params[i], overrides)
  {
    forall j | 0 <= j < |params|
      ensures ValueFor(lib, params[j], overrides[padded := v]) == ValueFor(lib, params[j], overrides)
    {
      TrimmedStrips(params[j].name);
    }
    SameValuesSameFault(lib, params, overrides[padded := v], overrides);
  }

  /** Every resolved value is null or of the declared type. */
  lemma {:induction false} ResolvedAreTyped(
    lib: Library, params: seq<Param>, overrides: map<string, Value>, env: map<string, Value>, i: nat)
    requires Provides(lib, params, overrides, env) && i < |params|
    ensures params[i].name in env
    ensures env[params[i].name] == Null || Inhabits(params[i].kind, env[params[i].name])
  {
    forall v | Coerce(lib, params[i].kind, v).Ok? && v != Null
      ensures Inhabits(params[i].kind, Coerce(lib, params[i].kind, v).value)
    {
      CoercedInhabits(lib, params[i].kind, v);
    }
  }
}
