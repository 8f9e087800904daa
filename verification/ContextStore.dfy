/** The path-addressed store of a run context (run_context.py, run_context_resolver.py): nested
    assignment and removal by textual tokens, lookup by the reader's steps, and the two built-in
    aliases `global.runEnvelope` and `local.global`. */
module ContextStore {
  import opened Prelude
  import opened PyText
  import opened PyValues
  import opened PathTokens

  /** The four scope dicts. An alias is a `Shared` entry. */
  datatype Scopes = Scopes(
    runEnvelope: map<string, Value>,
    global: map<string, Value>,
    local: map<string, Value>,
    results: map<string, Value>)
  {
    function Get(c: ConstantContext): map<string, Value> {
      match c
      case RunEnvelope => runEnvelope
      case Global => global
      case Local => local
      case Results => results
    }

    function Set(c: ConstantContext, m: map<string, Value>): Scopes {
      match c
      case RunEnvelope => this.(runEnvelope := m)
      case Global => this.(global := m)
      case Local => this.(local := m)
      case Results => this.(results := m)
    }
  }

  /** A new state, and whether the operation completed rather than raised. */
  datatype Written = Written(scopes: Scopes, completed: bool)

  /** Which kind of suite item is running; tests are guarded. */
  datatype ItemKind = TestItem | HookItem

  // ----- Nested assignment and removal -----

  /** `_to_index`. */
  function ToIndex(token: string): Option<nat> {
    if AllDigits(Strip(token)) then Some(ParseNat(Strip(token))) else None
  }

  /** `_ensure_list_size`: pads with empty objects until `idx` is an index. */
  function EnsureListSize(items: seq<Value>, idx: nat): (r: seq<Value>)
    ensures |r| > idx && |r| >= |items| && r[..|items|] == items
    decreases idx + 1 - |items|
  {
    if |items| > idx then items else EnsureListSize(items + [Dict(map[])], idx)
  }

  /** The container a missing intermediate step is given. */
  function FreshContainer(nextToken: string): Value {
    if ToIndex(nextToken).Some? then List([]) else Dict(map[])
  }

  /** `_assign_nested_value` on one tree: the tree afterwards, and whether the assignment was
      reached. A failed assignment keeps what it had created on the way. */
  function AssignNested(current: Value, tokens: seq<string>, value: Value): (Value, bool)
    requires tokens != []
    decreases |tokens|
  {
    var token, last := tokens[0], |tokens| == 1;
    match ToIndex(token)
    case Some(i) =>
      if !current.List? then (current, false)
      else
        var items := EnsureListSize(current.items, i);
        if last then (List(items[i := value]), true)
        else
          var next := if items[i] == Null then FreshContainer(tokens[1]) else items[i];
          var (r, ok) := AssignNested(next, tokens[1..], value);
          (List(items[i := r]), ok)
    case None =>
      if !current.Dict? then (current, false)
      else if last then (Dict(current.entries[token := value]), true)
      else
        var next := if token in current.entries && current.entries[token] != Null
                    then current.entries[token] else FreshContainer(tokens[1]);
        var (r, ok) := AssignNested(next, tokens[1..], value);
        (Dict(current.entries[token := r]), ok)
  }

  /** `_remove_nested_value` on one tree; a path that leads nowhere changes nothing. */
  function RemoveNested(current: Value, tokens: seq<string>): Value
    requires tokens != []
    decreases |tokens|
  {
    var token, last := tokens[0], |tokens| == 1;
    match ToIndex(token)
    case Some(i) =>
      if !current.List? || i >= |current.items| then current
      else if last then List(current.items[..i] + current.items[i + 1..])
      else List(current.items[i := RemoveNested(current.items[i], tokens[1..])])
    case None =>
      if !current.Dict? || token !in current.entries then current
      else if last then Dict(current.entries - {token})
      else Dict(current.entries[token := RemoveNested(current.entries[token], tokens[1..])])
  }

  /** Does the first token lead through an alias into another scope dict? */
  predicate ThroughAlias(s: Scopes, c: ConstantContext, tokens: seq<string>) {
    |tokens| > 1 && ToIndex(tokens[0]).None? && tokens[0] in s.Get(c) && s.Get(c)[tokens[0]].Shared?
  }

  /** `_assign_nested_value` started at a scope dict. */
  function AssignIn(s: Scopes, c: ConstantContext, tokens: seq<string>, value: Value): Written
    requires tokens != []
    decreases |tokens|
  {
    if ThroughAlias(s, c, tokens) then AssignIn(s, s.Get(c)[tokens[0]].scope, tokens[1..], value)
    else
      var (r, ok) := AssignNested(Dict(s.Get(c)), tokens, value);
      Written(if r.Dict? then s.Set(c, r.entries) else s, ok)
  }

  /** `_remove_nested_value` started at a scope dict. */
  function RemoveIn(s: Scopes, c: ConstantContext, tokens: seq<string>): Scopes
    requires tokens != []
    decreases |tokens|
  {
    if ThroughAlias(s, c, tokens) then RemoveIn(s, s.Get(c)[tokens[0]].scope, tokens[1..])
    else
      var r := RemoveNested(Dict(s.Get(c)), tokens);
      if r.Dict? then s.Set(c, r.entries) else s
  }

  // ----- write_context_path and remove_context_path -----

  /** Where a path's root token leads: a scope dict, or `result.commands` for `response`. */
  datatype Target = ScopeTarget(context: ConstantContext) | CommandsTarget

  function RootNamed(root: string): Option<Target> {
    if root == "vars" then Some(ScopeTarget(Global))
    else if root == "response" then Some(CommandsTarget)
    else if root == "runEnvelope" then Some(ScopeTarget(RunEnvelope))
    else if root == "global" then Some(ScopeTarget(Global))
    else if root == "local" then Some(ScopeTarget(Local))
    else if root == "result" then Some(ScopeTarget(Results))
    else None
  }

  /** `extract_context_root` on parsed tokens. */
  function RootOf(tokens: seq<string>): Option<Target> {
    if tokens == [] then None else RootNamed(Strip(tokens[0]))
  }

  const RESERVED := {"constants", "event", "run_id", "runEnvelope", "global"}

  /** The tokens below the root, with `constants` inserted where the writer assumes it. */
  function TargetTokens(target: Target, tokens: seq<string>): seq<string>
    requires tokens != []
  {
    var rest := tokens[1..];
    if target.ScopeTarget? && !target.context.Results? && rest != [] && rest[0] !in RESERVED
    then ["constants"] + rest else rest
  }

  /** Tests may write neither the global scope nor the run envelope. */
  predicate Guarded(kind: ItemKind, target: Target) {
    kind.TestItem? && target.ScopeTarget? && (target.context.Global? || target.context.RunEnvelope?)
  }

  /** The response target is `result.commands`, created when it is not an object. */
  function EnsureCommands(s: Scopes): Scopes {
    if "commands" in s.results && s.results["commands"].Dict? then s
    else s.(results := s.results["commands" := Dict(map[])])
  }

  /** The write once the target and the tokens below it are known. */
  function WriteAt(s: Scopes, target: Target, rest: seq<string>, value: Value): Written {
    match target
    case ScopeTarget(c) =>
      if rest != [] then AssignIn(s, c, rest, value)
      else if value.Dict? then Written(s.Set(c, value.entries), true)
      else Written(s, false)
    case CommandsTarget =>
      var s := EnsureCommands(s);
      if rest != [] then AssignIn(s, Results, ["commands"] + rest, value)
      else if value.Dict? then Written(s.(results := s.results["commands" := value]), true)
      else Written(s, false)
  }

  function RemoveAt(s: Scopes, target: Target, rest: seq<string>): Scopes {
    match target
    case ScopeTarget(c) => if rest == [] then s else RemoveIn(s, c, rest)
    case CommandsTarget =>
      var s := EnsureCommands(s);
      if rest == [] then s else RemoveIn(s, Results, ["commands"] + rest)
  }

  function WriteTokens(s: Scopes, kind: ItemKind, tokens: seq<string>, value: Value): Written {
    match RootOf(tokens)
    case None => Written(s, false)
    case Some(target) =>
      if Guarded(kind, target) then Written(s, false)
      else WriteAt(s, target, TargetTokens(target, tokens), value)
  }

  function RemoveTokens(s: Scopes, kind: ItemKind, tokens: seq<string>): Written {
    match RootOf(tokens)
    case None => Written(s, true)
    case Some(target) =>
      if Guarded(kind, target) then Written(s, false)
      else Written(RemoveAt(s, target, TargetTokens(target, tokens)), true)
  }

  /** `write_context_path`. */
  function WritePath(s: Scopes, kind: ItemKind, path: string, value: Value): Written {
    match WriterTokens(path)
    case None => Written(s, false)
    case Some(tokens) => WriteTokens(s, kind, tokens, value)
  }

  /** `remove_context_path`. */
  function RemovePath(s: Scopes, kind: ItemKind, path: string): Written {
    match WriterTokens(path)
    case None => Written(s, false)
    case Some(tokens) => RemoveTokens(s, kind, tokens)
  }

  // ----- Lookup -----

  function DictAt(m: map<string, Value>, key: string): Value {
    if key in m && m[key].Dict? then m[key] else Dict(map[])
  }

  /** `build_run_context_scope`: what references are resolved against. */
  function ScopeRoot(s: Scopes): Value {
    Dict(map[
      "runEnvelope" := Shared(RunEnvelope),
      "global" := Shared(Global),
      "local" := Shared(Local),
      "result" := Shared(Results),
      "vars" := DictAt(s.global, "constants"),
      "response" := DictAt(s.results, "commands")])
  }

  /** The object a reference stands for. */
  function Deref(s: Scopes, v: Value): Value {
    if v.Shared? then Dict(s.Get(v.scope)) else v
  }

  function Child(v: Value, step: Step): Option<Value> {
    match step
    case Name(n) => if v.Dict? && n in v.entries then Some(v.entries[n]) else None
    case Index(i) => if v.List? && i < |v.items| then Some(v.items[i]) else None
  }

  /** Follows steps through objects, lists and aliases; None where the reader reports a miss. */
  function Walk(s: Scopes, current: Value, steps: seq<Step>): Option<Value>
    decreases |steps|
  {
    if steps == [] then Some(current)
    else
      match Child(Deref(s, current), steps[0])
      case None => None
      case Some(next) => Walk(s, next, steps[1..])
  }

  datatype Lookup = Invalid | Missing | Found(value: Value)

  function WalkParts(s: Scopes, current: Value, parts: seq<string>): Lookup
    decreases |parts|
  {
    if parts == [] then Found(current)
    else
      match ReaderSegmentTokens(parts[0])
      case None => Invalid
      case Some(steps) =>
        match Walk(s, current, steps)
        case None => Missing
        case Some(next) => WalkParts(s, next, parts[1..])
  }

  /** `_resolve_ref` against the scope of this context. */
  function ResolveRef(s: Scopes, expression: string): Lookup {
    var ref := Strip(expression);
    if ref == "$" then Found(ScopeRoot(s))
    else if !("$." <= ref) then Invalid
    else WalkParts(s, ScopeRoot(s), ReaderParts(ref[2..]))
  }

  lemma {:induction false} WalkAppend(s: Scopes, current: Value, a: seq<Step>, b: seq<Step>)
    ensures Walk(s, current, a + b) ==
            match Walk(s, current, a)
            case None => None
            case Some(next) => Walk(s, next, b)
    decreases |a|
  {
    if a == [] {
      assert a + b == b;
    } else {
      assert (a + b)[1..] == a[1..] + b;
      match Child(Deref(s, current), a[0])
      case None =>
      case Some(next) => WalkAppend(s, next, a[1..], b);
    }
  }

  lemma {:induction false} WalkPartsIsWalk(s: Scopes, current: Value, parts: seq<string>)
    requires ConcatMapReader(parts).Some?
    ensures WalkParts(s, current, parts) ==
            match Walk(s, current, ConcatMapReader(parts).value)
            case None => Missing
            case Some(v) => Found(v)
    decreases |parts|
  {
    if parts != [] {
      var steps := ReaderSegmentTokens(parts[0]).value;
      WalkAppend(s, current, steps, ConcatMapReader(parts[1..]).value);
      match Walk(s, current, steps)
      case None =>
      case Some(next) => WalkPartsIsWalk(s, next, parts[1..]);
    }
  }

  /** Resolving a printed canonical path walks its steps. */
  lemma {:induction false} ResolvePrinted(s: Scopes, path: seq<Segment>)
    requires Canonical(path)
    ensures ResolveRef(s, ShowPath(path)) ==
            match Walk(s, ScopeRoot(s), Steps(path))
            case None => Missing
            case Some(v) => Found(v)
  {
    ShowPathTrimmed(path);
    ReaderInvertsPrinter(path);
    WalkPartsIsWalk(s, ScopeRoot(s), ReaderParts(ShowSegments(path)));
  }
}
