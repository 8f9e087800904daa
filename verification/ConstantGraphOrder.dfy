/** Planning does not depend on the order in which commands arrive nor on their ids, as long as
    their orders are explicit and distinct; with equal orders it does. */
module ConstantGraphOrder {
  import opened Prelude
  import opened PyValues
  import opened ConstantGraph
  import opened ConstantGraphLaws

  /** The same commands in the same places, whatever their ids. */
  predicate SameButIds(a: seq<Command>, b: seq<Command>) {
    |a| == |b| && forall i | 0 <= i < |a| :: Key(a[i]) == Key(b[i])
  }

  /** Equal up to the copied command id. */
  predicate Alike(d: PlannedDefinition, e: PlannedDefinition) {
    d == e.(commandId := d.commandId)
  }

  predicate AlikeAll(a: Definitions, b: Definitions) {
    a.Keys == b.Keys && forall id | id in a :: Alike(a[id], b[id])
  }

  predicate AlikeList(a: seq<PlannedDefinition>, b: seq<PlannedDefinition>) {
    |a| == |b| && forall i | 0 <= i < |a| :: Alike(a[i], b[i])
  }

  predicate Distinct(orders: seq<int>) {
    forall i, j | 0 <= i < j < |orders| :: orders[i] != orders[j]
  }

  predicate DistinctOrders(commands: seq<Command>) {
    forall i, j | 0 <= i < j < |commands| :: commands[i].order != commands[j].order
  }

  lemma {:induction false} KeyIn(commands: seq<Command>, key: (int, Cfg)) returns (i: nat)
    requires key in multiset(Keys(commands))
    ensures i < |commands| && Key(commands[i]) == key
  {
    assert key in Keys(commands);
    i :| i < |Keys(commands)| && Keys(commands)[i] == key;
  }

  lemma {:induction false} SameHead(a: seq<Command>, b: seq<Command>)
    requires a != [] && b != [] && InOrder(a) && InOrder(b) && DistinctOrders(a)
    requires multiset(Keys(a)) == multiset(Keys(b))
    ensures Key(a[0]) == Key(b[0])
  {
    assert Keys(a)[0] in multiset(Keys(a)) && Keys(b)[0] in multiset(Keys(b));
    var i := KeyIn(b, Key(a[0]));
    var j := KeyIn(a, Key(b[0]));
    assert b[0].order <= b[i].order && a[0].order <= a[j].order;
    assert j == 0;
  }

  lemma {:induction false} KeysOfTail(a: seq<Command>)
    requires a != []
    ensures multiset(Keys(a)) == multiset{Key(a[0])} + multiset(Keys(a[1..]))
  {
    assert Keys(a) == [Key(a[0])] + Keys(a[1..]);
  }

  /** Two ascending arrangements of the same commands with strictly ascending orders coincide. */
  lemma {:induction false} ArrangementUnique(a: seq<Command>, b: seq<Command>)
    requires InOrder(a) && InOrder(b) && DistinctOrders(a)
    requires multiset(Keys(a)) == multiset(Keys(b))
    ensures SameButIds(a, b)
    decreases |a|
  {
    assert |Keys(a)| == |multiset(Keys(a))| == |multiset(Keys(b))| == |Keys(b)|;
    if a != [] {
      SameHead(a, b);
      KeysOfTail(a);
      KeysOfTail(b);
      assert multiset(Keys(a[1..])) == multiset(Keys(a)) - multiset{Key(a[0])} == multiset(Keys(b[1..]));
      ArrangementUnique(a[1..], b[1..]);
      SameFromTail(a, b);
    }
  }

  lemma {:induction false} SameFromTail(a: seq<Command>, b: seq<Command>)
    requires a != [] && |a| == |b| && Key(a[0]) == Key(b[0]) && SameButIds(a[1..], b[1..])
    ensures SameButIds(a, b)
  {
    forall i | 0 < i < |a| ensures Key(a[i]) == Key(b[i]) {
      assert a[i] == a[1..][i - 1] && b[i] == b[1..][i - 1];
    }
  }

  lemma {:induction false} RefErrorAlike(
    c: Command, d: Command, section: Section, a: Definitions, b: Definitions, refs: seq<string>)
    requires Key(c) == Key(d) && AlikeAll(a, b)
    ensures RefError(c, section, a, refs) == RefError(d, section, b, refs)
    decreases |refs|
  {
    if refs != [] {
      assert refs[0] in a <==> refs[0] in b;
      RefErrorAlike(c, d, section, a, b, refs[1..]);
    }
  }

  lemma {:induction false} NameTakenAlike(
    a: Definitions, b: Definitions, d: PlannedDefinition, e: PlannedDefinition, order: int)
    requires AlikeAll(a, b) && Alike(d, e) && NameTaken(a, d, order)
    ensures NameTaken(b, e, order)
  {
    var id :| id in a && Active(a[id], ALL_CONTEXTS, order + 1) && a[id].name == d.name && a[id].context == d.context;
    assert id in b && Active(b[id], ALL_CONTEXTS, order + 1);
  }

  lemma {:induction false} DeclaredAlike(c: Command, d: Command, section: Section)
    requires Key(c) == Key(d)
    ensures AlikeList(Declarations(c, section), Declarations(d, section))
    ensures c.cfg.DeleteConstant? <==> d.cfg.DeleteConstant?
  {
  }

  lemma {:induction false} StepCorresponds(c: Command, d: Command, section: Section, a: Definitions, b: Definitions)
    requires Key(c) == Key(d) && AlikeAll(a, b)
    ensures CommandError(c, section, a) == CommandError(d, section, b)
    ensures AlikeAll(Updated(c, section, a), Updated(d, section, b))
  {
    RefErrorAlike(c, d, section, a, b, Refs(c.cfg));
    DeclaredAlike(c, d, section);
    if Declarations(c, section) != [] {
      var x, y := Declarations(c, section)[0], Declarations(d, section)[0];
      if NameTaken(a, x, c.order) {
        NameTakenAlike(a, b, x, y, c.order);
      }
      if NameTaken(b, y, c.order) {
        NameTakenAlike(b, a, y, x, c.order);
      }
    }
  }

  /** The same verdict, and the same map up to the copied ids. */
  predicate AlikeVerdict(p: Result<Definitions, PlanError>, q: Result<Definitions, PlanError>) {
    match p
    case Ok(defs) => q.Ok? && AlikeAll(defs, q.value)
    case Raised(e) => q == Raised(e)
  }

  /** Planning the same commands under other ids gives the same verdict and the same map. */
  lemma {:induction false} PlanAlike(c: seq<Command>, d: seq<Command>, section: Section, a: Definitions, b: Definitions)
    requires SameButIds(c, d) && AlikeAll(a, b)
    ensures AlikeVerdict(PlanFrom(c, section, a), PlanFrom(d, section, b))
    decreases |c|
  {
    if c != [] {
      assert Key(c[0]) == Key(d[0]) && SameButIds(c[1..], d[1..]);
      StepCorresponds(c[0], d[0], section, a, b);
      if CommandError(c[0], section, a).None? {
        PlanAlike(c[1..], d[1..], section, Updated(c[0], section, a), Updated(d[0], section, b));
      }
    }
  }

  lemma {:induction false} AlikeJoin(
    a: seq<PlannedDefinition>, b: seq<PlannedDefinition>, c: seq<PlannedDefinition>, d: seq<PlannedDefinition>)
    requires AlikeList(a, b) && AlikeList(c, d)
    ensures AlikeList(a + c, b + d)
  {
  }

  lemma {:induction false} DeclarationsAlike(c: seq<Command>, d: seq<Command>, section: Section)
    requires SameButIds(c, d)
    ensures AlikeList(AllDeclarations(c, section), AllDeclarations(d, section))
    decreases |c|
  {
    if c != [] {
      assert SameButIds(c[1..], d[1..]);
      DeclarationsAlike(c[1..], d[1..], section);
      assert Key(c[0]) == Key(d[0]);
      DeclaredAlike(c[0], d[0], section);
      AlikeJoin(Declarations(c[0], section), Declarations(d[0], section),
                AllDeclarations(c[1..], section), AllDeclarations(d[1..], section));
    }
  }

  /** A raw command with an order of its own. */
  predicate Explicit(raw: seq<RawCommand>) {
    forall i | 0 <= i < |raw| :: raw[i].order.Some? && raw[i].order.value != 0
  }

  /** Plans with the same verdict, map and list, up to the copied command ids. */
  predicate PlannedAlike(p: Result<Planned, PlanError>, q: Result<Planned, PlanError>) {
    match p
    case Ok(x) => q.Ok? && AlikeAll(x.visible, q.value.visible) && AlikeList(x.declared, q.value.declared)
    case Raised(e) => q == Raised(e)
  }

  lemma {:induction false} SchedulesPlanAlike(
    raw: seq<RawCommand>, other: seq<RawCommand>, section: Section, a: Definitions, b: Definitions)
    requires SameButIds(Schedule(raw), Schedule(other)) && AlikeAll(a, b)
    ensures PlannedAlike(Plan(raw, section, a), Plan(other, section, b))
  {
    PlanAlike(Schedule(raw), Schedule(other), section, CarryOver(a), CarryOver(b));
    DeclarationsAlike(Schedule(raw), Schedule(other), section);
  }

  /** The other list holds the same commands, in any arrangement and under any ids. */
  predicate Rearranged(raw: seq<RawCommand>, other: seq<RawCommand>) {
    Explicit(raw) && Explicit(other) && multiset(Keys(CommandInputs(raw))) == multiset(Keys(CommandInputs(other)))
  }

  function OrdersOf(raw: seq<RawCommand>): seq<int>
    requires Explicit(raw)
  {
    seq(|raw|, i requires 0 <= i < |raw| => raw[i].order.value)
  }

  /** For explicit, pairwise distinct orders, every rearrangement of the commands under any ids is
      planned with the same verdict and the same definitions, up to the copied command ids, from
      maps that are the same up to such ids. */
  lemma {:induction false} OrderIndependence(
    raw: seq<RawCommand>, other: seq<RawCommand>, section: Section, a: Definitions, b: Definitions)
    requires Rearranged(raw, other) && Distinct(OrdersOf(raw)) && AlikeAll(a, b)
    ensures PlannedAlike(Plan(raw, section, a), Plan(other, section, b))
  {
    SchedulesAlike(raw, other);
    SchedulesPlanAlike(raw, other, section, a, b);
  }

  lemma {:induction false} SchedulesAlike(raw: seq<RawCommand>, other: seq<RawCommand>)
    requires Rearranged(raw, other) && Distinct(OrdersOf(raw))
    ensures SameButIds(Schedule(raw), Schedule(other))
  {
    forall i, j | 0 <= i < j < |raw| ensures CommandInputs(raw)[i].order != CommandInputs(raw)[j].order {
      assert OrdersOf(raw)[i] != OrdersOf(raw)[j];
    }
    SortedAlike(CommandInputs(raw), CommandInputs(other));
  }

  /** Sorting rearranged commands with distinct orders gives the same list, up to the ids. */
  lemma {:induction false} SortedAlike(a: seq<Command>, b: seq<Command>)
    requires DistinctOrders(a) && multiset(Keys(a)) == multiset(Keys(b))
    ensures SameButIds(Sorted(a), Sorted(b))
  {
    SortedSorts(a);
    SortedSorts(b);
    DistinctStaysDistinct(a, Sorted(a));
    ArrangementUnique(Sorted(a), Sorted(b));
  }

  /** A permutation of commands with distinct orders has distinct orders. */
  lemma {:induction false} DistinctStaysDistinct(a: seq<Command>, b: seq<Command>)
    requires DistinctOrders(a) && multiset(a) == multiset(b)
    ensures DistinctOrders(b)
  {
    forall i, j | 0 <= i < j < |b| ensures b[i].order != b[j].order {
      if b[i].order == b[j].order {
        assert b[i] in multiset(b) && b[j] in multiset(b);
        assert b[i] in a && b[j] in a;
        assert b[i] == b[j];
        TwiceMeansTwice(b, i, j);
        OnceMeansOnce(a, b[i]);
      }
    }
  }

  lemma {:induction false} TwiceMeansTwice(b: seq<Command>, i: nat, j: nat)
    requires i < j < |b| && b[i] == b[j]
    ensures multiset(b)[b[i]] >= 2
  {
    assert b == b[..i] + [b[i]] + b[i + 1..j] + [b[j]] + b[j + 1..];
  }

  lemma {:induction false} OnceMeansOnce(a: seq<Command>, c: Command)
    requires DistinctOrders(a) && c in a
    ensures multiset(a)[c] == 1
  {
    var k :| 0 <= k < |a| && a[k] == c;
    assert a == a[..k] + [a[k]] + a[k + 1..];
    assert c !in a[..k] && c !in a[k + 1..];
  }

  // ----- Equal orders -----

  lemma {:induction false} TextLessChains(a: string, b: string, c: string)
    requires TextLess(a, b) && TextLess(b, c)
    ensures TextLess(a, c)
    decreases |a|
  {
    if a != [] && a[0] == b[0] == c[0] {
      TextLessChains(a[1..], b[1..], c[1..]);
    }
  }

  lemma {:induction false} BeforeChains(a: Command, b: Command, c: Command)
    requires Before(a, b) && Before(b, c)
    ensures Before(a, c)
  {
    if a.order == b.order == c.order {
      TextLessChains(a.id, b.id, c.id);
    }
  }

  /** No command comes before one in front of it. */
  predicate Arrayed(commands: seq<Command>) {
    forall i, j | 0 <= i < j < |commands| :: !Before(commands[j], commands[i])
  }

  lemma {:induction false} InsertArrays(command: Command, sorted: seq<Command>)
    requires Arrayed(sorted)
    ensures Arrayed(Insert(command, sorted))
    decreases |sorted|
  {
    if sorted != [] {
      if Before(command, sorted[0]) {
        forall j | 0 <= j < |sorted| ensures !Before(sorted[j], command) {
          if Before(sorted[j], command) {
            BeforeChains(sorted[j], command, sorted[0]);
            BeforeIrreflexive(sorted[0]);
          }
        }
      } else {
        var rest := Insert(command, sorted[1..]);
        InsertArrays(command, sorted[1..]);
        InsertPermutes(command, sorted[1..]);
        forall j | 0 <= j < |rest| ensures !Before(rest[j], sorted[0]) {
          assert rest[j] in multiset(rest);
          assert rest[j] == command || rest[j] in sorted[1..];
        }
      }
    }
  }

  lemma {:induction false} BeforeIrreflexive(c: Command)
    ensures !Before(c, c)
  {
    TextLessIrreflexive(c.id);
  }

  lemma {:induction false} TextLessIrreflexive(s: string)
    ensures !TextLess(s, s)
    decreases |s|
  {
    if s != [] {
      TextLessIrreflexive(s[1..]);
    }
  }

  lemma {:induction false} SortedArrays(commands: seq<Command>)
    ensures Arrayed(Sorted(commands))
    decreases |commands|
  {
    if commands != [] {
      SortedArrays(commands[..|commands| - 1]);
      InsertArrays(commands[|commands| - 1], Sorted(commands[..|commands| - 1]));
    }
  }

  /** Commands of the given orders that do nothing, but for two that each delete a constant there is
      not. */
  function Deleting(orders: seq<int>, i: nat, j: nat, idI: string, idJ: string): seq<RawCommand> {
    seq(|orders|, k requires 0 <= k < |orders| => DeletingAt(orders[k], k, i, j, idI, idJ))
  }

  function DeletingAt(order: int, k: nat, i: nat, j: nat, idI: string, idJ: string): RawCommand {
    if k == i then RawCommand(idI, Some(order), DeleteConstant("u"))
    else if k == j then RawCommand(idJ, Some(order), DeleteConstant("v"))
    else RawCommand("", Some(order), Action(Sleep))
  }

  /** The first deletion of a list is this one. */
  predicate DeletesFirst(commands: seq<Command>, first: nat, target: string) {
    && first < |commands| && commands[first].cfg == DeleteConstant(target)
    && forall q | 0 <= q < first :: commands[q].cfg == Action(Sleep)
  }

  /** The first deletion of a list decides its refusal. */
  lemma {:induction false} FirstDeletionRefused(commands: seq<Command>, p: nat, target: string)
    requires DeletesFirst(commands, p, target)
    ensures PlanFrom(commands, Test, map[]) == Raised(NotVisible(target))
    decreases p
  {
    if p > 0 {
      assert commands[0].cfg == Action(Sleep);
      assert CommandError(commands[0], Test, map[]).None? && Updated(commands[0], Test, map[]) == map[];
      FirstDeletionRefused(commands[1..], p - 1, target);
    }
  }

  lemma {:induction false} FirstDeletion(commands: seq<Command>, p: nat) returns (first: nat)
    requires p < |commands| && commands[p].cfg != Action(Sleep)
    ensures first <= p && commands[first].cfg != Action(Sleep)
    ensures forall q | 0 <= q < first :: commands[q].cfg == Action(Sleep)
  {
    first := 0;
    while commands[first].cfg == Action(Sleep)
      invariant first <= p && forall q | 0 <= q < first :: commands[q].cfg == Action(Sleep)
      decreases p - first
    {
      first := first + 1;
    }
  }

  /** Of two deletions, the one that comes before the other is the first of the sorted list. */
  lemma {:induction false} EarlierLeads(inputs: seq<Command>, x: Command, y: Command) returns (first: nat)
    requires x in inputs && x.cfg.DeleteConstant? && Before(x, y)
    requires forall c | c in inputs :: c == x || c == y || c.cfg == Action(Sleep)
    ensures DeletesFirst(Sorted(inputs), first, x.cfg.target)
  {
    var s := Sorted(inputs);
    SortedSorts(inputs);
    SortedArrays(inputs);
    assert x in multiset(inputs) && x in multiset(s);
    var p :| 0 <= p < |s| && s[p] == x;
    first := FirstDeletion(s, p);
    assert s[first] in multiset(s) && s[first] in inputs;
    assert s[first] == x;
  }

  /** The order the planner gives the command at position k. */
  function PlannedOrder(orders: seq<int>, k: nat): int
    requires k < |orders|
  {
    if orders[k] != 0 then orders[k] else k + 1
  }

  lemma {:induction false} DeletingInputs(orders: seq<int>, i: nat, j: nat, idI: string, idJ: string)
    requires i < |orders| && j < |orders| && i != j
    ensures var inputs := CommandInputs(Deleting(orders, i, j, idI, idJ));
            var x := Command(idI, PlannedOrder(orders, i), DeleteConstant("u"));
            var y := Command(idJ, PlannedOrder(orders, j), DeleteConstant("v"));
            && x in inputs && y in inputs && (forall c | c in inputs :: c == x || c == y || c.cfg == Action(Sleep))
  {
    var inputs := CommandInputs(Deleting(orders, i, j, idI, idJ));
    assert inputs[i] == Command(idI, PlannedOrder(orders, i), DeleteConstant("u"));
    assert inputs[j] == Command(idJ, PlannedOrder(orders, j), DeleteConstant("v"));
  }

  /** Of the two, the one with the smaller id is refused. */
  lemma {:induction false} SmallerIdRefused(orders: seq<int>, i: nat, j: nat, idI: string, idJ: string)
    requires i < j < |orders| && orders[i] == orders[j] && forall k | 0 <= k < |orders| :: orders[k] != 0
    requires TextLess(idI, idJ) || TextLess(idJ, idI)
    ensures Plan(Deleting(orders, i, j, idI, idJ), Test, map[])
         == Raised(NotVisible(if TextLess(idI, idJ) then "u" else "v"))
  {
    var inputs := CommandInputs(Deleting(orders, i, j, idI, idJ));
    var x, y := Command(idI, orders[i], DeleteConstant("u")), Command(idJ, orders[i], DeleteConstant("v"));
    DeletingInputs(orders, i, j, idI, idJ);
    assert CarryOver(map[]) == map[];
    if TextLess(idI, idJ) {
      var first := EarlierLeads(inputs, x, y);
      FirstDeletionRefused(Sorted(inputs), first, "u");
    } else {
      var first := EarlierLeads(inputs, y, x);
      FirstDeletionRefused(Sorted(inputs), first, "v");
    }
  }

  /** With two equal orders there are commands that are refused for one reason or another according
      to their ids. */
  lemma {:induction false} TieDecides(orders: seq<int>, i: nat, j: nat)
    requires i < j < |orders| && orders[i] == orders[j] && forall k | 0 <= k < |orders| :: orders[k] != 0
    ensures var raw, other := Deleting(orders, i, j, "a", "b"), Deleting(orders, i, j, "b", "a");
            && Rearranged(raw, other) && OrdersOf(raw) == orders
            && !PlannedAlike(Plan(raw, Test, map[]), Plan(other, Test, map[]))
  {
    var raw, other := Deleting(orders, i, j, "a", "b"), Deleting(orders, i, j, "b", "a");
    assert "a"[0] == 'a' && "b"[0] == 'b' && "u"[0] == 'u' && "v"[0] == 'v';
    SmallerIdRefused(orders, i, j, "a", "b");
    SmallerIdRefused(orders, i, j, "b", "a");
    assert Keys(CommandInputs(raw)) == Keys(CommandInputs(other));
  }

  /** Lists of commands with the given orders are planned alike, whatever their arrangement and
      their ids. */
  ghost predicate PlanIgnoresArrangement(orders: seq<int>) {
    forall raw, other, section, a, b
      | Rearranged(raw, other) && OrdersOf(raw) == orders && AlikeAll(a, b) ::
      PlannedAlike(Plan(raw, section, a), Plan(other, section, b))
  }

  /** Explicit orders are pairwise distinct exactly when every rearrangement of commands with these
      orders, under any ids, is planned alike. */
  lemma {:induction false} OrderIndependenceExactly(orders: seq<int>)
    requires forall k | 0 <= k < |orders| :: orders[k] != 0
    ensures Distinct(orders) <==> PlanIgnoresArrangement(orders)
  {
    if Distinct(orders) {
      forall raw, other, section, a, b | Rearranged(raw, other) && OrdersOf(raw) == orders && AlikeAll(a, b)
        ensures PlannedAlike(Plan(raw, section, a), Plan(other, section, b))
      {
        OrderIndependence(raw, other, section, a, b);
      }
    } else {
      var i, j :| 0 <= i < j < |orders| && orders[i] == orders[j];
      TieDecides(orders, i, j);
      assert AlikeAll(map[], map[]);
    }
  }

  /** With equal orders the ids decide: the same two commands are accepted under one assignment of
      ids and refused under the other. */
  lemma {:induction false} TiesDependOnIds()
    ensures var initial := map["d" := PlannedDefinition("d", "", 1, BeforeEach, "x", Local, Raw, None)];
            var use, drop := RunSuite(["d"], None), DeleteConstant("d");
            && Plan([RawCommand("a", Some(1), use), RawCommand("b", Some(1), drop)], Test, initial).Ok?
            && Plan([RawCommand("b", Some(1), use), RawCommand("a", Some(1), drop)], Test, initial).Raised?
  {
    var initial := map["d" := PlannedDefinition("d", "", 1, BeforeEach, "x", Local, Raw, None)];
    var use, drop := RunSuite(["d"], None), DeleteConstant("d");
    var carried := CarryOver(initial);
    var useA, dropB := Command("a", 1, use), Command("b", 1, drop);
    var useB, dropA := Command("b", 1, use), Command("a", 1, drop);
    assert "a"[0] == 'a' && "b"[0] == 'b';
    PairSchedule(RawCommand("a", Some(1), use), RawCommand("b", Some(1), drop));
    PairSchedule(RawCommand("b", Some(1), use), RawCommand("a", Some(1), drop));
    assert "d" in carried && carried["d"] == initial["d"].(order := 0);
    SingleRef(useA, carried, "d");
    SingleRef(dropB, carried, "d");
    SingleRef(dropA, carried, "d");
    SingleRef(useB, Updated(dropA, Test, carried), "d");
    PlanPair(useA, dropB, carried);
    PlanPair(dropA, useB, carried);
  }

  lemma {:induction false} SingleRef(c: Command, defs: Definitions, id: string)
    requires Refs(c.cfg) == [id] && Declarations(c, Test) == [] && CompatibleTypes(c.cfg).None?
    requires id in defs && defs[id].context == Local
    ensures CommandError(c, Test, defs).None? <==> Active(defs[id], Readable(Test), c.order)
  {
    assert [id][1..] == [];
    assert RefError(c, Test, defs, []) == None;
  }

  lemma {:induction false} PlanPair(a: Command, b: Command, defs: Definitions)
    ensures PlanFrom([a, b], Test, defs).Ok?
        <==> CommandError(a, Test, defs).None? && CommandError(b, Test, Updated(a, Test, defs)).None?
  {
    assert [a, b][1..] == [b] && [b][1..] == [];
    var next := Updated(a, Test, defs);
    assert PlanFrom([], Test, Updated(b, Test, next)).Ok?;
    assert PlanFrom([b], Test, next).Ok? <==> CommandError(b, Test, next).None?;
  }

  lemma {:induction false} PairSchedule(a: RawCommand, b: RawCommand)
    requires a.order == b.order == Some(1)
    ensures var x, y := Command(a.id, 1, a.cfg), Command(b.id, 1, b.cfg);
            Schedule([a, b]) == if TextLess(b.id, a.id) then [y, x] else [x, y]
  {
    var x, y := Command(a.id, 1, a.cfg), Command(b.id, 1, b.cfg);
    assert CommandInputs([a, b]) == [x, y];
    assert [x, y][..1] == [x] && [x][..0] == [];
    assert Sorted([x]) == Insert(x, Sorted([])) == [x];
    assert Sorted([x, y]) == Insert(y, [x]);
    assert [x][1..] == [] && Insert(y, []) == [y];
  }
}
