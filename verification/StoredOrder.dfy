/** The order in which stored commands are run: by their stored orders alone, where an order of zero
    stays zero and equal orders come in any arrangement, while the planner gives a zero its position
    and breaks ties by ids. */
module StoredOrder {
  import opened Prelude
  import opened ConstantGraph
  import opened ConstantGraphLaws
  import opened ConstantGraphOrder

  /** Every command was given an order, as a stored one is. */
  predicate Given(raw: seq<RawCommand>) {
    forall i | 0 <= i < |raw| :: raw[i].order.Some?
  }

  function GivenOrders(raw: seq<RawCommand>): seq<int>
    requires Given(raw)
  {
    seq(|raw|, i requires 0 <= i < |raw| => raw[i].order.value)
  }

  function StoredCommand(raw: RawCommand): Command {
    Command(raw.id, if raw.order.Some? then raw.order.value else 0, raw.cfg)
  }

  function StoredCommands(raw: seq<RawCommand>): seq<Command> {
    seq(|raw|, i requires 0 <= i < |raw| => StoredCommand(raw[i]))
  }

  /** What `get_all_by_suite_item_id` may return for an item: its commands by ascending stored order,
      under the ids they were stored with. */
  predicate Fetched(raw: seq<RawCommand>, run: seq<Command>) {
    InOrder(run) && multiset(Keys(run)) == multiset(Keys(StoredCommands(raw)))
  }

  predicate SameCfgs(a: seq<Command>, b: seq<Command>) {
    |a| == |b| && forall i | 0 <= i < |a| :: a[i].cfg == b[i].cfg
  }

  /** Orders that are explicit, positive and pairwise distinct. */
  predicate WellOrdered(raw: seq<RawCommand>) {
    && Given(raw) && (forall i | 0 <= i < |raw| :: raw[i].order.value > 0)
    && forall i, j | 0 <= i < j < |raw| :: raw[i].order.value != raw[j].order.value
  }

  /** Such commands are run as they were planned. */
  lemma {:induction false} FetchedAsPlanned(raw: seq<RawCommand>, run: seq<Command>)
    requires WellOrdered(raw) && Fetched(raw, run)
    ensures SameButIds(Schedule(raw), run)
  {
    assert StoredCommands(raw) == CommandInputs(raw);
    FetchedIsSchedule(raw, run);
  }

  lemma {:induction false} FetchedIsSchedule(raw: seq<RawCommand>, run: seq<Command>)
    requires InOrder(run) && DistinctOrders(CommandInputs(raw))
    requires multiset(Keys(run)) == multiset(Keys(CommandInputs(raw)))
    ensures SameButIds(Schedule(raw), run)
  {
    SortedSorts(CommandInputs(raw));
    DistinctStaysDistinct(CommandInputs(raw), Schedule(raw));
    ArrangementUnique(Schedule(raw), run);
  }

  // ----- Exactly which orders -----

  /** No positive order is at or below the position of a zero. */
  predicate ZerosLead(orders: seq<int>) {
    forall i, j | 0 <= i < |orders| && 0 <= j < |orders| && orders[i] == 0 && orders[j] > 0 :: orders[j] > i + 1
  }

  /** Commands of these orders are run as they were planned, whatever they are and whatever the
      database returns. */
  ghost predicate RunsAsPlanned(orders: seq<int>) {
    forall raw, run | Given(raw) && GivenOrders(raw) == orders && Fetched(raw, run) :: SameCfgs(run, Schedule(raw))
  }

  /** The order the planner gives a command that is stored with this one, if the only zero is at
      position z. */
  function Positioned(c: Command, z: nat): Command {
    if c.order == 0 then c.(order := z + 1) else c
  }

  function AllPositioned(commands: seq<Command>, z: nat): seq<Command> {
    seq(|commands|, i requires 0 <= i < |commands| => Positioned(commands[i], z))
  }

  lemma {:induction false} PositionedKeys(a: seq<Command>, b: seq<Command>, z: nat)
    requires multiset(Keys(a)) == multiset(Keys(b))
    ensures multiset(Keys(AllPositioned(a, z))) == multiset(Keys(AllPositioned(b, z)))
    decreases |a|
  {
    assert |Keys(a)| == |multiset(Keys(a))| == |multiset(Keys(b))| == |Keys(b)|;
    if a != [] {
      var i := HeadIn(a, b);
      PositionedKeys(Without(a, 0), Without(b, i), z);
      PositionedWithout(a, 0, z);
      PositionedWithout(b, i, z);
    }
  }

  function Without(a: seq<Command>, i: nat): seq<Command>
    requires i < |a|
  {
    a[..i] + a[i + 1..]
  }

  /** The first command of one list in a list of the same keys, and what is left without it. */
  lemma {:induction false} HeadIn(a: seq<Command>, b: seq<Command>) returns (i: nat)
    requires a != [] && multiset(Keys(a)) == multiset(Keys(b))
    ensures i < |b| && Key(b[i]) == Key(a[0])
    ensures multiset(Keys(Without(a, 0))) == multiset(Keys(Without(b, i)))
  {
    assert Keys(a)[0] in multiset(Keys(a));
    i := KeyIn(b, Key(a[0]));
    KeysWithout(a, 0);
    KeysWithout(b, i);
    SameLeft(multiset(Keys(Without(a, 0))), multiset(Keys(Without(b, i))), Key(a[0]));
  }

  lemma {:induction false} SameLeft(a: multiset<(int, Cfg)>, b: multiset<(int, Cfg)>, key: (int, Cfg))
    requires a + multiset{key} == b + multiset{key}
    ensures a == b
  {
    assert a == (a + multiset{key}) - multiset{key};
    assert b == (b + multiset{key}) - multiset{key};
  }

  lemma {:induction false} KeysWithout(a: seq<Command>, i: nat)
    requires i < |a|
    ensures multiset(Keys(a)) == multiset(Keys(Without(a, i))) + multiset{Key(a[i])}
  {
    assert a == a[..i] + [a[i]] + a[i + 1..];
    KeysAppend(a[..i] + [a[i]], a[i + 1..]);
    KeysAppend(a[..i], [a[i]]);
    KeysAppend(a[..i], a[i + 1..]);
    assert Keys([a[i]]) == [Key(a[i])];
  }

  lemma {:induction false} PositionedWithout(a: seq<Command>, i: nat, z: nat)
    requires i < |a|
    ensures multiset(Keys(AllPositioned(a, z)))
         == multiset(Keys(AllPositioned(Without(a, i), z))) + multiset{Key(Positioned(a[i], z))}
  {
    KeysWithout(AllPositioned(a, z), i);
    assert Without(AllPositioned(a, z), i) == AllPositioned(Without(a, i), z);
  }

  /** With one leading zero the planner sorts as the database does. */
  lemma {:induction false} LeadingZeroRuns(raw: seq<RawCommand>, run: seq<Command>, z: nat)
    requires Given(raw) && Fetched(raw, run) && z < |raw| && raw[z].order.value == 0
    requires Distinct(GivenOrders(raw)) && ZerosLead(GivenOrders(raw))
    ensures SameCfgs(run, Schedule(raw))
  {
    var inputs, lifted := CommandInputs(raw), AllPositioned(run, z);
    OneZero(raw, z);
    assert AllPositioned(StoredCommands(raw), z) == inputs;
    PositionedKeys(run, StoredCommands(raw), z);
    LiftedInOrder(raw, run, z);
    FetchedIsSchedule(raw, lifted);
    forall i | 0 <= i < |run| ensures run[i].cfg == Schedule(raw)[i].cfg {
      assert Key(Schedule(raw)[i]) == Key(lifted[i]);
    }
  }

  lemma {:induction false} OneZero(raw: seq<RawCommand>, z: nat)
    requires Given(raw) && z < |raw| && raw[z].order.value == 0
    requires Distinct(GivenOrders(raw)) && ZerosLead(GivenOrders(raw))
    ensures forall i | 0 <= i < |raw| && i != z :: raw[i].order.value != 0
    ensures forall i | 0 <= i < |raw| && raw[i].order.value > 0 :: raw[i].order.value > z + 1
    ensures DistinctOrders(CommandInputs(raw))
  {
    var orders := GivenOrders(raw);
    assert forall i | 0 <= i < |raw| :: orders[i] == raw[i].order.value;
    forall i | 0 <= i < |raw| && i != z ensures raw[i].order.value != 0 {
      assert orders[i] != orders[z];
    }
    forall i | 0 <= i < |raw| && raw[i].order.value > 0 ensures raw[i].order.value > z + 1 {
      assert orders[z] == 0 && orders[i] > 0;
    }
    forall i, j | 0 <= i < j < |raw| ensures CommandInputs(raw)[i].order != CommandInputs(raw)[j].order {
      assert orders[i] != orders[j];
    }
  }

  lemma {:induction false} LiftedInOrder(raw: seq<RawCommand>, run: seq<Command>, z: nat)
    requires Given(raw) && Fetched(raw, run)
    requires forall i | 0 <= i < |raw| && raw[i].order.value > 0 :: raw[i].order.value > z + 1
    ensures InOrder(AllPositioned(run, z))
  {
    forall i | 0 <= i < |run| ensures run[i].order > 0 ==> run[i].order > z + 1 {
      assert Keys(run)[i] in multiset(Keys(run));
      var j := KeyIn(StoredCommands(raw), Key(run[i]));
      assert StoredCommands(raw)[j].order == raw[j].order.value;
    }
  }

  lemma {:induction false} NonZeroRuns(raw: seq<RawCommand>, run: seq<Command>)
    requires Given(raw) && Fetched(raw, run) && Distinct(GivenOrders(raw))
    requires forall i | 0 <= i < |raw| :: raw[i].order.value != 0
    ensures SameCfgs(run, Schedule(raw))
  {
    var inputs := CommandInputs(raw);
    assert StoredCommands(raw) == inputs;
    forall i, j | 0 <= i < j < |raw| ensures inputs[i].order != inputs[j].order {
      assert GivenOrders(raw)[i] != GivenOrders(raw)[j];
    }
    FetchedIsSchedule(raw, run);
    assert forall i | 0 <= i < |run| :: Key(Schedule(raw)[i]) == Key(run[i]);
  }

  /** Lists whose first deletions differ have different configurations. */
  lemma {:induction false} FirstsDiffer(a: seq<Command>, b: seq<Command>, p: nat, q: nat, u: string, v: string)
    requires DeletesFirst(a, p, u) && DeletesFirst(b, q, v) && u != v
    ensures !SameCfgs(a, b)
  {
  }

  /** The stored forms of two deletions among commands that do nothing. */
  lemma {:induction false} StoredDeleting(orders: seq<int>, i: nat, j: nat, idI: string, idJ: string)
    requires i < |orders| && j < |orders| && i != j
    ensures var stored := StoredCommands(Deleting(orders, i, j, idI, idJ));
            var x, y := Command(idI, orders[i], DeleteConstant("u")), Command(idJ, orders[j], DeleteConstant("v"));
            && x in stored && y in stored && (forall c | c in stored :: c == x || c == y || c.cfg == Action(Sleep))
  {
    var stored := StoredCommands(Deleting(orders, i, j, idI, idJ));
    assert stored[i] == Command(idI, orders[i], DeleteConstant("u"));
    assert stored[j] == Command(idJ, orders[j], DeleteConstant("v"));
  }

  /** The database may return the stored commands sorted by id where their orders are equal, the ids
      being any. */
  lemma {:induction false} SortedIsFetched(orders: seq<int>, i: nat, j: nat, idI: string, idJ: string)
    requires i < |orders| && j < |orders| && i != j
    ensures var raw := Deleting(orders, i, j, "a", "b");
            && Given(raw) && GivenOrders(raw) == orders
            && Fetched(raw, Sorted(StoredCommands(Deleting(orders, i, j, idI, idJ))))
  {
    var raw, other := Deleting(orders, i, j, "a", "b"), Deleting(orders, i, j, idI, idJ);
    SortedSorts(StoredCommands(other));
    assert Keys(StoredCommands(raw)) == Keys(StoredCommands(other));
  }

  /** Sorted by id, the command of the smaller id is the first of two deletions of equal orders. */
  lemma {:induction false} SmallerIdLeads(orders: seq<int>, i: nat, j: nat, idI: string, idJ: string) returns (first: nat)
    requires i < |orders| && j < |orders| && i != j && orders[i] == orders[j]
    requires TextLess(idI, idJ) || TextLess(idJ, idI)
    ensures DeletesFirst(Sorted(StoredCommands(Deleting(orders, i, j, idI, idJ))), first,
                         if TextLess(idI, idJ) then "u" else "v")
  {
    var x, y := Command(idI, orders[i], DeleteConstant("u")), Command(idJ, orders[j], DeleteConstant("v"));
    StoredDeleting(orders, i, j, idI, idJ);
    if TextLess(idI, idJ) {
      first := EarlierLeads(StoredCommands(Deleting(orders, i, j, idI, idJ)), x, y);
    } else {
      first := EarlierLeads(StoredCommands(Deleting(orders, i, j, idI, idJ)), y, x);
    }
  }

  lemma {:induction false} TiesRunEitherWay(orders: seq<int>, i: nat, j: nat)
    requires i < j < |orders| && orders[i] == orders[j]
    ensures !RunsAsPlanned(orders)
  {
    var raw := Deleting(orders, i, j, "a", "b");
    var one, two := Sorted(StoredCommands(raw)), Sorted(StoredCommands(Deleting(orders, i, j, "b", "a")));
    assert "a"[0] == 'a' && "b"[0] == 'b' && "u"[0] == 'u' && "v"[0] == 'v';
    SortedIsFetched(orders, i, j, "a", "b");
    SortedIsFetched(orders, i, j, "b", "a");
    var p := SmallerIdLeads(orders, i, j, "a", "b");
    var q := SmallerIdLeads(orders, i, j, "b", "a");
    FirstsDiffer(one, two, p, q, "u", "v");
    assert !SameCfgs(one, Schedule(raw)) || !SameCfgs(two, Schedule(raw));
  }

  /** A zero stored among commands that do nothing but one comes first, while the planner puts the
      other before it. */
  lemma {:induction false} LateZeroRunsFirst(orders: seq<int>, i: nat, j: nat)
    requires i < |orders| && j < |orders| && orders[i] == 0 && 0 < orders[j] <= i + 1
    ensures !RunsAsPlanned(orders)
  {
    var raw := Deleting(orders, i, j, "b", "a");
    var run := Sorted(StoredCommands(raw));
    assert "a"[0] == 'a' && "b"[0] == 'b' && "u"[0] == 'u' && "v"[0] == 'v';
    ReversedIsFetched(orders, i, j);
    var p := ZeroStoredFirst(orders, i, j);
    var q := ZeroPlannedSecond(orders, i, j);
    FirstsDiffer(run, Schedule(raw), p, q, "u", "v");
  }

  lemma {:induction false} ReversedIsFetched(orders: seq<int>, i: nat, j: nat)
    requires i < |orders| && j < |orders| && i != j
    ensures var raw := Deleting(orders, i, j, "b", "a");
            Given(raw) && GivenOrders(raw) == orders && Fetched(raw, Sorted(StoredCommands(raw)))
  {
    var raw := Deleting(orders, i, j, "b", "a");
    SortedSorts(StoredCommands(raw));
    assert GivenOrders(raw) == orders;
  }

  lemma {:induction false} ZeroStoredFirst(orders: seq<int>, i: nat, j: nat) returns (p: nat)
    requires i < |orders| && j < |orders| && orders[i] == 0 < orders[j]
    ensures DeletesFirst(Sorted(StoredCommands(Deleting(orders, i, j, "b", "a"))), p, "u")
  {
    StoredDeleting(orders, i, j, "b", "a");
    p := EarlierLeads(StoredCommands(Deleting(orders, i, j, "b", "a")),
                      Command("b", orders[i], DeleteConstant("u")), Command("a", orders[j], DeleteConstant("v")));
  }

  lemma {:induction false} ZeroPlannedSecond(orders: seq<int>, i: nat, j: nat) returns (q: nat)
    requires i < |orders| && j < |orders| && orders[i] == 0 < orders[j] <= i + 1
    ensures DeletesFirst(Schedule(Deleting(orders, i, j, "b", "a")), q, "v")
  {
    assert "a"[0] == 'a' && "b"[0] == 'b';
    DeletingInputs(orders, i, j, "b", "a");
    q := EarlierLeads(CommandInputs(Deleting(orders, i, j, "b", "a")),
                      Command("a", orders[j], DeleteConstant("v")), Command("b", i + 1, DeleteConstant("u")));
  }

  /** Commands run as they were planned, whatever they are, exactly when their orders are pairwise
      distinct and no positive order is at or below the position of a zero. */
  lemma {:induction false} StoredOrderExactly(orders: seq<int>)
    ensures RunsAsPlanned(orders) <==> Distinct(orders) && ZerosLead(orders)
  {
    if !Distinct(orders) {
      var i, j :| 0 <= i < j < |orders| && orders[i] == orders[j];
      TiesRunEitherWay(orders, i, j);
    } else if !ZerosLead(orders) {
      var i, j :| 0 <= i < |orders| && 0 <= j < |orders| && orders[i] == 0 && orders[j] > 0 && orders[j] <= i + 1;
      LateZeroRunsFirst(orders, i, j);
    } else {
      forall raw: seq<RawCommand>, run: seq<Command> | Given(raw) && GivenOrders(raw) == orders && Fetched(raw, run)
        ensures SameCfgs(run, Schedule(raw))
      {
        if z: nat :| z < |raw| && raw[z].order.value == 0 {
          LeadingZeroRuns(raw, run, z);
        } else {
          NonZeroRuns(raw, run);
        }
      }
    }
  }
}
