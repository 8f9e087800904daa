/** The suite executor (suite_executor_thread.py): which tests it runs, and the events, rows and
    totals it leaves behind. */
module SuiteExecutor {
  import opened Prelude
  import opened PyValues

  datatype OnFailure = Abort | Continue

  datatype Test = Test(id: string, onFailure: OnFailure)

  /** What is published while a test runs: log lines, and one notice for each command that has
      completed or raised (command_executor_composite.py:227-282). */
  datatype Notice = Line(text: string) | Command(id: string, outcome: Result<Value, string>)

  /** What `execute_test` does: what it publishes, and its result or exception text. */
  datatype TestRun = TestRun(notices: seq<Notice>, outcome: Result<Value, string>)

  datatype Event =
    | Log(message: Message)
    | ExecutionStarted
    | ExecutionProgress(executed: nat, total: nat)
    | TestStarted(test: nat, id: string, total: nat)
    | CommandFinished(id: string, outcome: Result<Value, string>)
    | TestFinished(test: nat, id: string, outcome: Result<Value, string>)
    | ExecutionFinished(status: Status, results: seq<Value>, errors: nat, executed: nat, total: nat, error: string)

  /** What a log line says. */
  datatype Message = Starting | Executing(test: nat) | TestFailed(test: nat) | SuiteFailed | Finishing | Said(text: string)

  datatype Status = Running | Success | Error

  datatype TestRow = TestRow(id: string, status: Status, error: Option<string>)

  datatype SuiteRow = SuiteRow(status: Status, error: Option<string>, results: seq<Value>)

  // ----- Selection -----

  function IndexOf(tests: seq<Test>, id: string): nat {
    if tests == [] || tests[0].id == id then 0 else 1 + IndexOf(tests[1..], id)
  }

  lemma {:induction false} IndexOfIsFirst(tests: seq<Test>, id: string)
    ensures IndexOf(tests, id) <= |tests|
    ensures IndexOf(tests, id) < |tests| ==> tests[IndexOf(tests, id)].id == id
    ensures forall i | 0 <= i < IndexOf(tests, id) :: tests[i].id != id
  {
    if tests != [] && tests[0].id != id {
      IndexOfIsFirst(tests[1..], id);
      assert forall i | 0 < i < IndexOf(tests, id) :: tests[i] == tests[1..][i - 1];
    }
  }

  /** `_resolve_tests_to_execute`; the empty text stands for no target. */
  function SelectTests(tests: seq<Test>, target: string, includePrevious: bool): Result<seq<Test>, string> {
    if target == "" then Ok(tests)
    else
      var k := IndexOf(tests, target);
      if k >= |tests| then Raised("Suite test with id '" + target + "' not found in suite")
      else if includePrevious then Ok(tests[..k + 1])
      else Ok([tests[k]])
  }

  /** Selection fails exactly for a target the suite lacks; otherwise the selection is a stretch of
      the suite that ends with the first test of that id, and starts with it or with the suite. */
  lemma {:induction false} SelectionExactly(tests: seq<Test>, target: string, includePrevious: bool)
    ensures SelectTests(tests, target, includePrevious).Raised? <==>
              target != "" && forall i | 0 <= i < |tests| :: tests[i].id != target
    ensures target == "" ==> SelectTests(tests, target, includePrevious) == Ok(tests)
    ensures SelectTests(tests, target, includePrevious).Ok? && target != "" ==>
              exists k | 0 <= k < |tests| ::
                && tests[k].id == target && (forall i | 0 <= i < k :: tests[i].id != target)
                && SelectTests(tests, target, includePrevious).value == tests[if includePrevious then 0 else k..k + 1]
  {
    IndexOfIsFirst(tests, target);
    var k := IndexOf(tests, target);
    if target != "" && k < |tests| {
      assert tests[k..k + 1] == [tests[k]];
      assert tests[k].id == target;
    }
  }

  // ----- What a run amounts to -----

  predicate Fails(run: nat -> TestRun, i: nat) {
    run(i).outcome.Raised?
  }

  /** A failure after which the loop breaks. */
  predicate Aborts(selection: seq<Test>, run: nat -> TestRun, i: nat)
    requires i < |selection|
  {
    Fails(run, i) && selection[i].onFailure == Abort
  }

  function Successes(run: nat -> TestRun, n: nat): seq<Value> {
    if n == 0 then [] else Successes(run, n - 1) + if Fails(run, n - 1) then [] else [run(n - 1).outcome.value]
  }

  function Failures(run: nat -> TestRun, n: nat): seq<string> {
    if n == 0 then [] else Failures(run, n - 1) + if Fails(run, n - 1) then [run(n - 1).outcome.error] else []
  }

  /** The first message that is not empty. */
  function FirstMessage(messages: seq<string>): string {
    if messages == [] then "" else if messages[0] != "" then messages[0] else FirstMessage(messages[1..])
  }

  function TestEvents(selection: seq<Test>, run: nat -> TestRun, i: nat): seq<Event>
    requires i < |selection|
  {
    [Log(Executing(i)), TestStarted(i, selection[i].id, |selection|)]
    + Noticed(run(i).notices)
    + (if Fails(run, i) then [Log(TestFailed(i))] else [])
    + [TestFinished(i, selection[i].id, run(i).outcome), ExecutionProgress(|Successes(run, i + 1)|, |selection|)]
  }

  function EventOf(n: Notice): Event {
    match n
    case Line(text) => Log(Said(text))
    case Command(id, outcome) => CommandFinished(id, outcome)
  }

  function Noticed(notices: seq<Notice>): seq<Event> {
    seq(|notices|, i requires 0 <= i < |notices| => EventOf(notices[i]))
  }

  function EventsOfTests(selection: seq<Test>, run: nat -> TestRun, n: nat): seq<Event>
    requires n <= |selection|
  {
    if n == 0 then [] else EventsOfTests(selection, run, n - 1) + TestEvents(selection, run, n - 1)
  }

  /** The row of a test that has been run. */
  function RowAfter(test: Test, outcome: Result<Value, string>): TestRow {
    match outcome
    case Ok(_) => TestRow(test.id, Success, None)
    case Raised(message) => TestRow(test.id, Error, Some(message))
  }

  /** The rows of the first n tests. */
  predicate RowsLeft(selection: seq<Test>, run: nat -> TestRun, n: nat, rows: seq<TestRow>)
    requires n <= |selection|
  {
    |rows| == n && forall i | 0 <= i < n :: rows[i] == RowAfter(selection[i], run(i).outcome)
  }

  /** Everything up to test n was run, and nothing before test n - 1 aborted. */
  predicate Ran(selection: seq<Test>, run: nat -> TestRun, n: nat) {
    n <= |selection| && forall i | 0 <= i < n - 1 :: !Aborts(selection, run, i)
  }

  /** The loop stops at the end of the selection or after an aborting failure, and nowhere else. */
  predicate StopsAt(selection: seq<Test>, run: nat -> TestRun, n: nat) {
    Ran(selection, run, n) && (n == |selection| || (n > 0 && Aborts(selection, run, n - 1)))
  }

  lemma {:induction false} StopIsUnique(selection: seq<Test>, run: nat -> TestRun, m: nat, n: nat)
    requires StopsAt(selection, run, m) && StopsAt(selection, run, n)
    ensures m == n
  {
  }

  // ----- The executor -----

  /** The closing event and the row of the suite, from the totals. */
  function Finished(results: seq<Value>, errors: nat, total: nat, first: string): Event {
    ExecutionFinished(if errors > 0 then Error else Success, results, errors, |results|, total, first)
  }

  function FinalRow(results: seq<Value>, errors: nat, first: string): SuiteRow {
    SuiteRow(if errors > 0 then Error else Success,
             if errors > 0 && first != "" then Some(first) else None, results)
  }

  /** The events before the first test; no selection, no progress. */
  function Opening(total: Option<nat>): seq<Event> {
    [Log(Starting), ExecutionStarted] + if total.Some? then [ExecutionProgress(0, total.value)] else []
  }

  /** What the executor leaves behind for a selection, `ran` of whose tests it started. */
  ghost predicate Executed(selected: Result<seq<Test>, string>, run: nat -> TestRun,
                              trace: seq<Event>, rows: seq<TestRow>, suiteRow: SuiteRow, ran: nat) {
    match selected
    case Raised(message) =>
      && ran == 0 && rows == [] && suiteRow == FinalRow([], 1, message)
      && trace == Opening(None) + [Log(SuiteFailed), Finished([], 1, 0, message)]
    case Ok(selection) =>
      && StopsAt(selection, run, ran)
      && var results, failures := Successes(run, ran), Failures(run, ran);
      && trace == Opening(Some(|selection|)) + EventsOfTests(selection, run, ran)
                  + [Log(Finishing), Finished(results, |failures|, |selection|, FirstMessage(failures))]
      && RowsLeft(selection, run, ran, rows)
      && suiteRow == FinalRow(results, |failures|, FirstMessage(failures))
  }

  /** One turn of the loop: the events it publishes and the row it leaves. */
  method RunTest(selection: seq<Test>, run: nat -> TestRun, i: nat, completed: nat)
    returns (events: seq<Event>, row: TestRow)
    requires i < |selection| && completed == |Successes(run, i)|
    ensures events == TestEvents(selection, run, i) && row == RowAfter(selection[i], run(i).outcome)
  {
    var test, tested := selection[i], run(i);
    var executed := completed;
    row := TestRow(test.id, Running, None);
    events := [Log(Executing(i)), TestStarted(i, test.id, |selection|)] + Noticed(tested.notices);
    if tested.outcome.Ok? {
      executed := executed + 1;
      row := row.(status := Success, error := None);
    } else {
      events := events + [Log(TestFailed(i))];
      row := row.(status := Error, error := Some(tested.outcome.error));
    }
    events := events + [TestFinished(i, test.id, tested.outcome), ExecutionProgress(executed, |selection|)];
  }

  lemma {:induction false} RowsGrow(selection: seq<Test>, run: nat -> TestRun, n: nat, rows: seq<TestRow>)
    requires n < |selection| && RowsLeft(selection, run, n, rows)
    ensures RowsLeft(selection, run, n + 1, rows + [RowAfter(selection[n], run(n).outcome)])
  {
  }

  /** What the loop has gathered after n tests. */
  ghost predicate Gathered(
    selection: seq<Test>, run: nat -> TestRun, n: nat, trace: seq<Event>, rows: seq<TestRow>, results: seq<Value>,
    errors: nat, first: string)
    requires n <= |selection|
  {
    && trace == EventsOfTests(selection, run, n)
    && RowsLeft(selection, run, n, rows)
    && results == Successes(run, n)
    && errors == |Failures(run, n)| && first == FirstMessage(Failures(run, n))
  }

  lemma {:induction false} GatheredGrows(
    selection: seq<Test>, run: nat -> TestRun, n: nat, trace: seq<Event>, rows: seq<TestRow>, results: seq<Value>,
    errors: nat, first: string)
    requires n < |selection| && Gathered(selection, run, n, trace, rows, results, errors, first)
    ensures var outcome := run(n).outcome;
            Gathered(selection, run, n + 1, trace + TestEvents(selection, run, n),
                     rows + [RowAfter(selection[n], outcome)],
                     if outcome.Ok? then results + [outcome.value] else results,
                     if outcome.Ok? then errors else errors + 1,
                     if outcome.Ok? || first != "" then first else outcome.error)
  {
    TotalsGrow(run, n);
    RowsGrow(selection, run, n, rows);
  }

  /** The loop over the selection, with `execute_test` given by its outcome for each test; `ran`
      is the number of tests started. */
  method RunTests(selection: seq<Test>, run: nat -> TestRun)
    returns (trace: seq<Event>, rows: seq<TestRow>, results: seq<Value>, errors: nat, first: string, ran: nat)
    ensures StopsAt(selection, run, ran)
    ensures trace == EventsOfTests(selection, run, ran)
    ensures RowsLeft(selection, run, ran, rows)
    ensures results == Successes(run, ran)
    ensures errors == |Failures(run, ran)| && first == FirstMessage(Failures(run, ran))
  {
    trace, rows, results, errors, first, ran := [], [], [], 0, "", 0;
    while ran < |selection|
      invariant Ran(selection, run, ran) && (ran > 0 ==> !Aborts(selection, run, ran - 1))
      invariant Gathered(selection, run, ran, trace, rows, results, errors, first)
    {
      var events, row := RunTest(selection, run, ran, |results|);
      GatheredGrows(selection, run, ran, trace, rows, results, errors, first);
      trace, rows := trace + events, rows + [row];
      var outcome := run(ran).outcome;
      ran := ran + 1;
      if outcome.Ok? {
        results := results + [outcome.value];
      } else {
        errors := errors + 1;
        if first == "" {
          first := outcome.error;
        }
        if selection[ran - 1].onFailure == Abort {
          break;
        }
      }
    }
  }

  /** `_execute`: the events, the rows of the tests started and the final row of the suite. */
  method Execute(tests: seq<Test>, target: string, includePrevious: bool, run: nat -> TestRun)
    returns (trace: seq<Event>, rows: seq<TestRow>, suiteRow: SuiteRow, ran: nat)
    ensures Executed(SelectTests(tests, target, includePrevious), run, trace, rows, suiteRow, ran)
  {
    var results, errors, first := [], 0, "";
    rows, ran := [], 0;
    var selected := SelectTests(tests, target, includePrevious);
    if selected.Raised? {
      errors, first := 1, selected.error;
      trace := Opening(None) + [Log(SuiteFailed), Finished(results, errors, 0, first)];
    } else {
      var total := |selected.value|;
      var events;
      events, rows, results, errors, first, ran := RunTests(selected.value, run);
      trace := Opening(Some(total)) + events + [Log(Finishing), Finished(results, errors, total, first)];
    }
    suiteRow := FinalRow(results, errors, first);
  }

  lemma {:induction false} TotalsGrow(run: nat -> TestRun, n: nat)
    ensures match run(n).outcome
            case Ok(value) => Successes(run, n + 1) == Successes(run, n) + [value] && Failures(run, n + 1) == Failures(run, n)
            case Raised(message) =>
              && Successes(run, n + 1) == Successes(run, n) && Failures(run, n + 1) == Failures(run, n) + [message]
              && FirstMessage(Failures(run, n + 1)) ==
                 (if FirstMessage(Failures(run, n)) == "" then message else FirstMessage(Failures(run, n)))
  {
    if run(n).outcome.Raised? {
      FirstMessageGrows(Failures(run, n), run(n).outcome.error);
    }
  }

  lemma {:induction false} FirstMessageGrows(messages: seq<string>, message: string)
    ensures FirstMessage(messages + [message]) ==
            (if FirstMessage(messages) == "" then message else FirstMessage(messages))
    decreases |messages|
  {
    if messages == [] {
      assert [message][1..] == [];
    } else {
      assert (messages + [message])[1..] == messages[1..] + [message];
      FirstMessageGrows(messages[1..], message);
    }
  }

  // ----- Accounting -----

  /** What the events say about tests starting and finishing, in order. */
  datatype Milestone = Started(test: nat) | Done(test: nat, failed: bool)

  function Milestones(trace: seq<Event>): seq<Milestone> {
    if trace == [] then [] else MilestonesAt(trace[0]) + Milestones(trace[1..])
  }

  function MilestonesAt(e: Event): seq<Milestone> {
    match e
    case TestStarted(i, _, _) => [Started(i)]
    case TestFinished(i, _, outcome) => [Done(i, outcome.Raised?)]
    case _ => []
  }

  lemma {:induction false} MilestonesOfTwo(e: Event, f: Event)
    ensures Milestones([e]) == MilestonesAt(e)
    ensures Milestones([e, f]) == MilestonesAt(e) + MilestonesAt(f)
  {
    assert [e, f][1..] == [f] && [f][1..] == [] && [e][1..] == [];
  }

  /** Started and finished once each, one test after the other. */
  function InTurn(run: nat -> TestRun, n: nat): seq<Milestone> {
    if n == 0 then [] else InTurn(run, n - 1) + [Started(n - 1), Done(n - 1, Fails(run, n - 1))]
  }

  lemma {:induction false} MilestonesJoin(a: seq<Event>, b: seq<Event>)
    ensures Milestones(a + b) == Milestones(a) + Milestones(b)
    decreases |a|
  {
    if a == [] {
      assert a + b == b;
    } else {
      assert (a + b)[1..] == a[1..] + b;
      MilestonesJoin(a[1..], b);
    }
  }

  lemma {:induction false} NoMilestonesNoticed(notices: seq<Notice>)
    ensures Milestones(Noticed(notices)) == []
    decreases |notices|
  {
    if notices != [] {
      assert Noticed(notices)[1..] == Noticed(notices[1..]);
      NoMilestonesNoticed(notices[1..]);
    }
  }

  lemma {:induction false} MilestonesJoinThree(a: seq<Event>, b: seq<Event>, c: seq<Event>)
    ensures Milestones(a + b + c) == Milestones(a) + Milestones(b) + Milestones(c)
  {
    MilestonesJoin(a, b);
    MilestonesJoin(a + b, c);
  }

  lemma {:induction false} ApartFromTests(a: seq<Event>, b: seq<Event>, c: seq<Event>)
    requires Milestones(a) == [] && Milestones(c) == []
    ensures Milestones(a + b + c) == Milestones(b)
  {
    MilestonesJoinThree(a, b, c);
  }

  lemma {:induction false} MilestonesJoinFour(a: seq<Event>, b: seq<Event>, c: seq<Event>, d: seq<Event>)
    ensures Milestones(a + b + c + d) == Milestones(a) + Milestones(b) + Milestones(c) + Milestones(d)
  {
    MilestonesJoinThree(a, b, c);
    MilestonesJoin(a + b + c, d);
  }

  /** A test is started once and finished once, whatever its commands publish in between. */
  lemma {:induction false} MilestonesOfTest(selection: seq<Test>, run: nat -> TestRun, i: nat)
    requires i < |selection|
    ensures Milestones(TestEvents(selection, run, i)) == [Started(i), Done(i, Fails(run, i))]
  {
    var start, finish := TestStarted(i, selection[i].id, |selection|), TestFinished(i, selection[i].id, run(i).outcome);
    var progress := ExecutionProgress(|Successes(run, i + 1)|, |selection|);
    var failed: seq<Event> := if Fails(run, i) then [Log(TestFailed(i))] else [];
    MilestonesOfTwo(Log(Executing(i)), start);
    MilestonesOfTwo(finish, progress);
    MilestonesOfTwo(Log(TestFailed(i)), progress);
    NoMilestonesNoticed(run(i).notices);
    MilestonesJoinFour([Log(Executing(i)), start], Noticed(run(i).notices), failed, [finish, progress]);
  }

  lemma {:induction false} MilestonesOfTests(selection: seq<Test>, run: nat -> TestRun, n: nat)
    requires n <= |selection|
    ensures Milestones(EventsOfTests(selection, run, n)) == InTurn(run, n)
    decreases n
  {
    if n > 0 {
      MilestonesOfTests(selection, run, n - 1);
      MilestonesOfTest(selection, run, n - 1);
      MilestonesGrow(EventsOfTests(selection, run, n - 1), TestEvents(selection, run, n - 1), run, n);
    }
  }

  lemma {:induction false} MilestonesGrow(before: seq<Event>, last: seq<Event>, run: nat -> TestRun, n: nat)
    requires n > 0 && Milestones(before) == InTurn(run, n - 1)
    requires Milestones(last) == [Started(n - 1), Done(n - 1, Fails(run, n - 1))]
    ensures Milestones(before + last) == InTurn(run, n)
  {
    MilestonesJoin(before, last);
  }

  /** Every started test has completed or failed. */
  lemma {:induction false} StartedAddsUp(run: nat -> TestRun, n: nat)
    ensures |Successes(run, n)| + |Failures(run, n)| == n
    ensures |Failures(run, n)| == 0 <==> forall i | 0 <= i < n :: !Fails(run, i)
    decreases n
  {
    if n > 0 {
      StartedAddsUp(run, n - 1);
    }
  }

  predicate IsFinish(e: Event) {
    e.ExecutionFinished?
  }

  lemma {:induction false} TestsDoNotFinish(selection: seq<Test>, run: nat -> TestRun, n: nat)
    requires n <= |selection|
    ensures forall i | 0 <= i < |EventsOfTests(selection, run, n)| :: !IsFinish(EventsOfTests(selection, run, n)[i])
    decreases n
  {
    if n > 0 {
      TestsDoNotFinish(selection, run, n - 1);
      var before, last := EventsOfTests(selection, run, n - 1), TestEvents(selection, run, n - 1);
      assert forall i | 0 <= i < |last| :: !IsFinish(last[i]);
    }
  }

  /** The accounting of a run, for any tests, outcomes and target. */
  ghost predicate Accounted(trace: seq<Event>, rows: seq<TestRow>, suiteRow: SuiteRow, ran: nat,
                         run: nat -> TestRun) {
    // `execution_finished` comes last and only there
    && trace != [] && (forall i | 0 <= i < |trace| :: IsFinish(trace[i]) <==> i == |trace| - 1)
    // each started test finishes once, before the next starts
    && Milestones(trace) == InTurn(run, ran)
    // the totals add up, and the row of the suite says the same
    && var end := trace[|trace| - 1];
    && end.executed == |end.results| && end.results == suiteRow.results && end.status == suiteRow.status
    && (end.status == Success <==> end.errors == 0)
    // no row is left running
    && |rows| == ran && (forall i | 0 <= i < ran :: rows[i].status == if Fails(run, i) then Error else Success)
  }

  /** A trace made of events without milestones, the events of tests, and a closing event. */
  lemma {:induction false} TraceMilestones(
    opening: seq<Event>, selection: seq<Test>, run: nat -> TestRun, n: nat, log: Message, last: Event)
    requires n <= |selection| && Milestones(opening) == [] && IsFinish(last)
    ensures Milestones(opening + EventsOfTests(selection, run, n) + [Log(log), last]) == InTurn(run, n)
  {
    MilestonesOfTests(selection, run, n);
    MilestonesOfTwo(Log(log), last);
    ApartFromTests(opening, EventsOfTests(selection, run, n), [Log(log), last]);
  }

  lemma {:induction false} TraceFinishes(
    opening: seq<Event>, selection: seq<Test>, run: nat -> TestRun, n: nat, log: Message, last: Event)
    requires n <= |selection| && IsFinish(last)
    requires forall i | 0 <= i < |opening| :: !IsFinish(opening[i])
    ensures var trace := opening + EventsOfTests(selection, run, n) + [Log(log), last];
            forall i | 0 <= i < |trace| :: IsFinish(trace[i]) <==> i == |trace| - 1
  {
    TestsDoNotFinish(selection, run, n);
  }

  /** Every run of the executor is accounted for. Started tests are the first `ran` of the
      selection; they fall short of it only after an aborting failure; each has completed or
      failed; and the status is success exactly when the selection was found and nothing failed. */
  lemma {:induction false} RunsAreAccounted(
    selected: Result<seq<Test>, string>, run: nat -> TestRun,
    trace: seq<Event>, rows: seq<TestRow>, suiteRow: SuiteRow, ran: nat)
    requires Executed(selected, run, trace, rows, suiteRow, ran)
    ensures Accounted(trace, rows, suiteRow, ran, run)
    ensures selected.Raised? ==> ran == 0 && trace[|trace| - 1].errors == 1
    ensures selected.Ok? ==> StopsAt(selected.value, run, ran)
                             && trace[|trace| - 1].executed + trace[|trace| - 1].errors == ran
    ensures suiteRow.status == Success <==> selected.Ok? && forall i | 0 <= i < ran :: !Fails(run, i)
  {
    StartedAddsUp(run, ran);
    var total := if selected.Ok? then Some(|selected.value|) else None;
    OpeningIsQuiet(total);
    var last := trace[|trace| - 1];
    if selected.Raised? {
      assert Opening(total) + EventsOfTests([], run, 0) == Opening(total);
      TraceMilestones(Opening(total), [], run, 0, SuiteFailed, last);
      TraceFinishes(Opening(total), [], run, 0, SuiteFailed, last);
    } else {
      TraceMilestones(Opening(total), selected.value, run, ran, Finishing, last);
      TraceFinishes(Opening(total), selected.value, run, ran, Finishing, last);
    }
  }

  lemma {:induction false} OpeningIsQuiet(total: Option<nat>)
    ensures Milestones(Opening(total)) == []
    ensures forall i | 0 <= i < |Opening(total)| :: !IsFinish(Opening(total)[i])
  {
    var progress: Event := ExecutionProgress(0, if total.Some? then total.value else 0);
    MilestonesOfTwo(Log(Starting), ExecutionStarted);
    MilestonesOfTwo(progress, progress);
    MilestonesJoin([Log(Starting), ExecutionStarted], if total.Some? then [progress] else []);
  }
}
