/** What the events of an execution report: the verdicts of the tests, the totals at every moment,
    the notices of their commands, and the rows that say the same. */
module ExecutorReports {
  import opened Prelude
  import opened PyValues
  import opened SuiteExecutor

  /** A test's verdict: its place, its id, and its result or message. */
  datatype Verdict = Verdict(test: nat, id: string, outcome: Result<Value, string>)

  function VerdictsIn(trace: seq<Event>): seq<Verdict> {
    if trace == [] then [] else VerdictsIn(trace[..|trace| - 1]) + VerdictOf(trace[|trace| - 1])
  }

  function VerdictOf(e: Event): seq<Verdict> {
    match e
    case TestFinished(i, id, outcome) => [Verdict(i, id, outcome)]
    case _ => []
  }

  /** The results of the verdicts that have one, in order. */
  function Results(verdicts: seq<Verdict>): seq<Value> {
    if verdicts == [] then []
    else
      Results(verdicts[..|verdicts| - 1])
      + (match verdicts[|verdicts| - 1].outcome case Ok(v) => [v] case Raised(_) => [])
  }

  function Messages(verdicts: seq<Verdict>): seq<string> {
    if verdicts == [] then []
    else
      Messages(verdicts[..|verdicts| - 1])
      + (match verdicts[|verdicts| - 1].outcome case Ok(_) => [] case Raised(m) => [m])
  }

  /** What commands and log lines say while tests run. */
  function NoticesIn(trace: seq<Event>): seq<Notice> {
    if trace == [] then [] else NoticesIn(trace[..|trace| - 1]) + NoticeOf(trace[|trace| - 1])
  }

  function NoticeOf(e: Event): seq<Notice> {
    match e
    case Log(Said(text)) => [Line(text)]
    case CommandFinished(id, outcome) => [Command(id, outcome)]
    case _ => []
  }

  /** The verdicts and notices of the first n tests. */
  function VerdictsOf(selection: seq<Test>, run: nat -> TestRun, n: nat): seq<Verdict>
    requires n <= |selection|
  {
    seq(n, i requires 0 <= i < n => Verdict(i, selection[i].id, run(i).outcome))
  }

  function NoticesOf(run: nat -> TestRun, n: nat): seq<Notice> {
    if n == 0 then [] else NoticesOf(run, n - 1) + run(n - 1).notices
  }

  /** Each progress event counts the tests completed before it. */
  predicate ProgressTells(trace: seq<Event>, total: nat) {
    forall i | 0 <= i < |trace| && trace[i].ExecutionProgress? ::
      trace[i].executed == |Results(VerdictsIn(trace[..i]))| && trace[i].total == total
  }

  // ----- Joining -----

  /** The events report these verdicts and these notices. */
  predicate Reports(events: seq<Event>, verdicts: seq<Verdict>, notices: seq<Notice>) {
    VerdictsIn(events) == verdicts && NoticesIn(events) == notices
  }

  lemma {:induction false} VerdictsJoin(a: seq<Event>, b: seq<Event>)
    ensures VerdictsIn(a + b) == VerdictsIn(a) + VerdictsIn(b)
    decreases |b|
  {
    if b == [] {
      assert a + b == a;
    } else {
      assert (a + b)[..|a + b| - 1] == a + b[..|b| - 1];
      VerdictsJoin(a, b[..|b| - 1]);
    }
  }

  lemma {:induction false} NoticesJoin(a: seq<Event>, b: seq<Event>)
    ensures NoticesIn(a + b) == NoticesIn(a) + NoticesIn(b)
    decreases |b|
  {
    if b == [] {
      assert a + b == a;
    } else {
      assert (a + b)[..|a + b| - 1] == a + b[..|b| - 1];
      NoticesJoin(a, b[..|b| - 1]);
    }
  }

  lemma {:induction false} ReportsJoin(
    a: seq<Event>, va: seq<Verdict>, na: seq<Notice>, b: seq<Event>, vb: seq<Verdict>, nb: seq<Notice>)
    requires Reports(a, va, na) && Reports(b, vb, nb)
    ensures Reports(a + b, va + vb, na + nb)
  {
    VerdictsJoin(a, b);
    NoticesJoin(a, b);
  }

  /** Events that report nothing, put after or before others. */
  lemma {:induction false} SilenceAfter(a: seq<Event>, v: seq<Verdict>, n: seq<Notice>, b: seq<Event>)
    requires Reports(a, v, n) && Reports(b, [], [])
    ensures Reports(a + b, v, n)
  {
    ReportsJoin(a, v, n, b, [], []);
    assert v + [] == v && n + [] == n;
  }

  lemma {:induction false} SilenceBefore(a: seq<Event>, b: seq<Event>, v: seq<Verdict>, n: seq<Notice>)
    requires Reports(a, [], []) && Reports(b, v, n)
    ensures Reports(a + b, v, n)
  {
    ReportsJoin(a, [], [], b, v, n);
    assert [] + v == v && [] + n == n;
  }

  lemma {:induction false} OneEvent(e: Event)
    ensures Reports([e], VerdictOf(e), NoticeOf(e))
  {
    assert [e][..0] == [] && VerdictsIn([]) == [] && NoticesIn([]) == [];
    assert [] + VerdictOf(e) == VerdictOf(e) && [] + NoticeOf(e) == NoticeOf(e);
  }

  lemma {:induction false} TwoEvents(e: Event, f: Event)
    ensures Reports([e, f], VerdictOf(e) + VerdictOf(f), NoticeOf(e) + NoticeOf(f))
  {
    assert [e, f] == [e] + [f];
    OneEvent(e);
    OneEvent(f);
    ReportsJoin([e], VerdictOf(e), NoticeOf(e), [f], VerdictOf(f), NoticeOf(f));
  }

  lemma {:induction false} NoticeIsTold(n: Notice)
    ensures VerdictOf(EventOf(n)) == [] && NoticeOf(EventOf(n)) == [n]
  {
  }

  lemma {:induction false} NoticesAreTold(notices: seq<Notice>)
    ensures Reports(Noticed(notices), [], notices)
    decreases |notices|
  {
    if notices == [] {
      assert Noticed(notices) == [];
    } else {
      var init, last := notices[..|notices| - 1], notices[|notices| - 1];
      NoticesAreTold(init);
      NoticeIsTold(last);
      OneEvent(EventOf(last));
      var none: seq<Verdict> := [];
      ReportsJoin(Noticed(init), none, init, [EventOf(last)], none, [last]);
      assert Noticed(notices) == Noticed(init) + [EventOf(last)] && notices == init + [last] && none + none == none;
    }
  }

  // ----- One test -----

  /** The events of a test before its verdict, and those from it on. */
  function EventsBefore(selection: seq<Test>, run: nat -> TestRun, i: nat): seq<Event>
    requires i < |selection|
  {
    StartEvents(selection, i) + Noticed(run(i).notices) + Trouble(run, i)
  }

  function StartEvents(selection: seq<Test>, i: nat): seq<Event>
    requires i < |selection|
  {
    [Log(Executing(i)), TestStarted(i, selection[i].id, |selection|)]
  }

  function Trouble(run: nat -> TestRun, i: nat): seq<Event> {
    if Fails(run, i) then [Log(TestFailed(i))] else []
  }

  function EventsAfter(selection: seq<Test>, run: nat -> TestRun, i: nat): seq<Event>
    requires i < |selection|
  {
    [TestFinished(i, selection[i].id, run(i).outcome), ExecutionProgress(|Successes(run, i + 1)|, |selection|)]
  }

  lemma {:induction false} StartIsSilent(selection: seq<Test>, run: nat -> TestRun, i: nat)
    requires i < |selection|
    ensures Reports(StartEvents(selection, i), [], []) && Reports(Trouble(run, i), [], [])
  {
    TwoEvents(Log(Executing(i)), TestStarted(i, selection[i].id, |selection|));
    OneEvent(Log(TestFailed(i)));
  }

  lemma {:induction false} BeforeReports(selection: seq<Test>, run: nat -> TestRun, i: nat)
    requires i < |selection|
    ensures Reports(EventsBefore(selection, run, i), [], run(i).notices)
  {
    StartIsSilent(selection, run, i);
    NoticesAreTold(run(i).notices);
    SilenceBefore(StartEvents(selection, i), Noticed(run(i).notices), [], run(i).notices);
    SilenceAfter(StartEvents(selection, i) + Noticed(run(i).notices), [], run(i).notices, Trouble(run, i));
  }

  lemma {:induction false} AfterReports(selection: seq<Test>, run: nat -> TestRun, i: nat)
    requires i < |selection|
    ensures Reports(EventsAfter(selection, run, i), [Verdict(i, selection[i].id, run(i).outcome)], [])
  {
    var finish, progress := TestFinished(i, selection[i].id, run(i).outcome),
                            ExecutionProgress(|Successes(run, i + 1)|, |selection|);
    TwoEvents(finish, progress);
    assert VerdictOf(finish) + VerdictOf(progress) == [Verdict(i, selection[i].id, run(i).outcome)];
    assert NoticeOf(finish) + NoticeOf(progress) == [];
  }

  lemma {:induction false} TestSplits(selection: seq<Test>, run: nat -> TestRun, i: nat)
    requires i < |selection|
    ensures TestEvents(selection, run, i) == EventsBefore(selection, run, i) + EventsAfter(selection, run, i)
  {
  }

  lemma {:induction false} TestReports(selection: seq<Test>, run: nat -> TestRun, i: nat)
    requires i < |selection|
    ensures Reports(TestEvents(selection, run, i), [Verdict(i, selection[i].id, run(i).outcome)], run(i).notices)
  {
    var verdict := [Verdict(i, selection[i].id, run(i).outcome)];
    BeforeReports(selection, run, i);
    AfterReports(selection, run, i);
    ReportsJoin(EventsBefore(selection, run, i), [], run(i).notices, EventsAfter(selection, run, i), verdict, []);
    TestSplits(selection, run, i);
    assert [] + verdict == verdict && run(i).notices + [] == run(i).notices;
  }

  // ----- All tests -----

  lemma {:induction false} VerdictsGrow(selection: seq<Test>, run: nat -> TestRun, n: nat)
    requires n < |selection|
    ensures VerdictsOf(selection, run, n + 1)
         == VerdictsOf(selection, run, n) + [Verdict(n, selection[n].id, run(n).outcome)]
  {
  }

  /** One test later. */
  lemma {:induction false} TestsReportStep(selection: seq<Test>, run: nat -> TestRun, n: nat, before: seq<Event>)
    requires n < |selection| && Reports(before, VerdictsOf(selection, run, n), NoticesOf(run, n))
    ensures Reports(before + TestEvents(selection, run, n), VerdictsOf(selection, run, n + 1), NoticesOf(run, n + 1))
  {
    var verdict := [Verdict(n, selection[n].id, run(n).outcome)];
    TestReports(selection, run, n);
    VerdictsGrow(selection, run, n);
    ReportsJoin(before, VerdictsOf(selection, run, n), NoticesOf(run, n),
                TestEvents(selection, run, n), verdict, run(n).notices);
  }

  lemma {:induction false} TestsReport(selection: seq<Test>, run: nat -> TestRun, n: nat)
    requires n <= |selection|
    ensures Reports(EventsOfTests(selection, run, n), VerdictsOf(selection, run, n), NoticesOf(run, n))
    decreases n
  {
    if n > 0 {
      TestsReport(selection, run, n - 1);
      TestsReportStep(selection, run, n - 1, EventsOfTests(selection, run, n - 1));
    }
  }

  /** The successes and failures are those of the verdicts. */
  lemma {:induction false} TotalsAreTold(selection: seq<Test>, run: nat -> TestRun, n: nat)
    requires n <= |selection|
    ensures Results(VerdictsOf(selection, run, n)) == Successes(run, n)
    ensures Messages(VerdictsOf(selection, run, n)) == Failures(run, n)
    decreases n
  {
    if n > 0 {
      TotalsAreTold(selection, run, n - 1);
      var all := VerdictsOf(selection, run, n);
      assert all[..n - 1] == VerdictsOf(selection, run, n - 1);
    }
  }

  // ----- Progress -----

  predicate NoProgress(events: seq<Event>) {
    forall i | 0 <= i < |events| :: !events[i].ExecutionProgress?
  }

  lemma {:induction false} ProgressGrows(trace: seq<Event>, more: seq<Event>, total: nat)
    requires ProgressTells(trace, total)
    requires forall i | 0 <= i < |more| && more[i].ExecutionProgress? ::
               more[i].executed == |Results(VerdictsIn(trace + more[..i]))| && more[i].total == total
    ensures ProgressTells(trace + more, total)
  {
    var all := trace + more;
    forall i | 0 <= i < |all| && all[i].ExecutionProgress?
      ensures all[i].executed == |Results(VerdictsIn(all[..i]))| && all[i].total == total
    {
      if i < |trace| {
        assert all[..i] == trace[..i];
      } else {
        assert all[..i] == trace + more[..i - |trace|];
      }
    }
  }

  /** One more progress event, which counts what is reported before it. */
  lemma {:induction false} LastTells(trace: seq<Event>, last: Event, total: nat)
    requires ProgressTells(trace, total)
    requires last == ExecutionProgress(|Results(VerdictsIn(trace))|, total)
    ensures ProgressTells(trace + [last], total)
  {
    assert trace + [last][..0] == trace;
    ProgressGrows(trace, [last], total);
  }

  lemma {:induction false} SilentProgress(trace: seq<Event>, more: seq<Event>, total: nat)
    requires ProgressTells(trace, total) && NoProgress(more)
    ensures ProgressTells(trace + more, total)
  {
    ProgressGrows(trace, more, total);
  }

  /** The events of a test up to its verdict. */
  function EventsToVerdict(selection: seq<Test>, run: nat -> TestRun, i: nat): seq<Event>
    requires i < |selection|
  {
    EventsBefore(selection, run, i) + [TestFinished(i, selection[i].id, run(i).outcome)]
  }

  lemma {:induction false} ToVerdict(selection: seq<Test>, run: nat -> TestRun, i: nat)
    requires i < |selection|
    ensures NoProgress(EventsToVerdict(selection, run, i))
    ensures TestEvents(selection, run, i)
         == EventsToVerdict(selection, run, i) + [ExecutionProgress(|Successes(run, i + 1)|, |selection|)]
  {
    TestSplits(selection, run, i);
    assert NoProgress(EventsBefore(selection, run, i));
  }

  lemma {:induction false} ToVerdictReports(selection: seq<Test>, run: nat -> TestRun, n: nat, trace: seq<Event>)
    requires n < |selection| && VerdictsIn(trace) == VerdictsOf(selection, run, n)
    ensures VerdictsIn(trace + EventsToVerdict(selection, run, n)) == VerdictsOf(selection, run, n + 1)
  {
    var finish := TestFinished(n, selection[n].id, run(n).outcome);
    BeforeReports(selection, run, n);
    OneEvent(finish);
    VerdictsJoin(EventsBefore(selection, run, n), [finish]);
    VerdictsJoin(trace, EventsToVerdict(selection, run, n));
    assert [] + VerdictOf(finish) == [Verdict(n, selection[n].id, run(n).outcome)];
    VerdictsGrow(selection, run, n);
  }

  lemma {:induction false} JoinsEitherWay(a: seq<Event>, b: seq<Event>, c: seq<Event>)
    ensures a + (b + c) == a + b + c
  {
  }

  /** One test's progress event, its last, counts it if it completed. */
  lemma {:induction false} TestProgress(selection: seq<Test>, run: nat -> TestRun, n: nat, trace: seq<Event>)
    requires n < |selection| && ProgressTells(trace, |selection|) && VerdictsIn(trace) == VerdictsOf(selection, run, n)
    ensures ProgressTells(trace + TestEvents(selection, run, n), |selection|)
  {
    var body, last := EventsToVerdict(selection, run, n), ExecutionProgress(|Successes(run, n + 1)|, |selection|);
    ToVerdict(selection, run, n);
    ToVerdictReports(selection, run, n, trace);
    TotalsAreTold(selection, run, n + 1);
    BodyAndLast(trace, body, last, |selection|);
  }

  lemma {:induction false} BodyAndLast(trace: seq<Event>, body: seq<Event>, last: Event, total: nat)
    requires ProgressTells(trace, total) && NoProgress(body)
    requires last == ExecutionProgress(|Results(VerdictsIn(trace + body))|, total)
    ensures ProgressTells(trace + (body + [last]), total)
  {
    SilentProgress(trace, body, total);
    LastTells(trace + body, last, total);
    JoinsEitherWay(trace, body, [last]);
  }

  lemma {:induction false} TestsProgressStep(
    selection: seq<Test>, run: nat -> TestRun, n: nat, opening: seq<Event>, tests: seq<Event>)
    requires n < |selection| && Reports(opening, [], [])
    requires Reports(tests, VerdictsOf(selection, run, n), NoticesOf(run, n)) && ProgressTells(opening + tests, |selection|)
    ensures ProgressTells(opening + (tests + TestEvents(selection, run, n)), |selection|)
  {
    SilenceBefore(opening, tests, VerdictsOf(selection, run, n), NoticesOf(run, n));
    TestProgress(selection, run, n, opening + tests);
    JoinsEitherWay(opening, tests, TestEvents(selection, run, n));
  }

  lemma {:induction false} TestsProgress(selection: seq<Test>, run: nat -> TestRun, n: nat, opening: seq<Event>)
    requires n <= |selection| && ProgressTells(opening, |selection|) && Reports(opening, [], [])
    ensures ProgressTells(opening + EventsOfTests(selection, run, n), |selection|)
    decreases n
  {
    if n == 0 {
      assert opening + [] == opening;
    } else {
      TestsProgress(selection, run, n - 1, opening);
      TestsReport(selection, run, n - 1);
      TestsProgressStep(selection, run, n - 1, opening, EventsOfTests(selection, run, n - 1));
    }
  }

  // ----- The whole execution -----

  lemma {:induction false} OpeningReports(total: nat)
    ensures Reports(Opening(Some(total)), [], []) && ProgressTells(Opening(Some(total)), total)
  {
    var opening: seq<Event> := [Log(Starting), ExecutionStarted];
    TwoEvents(opening[0], opening[1]);
    OneEvent(ExecutionProgress(0, total));
    SilenceAfter(opening, [], [], [ExecutionProgress(0, total)]);
    LastTells(opening, ExecutionProgress(0, total), total);
  }

  /** An execution of a selection reports: one verdict for each test started, in order, with its id
      and outcome; everything its commands published, in order; at every progress event the number
      of tests completed so far; and at the end the results, the number of failures and the first
      message that is not empty, which the rows repeat. */
  lemma {:induction false} ExecutionReports(
    selection: seq<Test>, run: nat -> TestRun, trace: seq<Event>, rows: seq<TestRow>, suiteRow: SuiteRow, ran: nat)
    requires Executed(Ok(selection), run, trace, rows, suiteRow, ran)
    ensures Reports(trace, VerdictsOf(selection, run, ran), NoticesOf(run, ran)) && ProgressTells(trace, |selection|)
    ensures var verdicts, end := VerdictsOf(selection, run, ran), trace[|trace| - 1];
            && end.ExecutionFinished? && end.total == |selection|
            && end.results == suiteRow.results == Results(verdicts) && end.errors == |Messages(verdicts)|
            && end.error == FirstMessage(Messages(verdicts))
            && suiteRow.error == (if end.error == "" then None else Some(end.error))
    ensures |rows| == ran && forall i | 0 <= i < ran ::
              rows[i].id == selection[i].id
              && rows[i].error == match run(i).outcome case Ok(_) => None case Raised(m) => Some(m)
  {
    var opening, tests := Opening(Some(|selection|)), EventsOfTests(selection, run, ran);
    var verdicts, notices := VerdictsOf(selection, run, ran), NoticesOf(run, ran);
    OpeningReports(|selection|);
    TestsReport(selection, run, ran);
    SilenceBefore(opening, tests, verdicts, notices);
    TestsProgress(selection, run, ran, opening);
    TotalsAreTold(selection, run, ran);
    ClosingReports(opening + tests, verdicts, notices, trace[|trace| - 1], |selection|);
    assert trace == opening + tests + [Log(Finishing), trace[|trace| - 1]];
  }

  lemma {:induction false} ClosingReports(
    before: seq<Event>, verdicts: seq<Verdict>, notices: seq<Notice>, end: Event, total: nat)
    requires end.ExecutionFinished? && Reports(before, verdicts, notices) && ProgressTells(before, total)
    ensures Reports(before + [Log(Finishing), end], verdicts, notices)
    ensures ProgressTells(before + [Log(Finishing), end], total)
  {
    TwoEvents(Log(Finishing), end);
    SilenceAfter(before, verdicts, notices, [Log(Finishing), end]);
    ProgressGrows(before, [Log(Finishing), end], total);
  }

  /** The first message that is not empty: none before it is anything but empty. */
  lemma {:induction false} FirstMessageExactly(messages: seq<string>)
    ensures FirstMessage(messages) == "" <==> forall i | 0 <= i < |messages| :: messages[i] == ""
    ensures FirstMessage(messages) != "" ==>
              exists k | 0 <= k < |messages| ::
                messages[k] == FirstMessage(messages) && forall i | 0 <= i < k :: messages[i] == ""
    decreases |messages|
  {
    if messages != [] {
      FirstMessageExactly(messages[1..]);
      assert messages == [messages[0]] + messages[1..];
      if messages[0] == "" && FirstMessage(messages) != "" {
        var k :| 0 <= k < |messages[1..]| && messages[1..][k] == FirstMessage(messages)
                 && forall i | 0 <= i < k :: messages[1..][i] == "";
        assert messages[k + 1] == FirstMessage(messages);
        assert forall i | 0 < i < k + 1 :: messages[i] == messages[1..][i - 1];
      }
    }
  }
}
