/** The events of the executor as frames of the bus: a stream on an execution shows its whole
    trace and then ends. */
module StreamedExecution {
  import opened Prelude
  import opened PyText
  import opened SuiteExecutor
  import opened EventBus
  import opened EventBusLaws
  import opened ExecutionStream

  function EventName(e: SuiteExecutor.Event): string {
    match e
    case Log(_) => "execution_log"
    case ExecutionStarted => "execution_started"
    case ExecutionProgress(_, _) => "execution_progress"
    case TestStarted(_, _, _) => "test_started"
    case CommandFinished(_, _) => "command_finished"
    case TestFinished(_, _, _) => "test_finished"
    case ExecutionFinished(_, _, _, _, _, _) => FINISHED
  }

  lemma {:induction false} NamesDiffer(e: SuiteExecutor.Event)
    ensures ':' !in EventName(e) && '\n' !in EventName(e)
    ensures FINISHED <= EventName(e) <==> IsFinish(e)
  {
    assert FINISHED[0] == 'e' && FINISHED[10] == 'f';
    assert "execution_log"[10] == 'l' && "execution_started"[10] == 's' && "execution_progress"[10] == 'p';
    assert "test_started"[0] == 't' && "test_finished"[0] == 't' && "command_finished"[0] == 'c';
  }

  /** A rendering without raw line breaks, as JSON text is, of the events of a trace. */
  ghost predicate OneLine(trace: seq<SuiteExecutor.Event>, render: SuiteExecutor.Event -> string) {
    forall i | 0 <= i < |trace| :: '\n' !in render(trace[i])
  }

  /** No payload before the last quotes the end mark. */
  ghost predicate Quiet(trace: seq<SuiteExecutor.Event>, render: SuiteExecutor.Event -> string) {
    forall i | 0 <= i < |trace| - 1 :: !Occurs(END_MARK, render(trace[i]))
  }

  function FrameOf(e: SuiteExecutor.Event, render: SuiteExecutor.Event -> string): Frame {
    Frame(EventName(e), render(e))
  }

  function Frames(trace: seq<SuiteExecutor.Event>, render: SuiteExecutor.Event -> string): seq<Frame> {
    seq(|trace|, i requires 0 <= i < |trace| => FrameOf(trace[i], render))
  }

  /** The last frame of a run ends a stream, and it is the only one to do so exactly when no payload
      before it quotes the mark. */
  lemma {:induction false} LastFrameEnds(
    selected: Result<seq<Test>, string>, run: nat -> TestRun, trace: seq<SuiteExecutor.Event>,
    rows: seq<TestRow>, suiteRow: SuiteRow, ran: nat, render: SuiteExecutor.Event -> string)
    requires Executed(selected, run, trace, rows, suiteRow, ran) && OneLine(trace, render)
    ensures var frames := Frames(trace, render);
            && frames != [] && EndsStream(frames[|frames| - 1])
            && (EndsLast(frames) <==> Quiet(trace, render))
  {
    RunsAreAccounted(selected, run, trace, rows, suiteRow, ran);
    var frames := Frames(trace, render);
    forall i | 0 <= i < |frames|
      ensures EndsStream(frames[i]) <==> IsFinish(trace[i]) || Occurs(END_MARK, render(trace[i]))
    {
      NamesDiffer(trace[i]);
      EndTestExactly(frames[i]);
    }
    assert IsFinish(trace[|trace| - 1]);
  }

  /** While the executor publishes its trace, a subscriber who lost nothing has been shown it from
      the oldest frame of its history on, without gaps, and its stream has ended exactly when it has
      been shown the rest of it. */
  lemma {:induction false} StreamShowsExecution(
    selected: Result<seq<Test>, string>, run: nat -> TestRun, trace: seq<SuiteExecutor.Event>,
    rows: seq<TestRow>, suiteRow: SuiteRow, ran: nat, render: SuiteExecutor.Event -> string,
    steps: seq<Step>, s: nat, p: nat, gets: seq<Option<Frame>>)
    requires Executed(selected, run, trace, rows, suiteRow, ran) && OneLine(trace, render) && Quiet(trace, render)
    requires Solo(steps, p) && Run(EMPTY, steps).published <= Frames(trace, render)
    requires Streams(Run(EMPTY, steps), s, gets) && Run(EMPTY, steps).subscribers[s].dropped == []
    ensures var b, frames := Run(EMPTY, steps), Frames(trace, render);
            var shown, from := Delivered(Named(b, b.subscribers[s].snapshot), gets), First(b.subscribers[s]);
            && DeliversRun(b, s, gets)
            && from + |shown| <= |frames| && shown == frames[from..from + |shown|]
            && (AnyEnds(Named(b, b.subscribers[s].snapshot) + Arrived(gets)) <==> shown != [] && shown == frames[from..])
  {
    var b, frames := Run(EMPTY, steps), Frames(trace, render);
    LastFrameEnds(selected, run, trace, rows, suiteRow, ran, render);
    assert forall i | 0 <= i < |b.published| :: b.published[i] == frames[i];
    StreamOverRuns(steps, s, p, gets);
    ShownUntilEnd(b, s, gets, frames);
  }

  lemma {:induction false} ShownUntilEnd(b: Bus, s: nat, gets: seq<Option<Frame>>, frames: seq<Frame>)
    requires s in b.subscribers && DeliversRun(b, s, gets) && b.published <= frames
    requires frames != [] && EndsStream(frames[|frames| - 1]) && EndsLast(frames)
    ensures var shown, from := Delivered(Named(b, b.subscribers[s].snapshot), gets), First(b.subscribers[s]);
            && from + |shown| <= |frames| && shown == frames[from..from + |shown|]
            && (AnyEnds(Named(b, b.subscribers[s].snapshot) + Arrived(gets)) <==> shown != [] && shown == frames[from..])
  {
    var sub, n := b.subscribers[s], |b.published|;
    var from, to := First(sub), First(sub) + |Seen(sub)|;
    assert frames[from..to] == b.published[from..to];
    if from < to == n && EndsStream(b.published[to - 1]) {
      assert frames[n - 1] == b.published[n - 1] && n == |frames|;
      assert frames[from..] == frames[from..to];
    }
    if from < to && frames[from..to] == frames[from..] {
      assert to == n == |frames| && b.published == frames;
    }
  }
}
