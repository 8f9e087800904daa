/** When frames are queued and when they are dropped: a put appends to a queue that has room, and
    a frame is lost only to a full one. Subscribers whose queues never fill lose nothing. */
module EventBusDrops {
  import opened Prelude
  import opened EventBus
  import opened EventBusLaws
  import opened ExecutionStream
  import opened StreamedExecution
  import opened SuiteExecutor

  // ----- One put -----

  /** A put to a subscriber with fewer than 1000 waiting frames leaves the frame last in its queue and
      drops nothing; to a full one it drops the frame. Nothing else about any subscriber changes. */
  lemma {:induction false} PutExactly(b: Bus, p: nat, s: nat)
    requires p in b.inFlight && b.inFlight[p].owed != [] && b.inFlight[p].owed[0] in b.subscribers
    requires s in b.subscribers
    ensures Next(b, Put(p)).Some? && s in Next(b, Put(p)).value.subscribers
    ensures var sub, sub', n := b.subscribers[s], Next(b, Put(p)).value.subscribers[s], b.inFlight[p].number;
            && sub'.consumed == sub.consumed && sub'.snapshot == sub.snapshot
            && sub'.joined == sub.joined && sub'.left == sub.left
            && if s != b.inFlight[p].owed[0] then sub' == sub
               else if |sub.queue| < 1000 then sub'.queue == sub.queue + [n] && sub'.dropped == sub.dropped
               else sub'.queue == sub.queue && sub'.dropped == sub.dropped + [n]
  {
  }

  /** A publication is numbered by its place, and owed to the subscribers registered at that moment. */
  lemma {:induction false} PublishExactly(b: Bus, p: nat, frame: Frame)
    requires p !in b.inFlight
    ensures Next(b, Publish(p, frame)).Some?
    ensures var b' := Next(b, Publish(p, frame)).value;
            && b'.published == b.published + [frame] && b'.subscribers == b.subscribers
            && b'.inFlight.Keys == b.inFlight.Keys + {p}
            && b'.inFlight[p].number == |b.published| && b'.inFlight[p].owed == b.registered
            && forall q | q in b.inFlight :: b'.inFlight[q] == b.inFlight[q]
  {
  }

  // ----- Whole runs -----

  /** The i-th step of a run drops the frame n for the subscriber s: it is a put of n to s, whose
      queue holds 1000 frames. */
  predicate DropsAt(steps: seq<Step>, i: nat, s: nat, n: nat)
    requires i < |steps|
  {
    var b := Run(EMPTY, steps[..i]);
    && steps[i].Put? && steps[i].publisher in b.inFlight && s in b.subscribers
    && b.inFlight[steps[i].publisher].owed != [] && b.inFlight[steps[i].publisher].owed[0] == s
    && b.inFlight[steps[i].publisher].number == n && |b.subscribers[s].queue| >= 1000
  }

  lemma {:induction false} RunAppend(b: Bus, a: seq<Step>, c: seq<Step>)
    ensures Run(b, a + c) == Run(Run(b, a), c)
    decreases |a|
  {
    if a == [] {
      assert a + c == c;
    } else {
      assert (a + c)[1..] == a[1..] + c;
      match Next(b, a[0])
      case None => RunAppend(b, a[1..], c);
      case Some(next) => RunAppend(next, a[1..], c);
    }
  }

  lemma {:induction false} RunGrows(b: Bus, steps: seq<Step>, step: Step)
    ensures Run(b, steps + [step]) ==
            match Next(Run(b, steps), step)
            case None => Run(b, steps)
            case Some(next) => next
  {
    RunAppend(b, steps, [step]);
    assert [step][1..] == [];
  }

  /** The frame a step publishes, if any: a publisher makes no publication while it still has puts to
      do. */
  function FrameMade(b: Bus, step: Step): seq<Frame> {
    if step.Publish? && step.publisher !in b.inFlight then [step.frame] else []
  }

  /** The frames of the publications that were made, in order. */
  function FramesMade(steps: seq<Step>): seq<Frame> {
    if steps == [] then []
    else FramesMade(steps[..|steps| - 1]) + FrameMade(Run(EMPTY, steps[..|steps| - 1]), steps[|steps| - 1])
  }

  lemma {:induction false} StepPublishes(b: Bus, step: Step)
    ensures (match Next(b, step) case None => b case Some(next) => next).published == b.published + FrameMade(b, step)
  {
  }

  /** In every run the published frames are those, as they were given. */
  lemma {:induction false} PublishedExactly(steps: seq<Step>)
    ensures Run(EMPTY, steps).published == FramesMade(steps)
    decreases |steps|
  {
    if steps != [] {
      var init, step := steps[..|steps| - 1], steps[|steps| - 1];
      PublishedExactly(init);
      RunGrows(EMPTY, init, step);
      StepPublishes(Run(EMPTY, init), step);
      assert steps == init + [step];
    }
  }

  /** One step more drops a frame only if it is a put into a full queue. */
  lemma {:induction false} StepDrops(b: Bus, step: Step, s: nat, n: nat)
    requires Next(b, step).Some? && s in Next(b, step).value.subscribers
    requires n in Next(b, step).value.subscribers[s].dropped
    ensures s in b.subscribers
    ensures n in b.subscribers[s].dropped
         || (step.Put? && step.publisher in b.inFlight && b.inFlight[step.publisher].owed != []
             && b.inFlight[step.publisher].owed[0] == s && b.inFlight[step.publisher].number == n
             && |b.subscribers[s].queue| >= 1000)
  {
  }

  lemma {:induction false} PrefixDrops(steps: seq<Step>, step: Step, i: nat, s: nat, n: nat)
    requires i < |steps| && DropsAt(steps, i, s, n)
    ensures DropsAt(steps + [step], i, s, n)
  {
    assert (steps + [step])[..i] == steps[..i];
  }

  /** In every run a frame is dropped for a subscriber only at a put into its full queue. */
  lemma {:induction false} DroppedOnlyWhenFull(steps: seq<Step>, s: nat, n: nat)
    requires s in Run(EMPTY, steps).subscribers && n in Run(EMPTY, steps).subscribers[s].dropped
    ensures exists i | 0 <= i < |steps| :: DropsAt(steps, i, s, n)
    decreases |steps|
  {
    if steps != [] {
      var init, step := steps[..|steps| - 1], steps[|steps| - 1];
      assert steps == init + [step];
      var b := Run(EMPTY, init);
      RunGrows(EMPTY, init, step);
      if Next(b, step).Some? {
        StepDrops(b, step, s, n);
      }
      if n in b.subscribers[s].dropped {
        DroppedOnlyWhenFull(init, s, n);
        var i :| 0 <= i < |init| && DropsAt(init, i, s, n);
        PrefixDrops(init, step, i, s, n);
      } else {
        assert steps[..|init|] == init;
        assert DropsAt(steps, |init|, s, n);
      }
    }
  }

  /** At no moment of the run does the subscriber's queue hold 1000 frames. */
  predicate NeverFull(steps: seq<Step>, s: nat) {
    forall i | 0 <= i <= |steps| ::
      s in Run(EMPTY, steps[..i]).subscribers ==> |Run(EMPTY, steps[..i]).subscribers[s].queue| < 1000
  }

  /** A subscriber whose queue never fills loses nothing. */
  lemma {:induction false} NeverFullLosesNothing(steps: seq<Step>, s: nat)
    requires s in Run(EMPTY, steps).subscribers && NeverFull(steps, s)
    ensures Run(EMPTY, steps).subscribers[s].dropped == []
  {
    var dropped := Run(EMPTY, steps).subscribers[s].dropped;
    forall i, n | 0 <= i < |steps| ensures !DropsAt(steps, i, s, n) {
    }
    if dropped != [] {
      DroppedOnlyWhenFull(steps, s, dropped[0]);
    }
  }

  /** In every run the history is the last 500 frames published, and a snapshot the history at the
      moment its subscriber joined. */
  lemma {:induction false} HistoryExactly(steps: seq<Step>, s: nat)
    ensures var b := Run(EMPTY, steps);
            b.history == Range(if |b.published| <= 500 then 0 else |b.published| - 500, |b.published|)
    ensures var b := Run(EMPTY, steps);
            s in b.subscribers ==>
              var joined := b.subscribers[s].joined;
              b.subscribers[s].snapshot == Range(if joined <= 500 then 0 else joined - 500, joined)
  {
    RunKeeps(EMPTY, steps);
    var b := Run(EMPTY, steps);
    assert HistoryRecent(b) && (s in b.subscribers ==> SubscriberSane(b, s));
  }

  // ----- Streams -----

  /** A stream whose queue never fills has delivered the published frames without a gap. */
  lemma {:induction false} UnfilledStreamDelivers(steps: seq<Step>, s: nat, p: nat, gets: seq<Option<Frame>>)
    requires Solo(steps, p) && Streams(Run(EMPTY, steps), s, gets) && EndsLast(Run(EMPTY, steps).published)
    requires NeverFull(steps, s)
    ensures DeliversRun(Run(EMPTY, steps), s, gets)
  {
    NeverFullLosesNothing(steps, s);
    StreamOverRuns(steps, s, p, gets);
  }

  /** With one publisher between two publications, a subscriber who has not left and whose queue never
      filled holds or has consumed every frame published since it joined, in order. */
  lemma {:induction false} UnfilledIsServed(steps: seq<Step>, s: nat, p: nat)
    requires Solo(steps, p) && s in Run(EMPTY, steps).subscribers && NeverFull(steps, s)
    requires p !in Run(EMPTY, steps).inFlight && Run(EMPTY, steps).subscribers[s].left.None?
    ensures var b := Run(EMPTY, steps);
            var sub := b.subscribers[s];
            sub.joined <= |b.published| && sub.consumed + sub.queue == Range(sub.joined, |b.published|)
  {
    NeverFullLosesNothing(steps, s);
    EmptyIsOrderly(p);
    SoloKeeps(EMPTY, steps, p);
    assert InOrderFor(Run(EMPTY, steps), s, p);
  }

  /** Once the frame that ends the execution has been published and put, as many gets as frames are
      waiting end the stream, whatever other threads do. */
  lemma {:induction false} UnfilledStreamEnds(
    steps: seq<Step>, more: seq<Step>, s: nat, p: nat, gets: seq<Option<Frame>>)
    requires Solo(steps, p) && s in Run(EMPTY, steps).subscribers && NeverFull(steps, s)
    requires p !in Run(EMPTY, steps).inFlight && Run(EMPTY, steps).subscribers[s].left.None?
    requires var published := Run(EMPTY, steps).published;
             |published| > Run(EMPTY, steps).subscribers[s].joined && EndsStream(published[|published| - 1])
    requires Gets(more, s) >= |Run(EMPTY, steps).subscribers[s].queue|
    requires Streams(Run(EMPTY, steps + more), s, gets)
    ensures AnyEnds(Arrived(gets))
  {
    var b := Run(EMPTY, steps);
    var sub, last := b.subscribers[s], |b.published| - 1;
    UnfilledIsServed(steps, s, p);
    RunAppend(EMPTY, steps, more);
    var all := sub.consumed + sub.queue;
    assert all[|all| - 1] == last;
    if sub.queue == [] {
      assert sub.consumed == all;
      LastConsumedEnds(b, more, s, gets);
    } else {
      assert sub.queue[|sub.queue| - 1] == all[|all| - 1];
      StreamEnds(b, more, s, |sub.queue| - 1, gets);
    }
  }

  lemma {:induction false} LastConsumedEnds(b: Bus, more: seq<Step>, s: nat, gets: seq<Option<Frame>>)
    requires s in b.subscribers && b.subscribers[s].consumed != []
    requires var n := b.subscribers[s].consumed[|b.subscribers[s].consumed| - 1];
             n < |b.published| && EndsStream(b.published[n])
    requires Streams(Run(b, more), s, gets)
    ensures AnyEnds(Arrived(gets))
  {
    var n := b.subscribers[s].consumed[|b.subscribers[s].consumed| - 1];
    ConsumedStays(b, more, s, n);
    PublishedGrows(b, more);
    var after := Run(b, more);
    var k :| 0 <= k < |after.subscribers[s].consumed| && after.subscribers[s].consumed[k] == n;
    assert Arrived(gets)[k] == after.published[n] == b.published[n];
  }

  /** A subscriber whose queue never fills is shown the executor's trace without a gap, and its
      stream ends exactly with the last of it. */
  lemma {:induction false} UnfilledStreamShowsExecution(
    selected: Result<seq<Test>, string>, run: nat -> TestRun, trace: seq<SuiteExecutor.Event>,
    rows: seq<TestRow>, suiteRow: SuiteRow, ran: nat, render: SuiteExecutor.Event -> string,
    steps: seq<Step>, s: nat, p: nat, gets: seq<Option<Frame>>)
    requires Executed(selected, run, trace, rows, suiteRow, ran) && OneLine(trace, render) && Quiet(trace, render)
    requires Solo(steps, p) && Run(EMPTY, steps).published <= Frames(trace, render)
    requires Streams(Run(EMPTY, steps), s, gets) && NeverFull(steps, s)
    ensures var b, frames := Run(EMPTY, steps), Frames(trace, render);
            var shown, from := Delivered(Named(b, b.subscribers[s].snapshot), gets), First(b.subscribers[s]);
            && DeliversRun(b, s, gets)
            && from + |shown| <= |frames| && shown == frames[from..from + |shown|]
            && (AnyEnds(Named(b, b.subscribers[s].snapshot) + Arrived(gets)) <==> shown != [] && shown == frames[from..])
  {
    NeverFullLosesNothing(steps, s);
    StreamShowsExecution(selected, run, trace, rows, suiteRow, ran, render, steps, s, p, gets);
  }
}
