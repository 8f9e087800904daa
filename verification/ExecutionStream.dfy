/** `stream_execution_events`: the drain loop of one subscriber, and what it delivers. */
module ExecutionStream {
  import opened Prelude
  import opened PyText
  import opened EventBus
  import opened EventBusLaws

  // ----- Recognising the last frame -----

  const FINISHED := "execution_finished"
  const END_MARK := "event: execution_finished"

  /** `_serialize_sse_frame`, with the payload already as JSON text. */
  function Framed(f: Frame): string {
    "event: " + f.event + "\ndata: " + f.payload + "\n\n"
  }

  /** The test the stream makes on each frame: a substring test on the serialized text. */
  predicate EndsStream(f: Frame) {
    Occurs(END_MARK, Framed(f))
  }

  lemma {:induction false} CoveredOccurs(needle: string, text: string, i: nat, k: nat)
    requires i <= k < i + |needle| <= |text| && OccursAt(needle, text, i)
    ensures text[k] in needle
  {
    assert text[i..i + |needle|][k - i] == text[k];
  }

  /** An occurrence of a text without line breaks lies within one line. */
  lemma {:induction false} OccursInLine(needle: string, head: string, tail: string)
    requires '\n' !in needle && needle != []
    ensures Occurs(needle, head + "\n" + tail) <==> Occurs(needle, head) || Occurs(needle, tail)
  {
    var text := head + "\n" + tail;
    forall i | 0 <= i <= |head| - |needle| ensures OccursAt(needle, text, i) <==> OccursAt(needle, head, i) {
      assert text[i..i + |needle|] == head[i..i + |needle|];
    }
    forall i | 0 <= i <= |tail| - |needle|
      ensures OccursAt(needle, text, |head| + 1 + i) <==> OccursAt(needle, tail, i)
    {
      assert text[|head| + 1 + i..|head| + 1 + i + |needle|] == tail[i..i + |needle|];
    }
    if Occurs(needle, text) {
      var i :| 0 <= i <= |text| - |needle| && OccursAt(needle, text, i);
      if i <= |head| < i + |needle| {
        CoveredOccurs(needle, text, i, |head|);
      }
      if |head| < i {
        assert OccursAt(needle, tail, i - |head| - 1);
      }
    }
    if Occurs(needle, head) {
      var i :| 0 <= i <= |head| - |needle| && OccursAt(needle, head, i);
      assert OccursAt(needle, text, i);
    }
    if Occurs(needle, tail) {
      var i :| 0 <= i <= |tail| - |needle| && OccursAt(needle, tail, i);
      assert OccursAt(needle, text, |head| + 1 + i);
    }
  }

  /** A needle that starts with a character the prefix lacks is not found across the prefix. */
  lemma {:induction false} OccursAfter(needle: string, prefix: string, text: string)
    requires needle != [] && needle[0] !in prefix
    ensures Occurs(needle, prefix + text) <==> Occurs(needle, text)
  {
    var whole := prefix + text;
    forall i | 0 <= i <= |text| - |needle| ensures OccursAt(needle, whole, |prefix| + i) <==> OccursAt(needle, text, i) {
      assert whole[|prefix| + i..|prefix| + i + |needle|] == text[i..i + |needle|];
    }
    if Occurs(needle, whole) {
      var i :| 0 <= i <= |whole| - |needle| && OccursAt(needle, whole, i);
      assert whole[i..i + |needle|][0] == whole[i];
      assert forall j | 0 <= j < |prefix| :: whole[j] == prefix[j];
      assert OccursAt(needle, text, i - |prefix|);
    }
    if Occurs(needle, text) {
      var i :| 0 <= i <= |text| - |needle| && OccursAt(needle, text, i);
      assert OccursAt(needle, whole, |prefix| + i);
    }
  }

  /** In the first line the mark can only be found at the start, unless the name has a colon. */
  lemma {:induction false} MarkInEventLine(name: string)
    requires ':' !in name
    ensures Occurs(END_MARK, "event: " + name) <==> FINISHED <= name
  {
    var line := "event: " + name;
    assert END_MARK == "event: " + FINISHED && END_MARK[5] == ':';
    if Occurs(END_MARK, line) {
      var i :| 0 <= i <= |line| - |END_MARK| && OccursAt(END_MARK, line, i);
      assert line[i..i + |END_MARK|][5] == line[i + 5];
      assert forall j | 0 <= j < |name| :: line[j + 7] == name[j];
      assert i == 0;
      assert name[..|FINISHED|] == line[..|END_MARK|][7..] == FINISHED;
    }
    if FINISHED <= name {
      assert line[..|END_MARK|] == "event: " + name[..|FINISHED|];
      assert OccursAt(END_MARK, line, 0);
    }
  }

  /** The substring test tells the last frame from the others exactly when no other event name
      begins with `execution_finished` and no payload quotes the mark. JSON text has no raw line
      breaks, and event names have neither colons nor line breaks. */
  lemma {:induction false} EndTestExactly(f: Frame)
    requires ':' !in f.event && '\n' !in f.event && '\n' !in f.payload
    ensures EndsStream(f) <==> FINISHED <= f.event || Occurs(END_MARK, f.payload)
  {
    assert END_MARK[0] == 'e';
    assert Framed(f) == ("event: " + f.event) + "\n" + (("data: " + f.payload) + "\n" + "\n");
    OccursInLine(END_MARK, "event: " + f.event, ("data: " + f.payload) + "\n" + "\n");
    OccursInLine(END_MARK, "data: " + f.payload, "\n");
    MarkInEventLine(f.event);
    OccursAfter(END_MARK, "data: ", f.payload);
  }

  // ----- The loop -----

  datatype Yielded = Event(frame: Frame) | Heartbeat

  /** The result of one `get`: a frame, or a timeout that makes the stream send a heartbeat. */
  function Sent(got: Option<Frame>): Yielded {
    if got.Some? then Event(got.value) else Heartbeat
  }

  predicate AnyEnds(frames: seq<Frame>) {
    exists i | 0 <= i < |frames| :: EndsStream(frames[i])
  }

  /** The frames up to the first that ends the stream. */
  function UntilEnd(frames: seq<Frame>): seq<Frame> {
    if frames == [] then []
    else if EndsStream(frames[0]) then [frames[0]]
    else [frames[0]] + UntilEnd(frames[1..])
  }

  /** The frames among the results of `get`. */
  function Arrived(gets: seq<Option<Frame>>): seq<Frame> {
    if gets == [] then []
    else (if gets[0].Some? then [gets[0].value] else []) + Arrived(gets[1..])
  }

  function Events(yielded: seq<Yielded>): seq<Frame> {
    if yielded == [] then []
    else (if yielded[0].Event? then [yielded[0].frame] else []) + Events(yielded[1..])
  }

  /** What a stream delivers beside heartbeats. */
  function Delivered(history: seq<Frame>, gets: seq<Option<Frame>>): seq<Frame> {
    history + if AnyEnds(history) then [] else UntilEnd(Arrived(gets))
  }

  /** What is yielded for a history and for the results of `get`. */
  function Replayed(history: seq<Frame>): seq<Yielded> {
    seq(|history|, i requires 0 <= i < |history| => Event(history[i]))
  }

  function Relayed(gets: seq<Option<Frame>>): seq<Yielded> {
    seq(|gets|, i requires 0 <= i < |gets| => Sent(gets[i]))
  }

  /** `stream_execution_events` after subscribing: the history, then the results of successive
      `get` calls. Without an end among them the loop is still waiting. */
  method StreamExecutionEvents(history: seq<Frame>, gets: seq<Option<Frame>>)
    returns (yielded: seq<Yielded>, taken: nat, ended: bool)
    ensures taken <= |gets| && yielded == Replayed(history) + Relayed(gets[..taken])
    ensures Events(yielded) == Delivered(history, gets)
    ensures ended <==> AnyEnds(history + Arrived(gets))
    ensures AnyEnds(history) ==> taken == 0
    ensures !ended ==> taken == |gets|
    ensures ended && !AnyEnds(history) ==>
              taken > 0 && gets[taken - 1].Some? && EndsStream(gets[taken - 1].value)
  {
    yielded, taken, ended := [], 0, false;
    for i := 0 to |history|
      invariant yielded == Replayed(history[..i])
      invariant ended <==> AnyEnds(history[..i])
    {
      yielded := yielded + [Event(history[i])];
      AnyEndsGrows(history[..i], history[i]);
      assert history[..i + 1] == history[..i] + [history[i]];
      ended := ended || EndsStream(history[i]);
    }
    assert history[..|history|] == history;
    if ended {
      ReplayTally(history, gets);
      return;
    }
    while taken < |gets| && !ended
      invariant taken <= |gets| && yielded == Replayed(history) + Relayed(gets[..taken])
      invariant ended ==> taken > 0 && gets[taken - 1].Some? && EndsStream(gets[taken - 1].value)
      invariant QuietUntil(gets, if ended then taken - 1 else taken)
      decreases |gets| - taken, !ended
    {
      if gets[taken].Some? {
        ended := EndsStream(gets[taken].value);
      }
      yielded := yielded + [Sent(gets[taken])];
      taken := taken + 1;
    }
    DrainTally(history, gets, taken, ended);
  }

  /** No frame among the first n results ends the stream. */
  predicate QuietUntil(gets: seq<Option<Frame>>, n: nat)
    requires n <= |gets|
  {
    forall i | 0 <= i < n :: gets[i].Some? ==> !EndsStream(gets[i].value)
  }

  lemma {:induction false} EventsReplayed(history: seq<Frame>, rest: seq<Yielded>)
    ensures Events(Replayed(history) + rest) == history + Events(rest)
    decreases |history|
  {
    if history == [] {
      assert Replayed(history) + rest == rest && history + Events(rest) == Events(rest);
    } else {
      assert (Replayed(history) + rest)[0] == Event(history[0]);
      assert (Replayed(history) + rest)[1..] == Replayed(history[1..]) + rest;
      EventsReplayed(history[1..], rest);
    }
  }

  lemma {:induction false} ReplayTally(history: seq<Frame>, gets: seq<Option<Frame>>)
    requires AnyEnds(history)
    ensures gets[..0] == [] && Replayed(history) == Replayed(history) + Relayed([])
    ensures Events(Replayed(history)) == Delivered(history, gets) && AnyEnds(history + Arrived(gets))
  {
    EventsReplayed(history, []);
    assert Replayed(history) + [] == Replayed(history);
    AnyEndsJoin(history, Arrived(gets));
  }

  /** The frames sent on for the gets made are those up to the end. */
  lemma {:induction false} EventsRelayed(gets: seq<Option<Frame>>, taken: nat, ended: bool)
    requires taken <= |gets| && (!ended ==> taken == |gets|)
    requires ended ==> taken > 0 && gets[taken - 1].Some? && EndsStream(gets[taken - 1].value)
    requires QuietUntil(gets, if ended then taken - 1 else taken)
    ensures Events(Relayed(gets[..taken])) == UntilEnd(Arrived(gets))
    ensures ended <==> AnyEnds(Arrived(gets))
    decreases taken
  {
    if taken > 0 {
      var relayed := Relayed(gets[..taken]);
      assert relayed[0] == Sent(gets[0]) && relayed[1..] == Relayed(gets[1..][..taken - 1]);
      AnyEndsSplit(Arrived(gets));
      if gets[0].Some? {
        assert Arrived(gets) == [gets[0].value] + Arrived(gets[1..]);
        assert Arrived(gets)[1..] == Arrived(gets[1..]);
      } else {
        assert Arrived(gets) == [] + Arrived(gets[1..]) == Arrived(gets[1..]);
      }
      if ended && taken == 1 {
        assert Relayed(gets[1..][..0]) == [];
      } else {
        assert gets[0].Some? ==> !EndsStream(gets[0].value);
        assert forall i | 0 <= i < |gets[1..]| :: gets[1..][i] == gets[i + 1];
        EventsRelayed(gets[1..], taken - 1, ended);
      }
    }
  }

  lemma {:induction false} DrainTally(history: seq<Frame>, gets: seq<Option<Frame>>, taken: nat, ended: bool)
    requires !AnyEnds(history) && taken <= |gets| && (!ended ==> taken == |gets|)
    requires ended ==> taken > 0 && gets[taken - 1].Some? && EndsStream(gets[taken - 1].value)
    requires QuietUntil(gets, if ended then taken - 1 else taken)
    ensures Events(Replayed(history) + Relayed(gets[..taken])) == Delivered(history, gets)
    ensures ended <==> AnyEnds(history + Arrived(gets))
  {
    EventsReplayed(history, Relayed(gets[..taken]));
    EventsRelayed(gets, taken, ended);
    AnyEndsJoin(history, Arrived(gets));
  }

  lemma {:induction false} AnyEndsGrows(frames: seq<Frame>, f: Frame)
    ensures AnyEnds(frames + [f]) <==> AnyEnds(frames) || EndsStream(f)
  {
    assert (frames + [f])[|frames|] == f;
    if AnyEnds(frames) {
      var i :| 0 <= i < |frames| && EndsStream(frames[i]);
      assert (frames + [f])[i] == frames[i];
    }
  }

  lemma {:induction false} AnyEndsSplit(frames: seq<Frame>)
    ensures AnyEnds(frames) <==> frames != [] && (EndsStream(frames[0]) || AnyEnds(frames[1..]))
  {
    if frames != [] {
      AnyEndsJoin([frames[0]], frames[1..]);
      assert [frames[0]] + frames[1..] == frames;
      assert AnyEnds([frames[0]]) <==> EndsStream([frames[0]][0]);
    }
  }

  lemma {:induction false} AnyEndsJoin(a: seq<Frame>, b: seq<Frame>)
    ensures AnyEnds(a + b) <==> AnyEnds(a) || AnyEnds(b)
  {
    assert forall i | 0 <= i < |a| :: (a + b)[i] == a[i];
    assert forall i | 0 <= i < |b| :: (a + b)[|a| + i] == b[i];
    if AnyEnds(a + b) {
      var i :| 0 <= i < |a + b| && EndsStream((a + b)[i]);
      if i >= |a| {
        assert EndsStream(b[i - |a|]);
      }
    }
  }

  // ----- What a stream delivers -----

  /** The frames behind publication numbers. */
  function Named(b: Bus, numbers: seq<nat>): seq<Frame>
    requires forall i | 0 <= i < |numbers| :: numbers[i] < |b.published|
  {
    seq(|numbers|, i requires 0 <= i < |numbers| => b.published[numbers[i]])
  }

  /** Only the last frame of the execution, if any, ends a stream. */
  predicate EndsLast(frames: seq<Frame>) {
    forall i | 0 <= i < |frames| - 1 :: !EndsStream(frames[i])
  }

  lemma {:induction false} UntilEndOfLast(frames: seq<Frame>)
    requires EndsLast(frames)
    ensures UntilEnd(frames) == frames
  {
    if frames != [] {
      if |frames| > 1 {
        assert forall i | 0 <= i < |frames[1..]| :: frames[1..][i] == frames[i + 1];
        UntilEndOfLast(frames[1..]);
      }
      assert frames == [frames[0]] + frames[1..];
    }
  }

  /** A stream that takes part in a run: it subscribed as s, and its gets returned what s
      consumed. */
  predicate Streams(b: Bus, s: nat, gets: seq<Option<Frame>>) {
    && Sane(b) && s in b.subscribers
    && (forall i | 0 <= i < |b.subscribers[s].consumed| :: b.subscribers[s].consumed[i] < |b.published|)
    && Arrived(gets) == Named(b, b.subscribers[s].consumed)
  }

  /** The numbers a subscriber has seen, snapshot first. */
  function Seen(sub: Subscriber): seq<nat> {
    sub.snapshot + sub.consumed
  }

  /** The first frame a subscriber may still see: the oldest of the history it joined at. */
  function First(sub: Subscriber): nat {
    Oldest(sub.joined)
  }

  /** With one publisher and nothing dropped, what was seen is the published frames from the oldest
      not yet evicted on, in order and without gaps. */
  lemma {:induction false} SeenIsRun(b: Bus, s: nat, p: nat)
    requires Orderly(b, p) && s in b.subscribers && b.subscribers[s].dropped == []
    ensures var sub := b.subscribers[s];
            && First(sub) + |Seen(sub)| <= Served(b, s, p) <= |b.published|
            && Seen(sub) == Range(First(sub), First(sub) + |Seen(sub)|)
  {
    var sub := b.subscribers[s];
    assert InOrderFor(b, s, p) && SubscriberSane(b, s);
    var run := sub.consumed + sub.queue;
    forall i | 0 <= i < |sub.consumed| ensures sub.consumed[i] == sub.joined + i {
      assert run[i] == sub.consumed[i];
    }
  }

  /** The snapshot and the consumed frames are the published frames from there to a point. */
  lemma {:induction false} SeenFrames(b: Bus, s: nat, p: nat)
    requires Orderly(b, p) && s in b.subscribers && b.subscribers[s].dropped == []
    ensures var sub := b.subscribers[s];
            && First(sub) + |Seen(sub)| <= |b.published|
            && (forall i | 0 <= i < |sub.snapshot| :: sub.snapshot[i] < |b.published|)
            && (forall i | 0 <= i < |sub.consumed| :: sub.consumed[i] < |b.published|)
            && Named(b, sub.snapshot) + Named(b, sub.consumed) == b.published[First(sub)..First(sub) + |Seen(sub)|]
  {
    var sub := b.subscribers[s];
    SeenIsRun(b, s, p);
    NamedRange(b, First(sub), First(sub) + |Seen(sub)|);
    NamedJoin(b, sub.snapshot, sub.consumed);
  }

  lemma {:induction false} NamedRange(b: Bus, from: nat, to: nat)
    requires from <= to <= |b.published|
    ensures forall i | 0 <= i < to - from :: Range(from, to)[i] < |b.published|
    ensures Named(b, Range(from, to)) == b.published[from..to]
  {
  }

  lemma {:induction false} NamedJoin(b: Bus, xs: seq<nat>, ys: seq<nat>)
    requires forall i | 0 <= i < |xs + ys| :: (xs + ys)[i] < |b.published|
    ensures forall i | 0 <= i < |xs| :: xs[i] < |b.published|
    ensures forall i | 0 <= i < |ys| :: ys[i] < |b.published|
    ensures Named(b, xs + ys) == Named(b, xs) + Named(b, ys)
  {
    assert forall i | 0 <= i < |xs| :: xs[i] == (xs + ys)[i];
    assert forall i | 0 <= i < |ys| :: ys[i] == (xs + ys)[|xs| + i];
  }

  /** Cutting at the end leaves what was seen whole, if only its last frame can be the end. */
  lemma {:induction false} WholeDelivered(seen: seq<Frame>, history: seq<Frame>, gets: seq<Option<Frame>>)
    requires EndsLast(seen) && history + Arrived(gets) == seen
    ensures Delivered(history, gets) == seen
    ensures AnyEnds(seen) <==> seen != [] && EndsStream(seen[|seen| - 1])
  {
    if AnyEnds(history) {
      var i :| 0 <= i < |history| && EndsStream(history[i]);
      assert seen[i] == history[i] && i == |seen| - 1;
      assert Arrived(gets) == [];
    } else {
      assert forall i | 0 <= i < |Arrived(gets)| :: Arrived(gets)[i] == seen[|history| + i];
      UntilEndOfLast(Arrived(gets));
    }
  }

  lemma {:induction false} RunEndsLast(published: seq<Frame>, from: nat, to: nat)
    requires from <= to <= |published| && EndsLast(published)
    ensures EndsLast(published[from..to])
    ensures from < to < |published| ==> !EndsStream(published[to - 1])
  {
    assert forall i | 0 <= i < to - from :: published[from..to][i] == published[from + i];
  }

  lemma {:induction false} RunDelivered(
    published: seq<Frame>, from: nat, to: nat, history: seq<Frame>, gets: seq<Option<Frame>>)
    requires from <= to <= |published| && EndsLast(published) && history + Arrived(gets) == published[from..to]
    ensures Delivered(history, gets) == published[from..to]
    ensures AnyEnds(history + Arrived(gets)) <==> from < to == |published| && EndsStream(published[to - 1])
  {
    RunEndsLast(published, from, to);
    WholeDelivered(published[from..to], history, gets);
  }

  /** Gap-free in-order delivery: the stream has delivered the published frames from the oldest of
      its history on, and it has ended exactly when it has reached the last of them and that one
      ends the execution. */
  lemma {:induction false} StreamIsRun(b: Bus, s: nat, p: nat, gets: seq<Option<Frame>>)
    requires Orderly(b, p) && Streams(b, s, gets) && EndsLast(b.published) && b.subscribers[s].dropped == []
    ensures DeliversRun(b, s, gets)
  {
    SeenFrames(b, s, p);
    var sub := b.subscribers[s];
    RunDelivered(b.published, First(sub), First(sub) + |Seen(sub)|, Named(b, sub.snapshot), gets);
  }

  predicate DeliversRun(b: Bus, s: nat, gets: seq<Option<Frame>>)
    requires s in b.subscribers
  {
    var sub := b.subscribers[s];
    var from, to := First(sub), First(sub) + |Seen(sub)|;
    && to <= |b.published|
    && (forall i | 0 <= i < |sub.snapshot| :: sub.snapshot[i] < |b.published|)
    && Delivered(Named(b, sub.snapshot), gets) == b.published[from..to]
    && (AnyEnds(Named(b, sub.snapshot) + Arrived(gets)) <==>
          from < to == |b.published| && EndsStream(b.published[to - 1]))
  }

  /** The same over every run: consumers and one publisher, interleaved in any way. */
  lemma {:induction false} StreamOverRuns(steps: seq<Step>, s: nat, p: nat, gets: seq<Option<Frame>>)
    requires Solo(steps, p) && Streams(Run(EMPTY, steps), s, gets) && EndsLast(Run(EMPTY, steps).published)
    requires Run(EMPTY, steps).subscribers[s].dropped == []
    ensures DeliversRun(Run(EMPTY, steps), s, gets)
  {
    EmptyIsOrderly(p);
    SoloKeeps(EMPTY, steps, p);
    StreamIsRun(Run(EMPTY, steps), s, p, gets);
  }

  lemma {:induction false} EmptyIsOrderly(p: nat)
    ensures Orderly(EMPTY, p)
  {
    assert Sane(EMPTY);
  }

  // ----- The loop ends -----

  function Gets(steps: seq<Step>, s: nat): nat
    decreases |steps|
  {
    if steps == [] then 0 else (if steps[0] == Get(s) then 1 else 0) + Gets(steps[1..], s)
  }

  /** What a step does to a queue: it takes the head on a get, and otherwise only appends. */
  lemma {:induction false} QueueStep(b: Bus, step: Step, s: nat)
    requires s in b.subscribers && Next(b, step).Some?
    ensures s in Next(b, step).value.subscribers
    ensures var sub, sub' := b.subscribers[s], Next(b, step).value.subscribers[s];
            if step == Get(s) then
              sub.queue != [] && sub'.consumed == sub.consumed + [sub.queue[0]] && sub'.queue == sub.queue[1..]
            else
              sub'.consumed == sub.consumed && sub.queue <= sub'.queue
  {
  }

  /** Once a frame is in the queue, as many gets as it has frames up to it deliver it, whatever
      the other threads do meanwhile. */
  lemma {:induction false} WaitingIsReached(b: Bus, steps: seq<Step>, s: nat, i: nat)
    requires s in b.subscribers && i < |b.subscribers[s].queue| && i < Gets(steps, s)
    ensures s in Run(b, steps).subscribers
    ensures b.subscribers[s].queue[i] in Run(b, steps).subscribers[s].consumed
    decreases |steps|
  {
    var n := b.subscribers[s].queue[i];
    match Next(b, steps[0])
    case None => WaitingIsReached(b, steps[1..], s, i);
    case Some(next) =>
      QueueStep(b, steps[0], s);
      if steps[0] != Get(s) {
        WaitingIsReached(next, steps[1..], s, i);
      } else if i > 0 {
        WaitingIsReached(next, steps[1..], s, i - 1);
      } else {
        assert next.subscribers[s].consumed[|b.subscribers[s].consumed|] == n;
        ConsumedStays(next, steps[1..], s, n);
      }
  }

  lemma {:induction false} ConsumedStays(b: Bus, steps: seq<Step>, s: nat, n: nat)
    requires s in b.subscribers && n in b.subscribers[s].consumed
    ensures s in Run(b, steps).subscribers && n in Run(b, steps).subscribers[s].consumed
    decreases |steps|
  {
    if steps != [] {
      match Next(b, steps[0])
      case None => ConsumedStays(b, steps[1..], s, n);
      case Some(next) =>
        QueueStep(b, steps[0], s);
        ConsumedStays(next, steps[1..], s, n);
    }
  }

  lemma {:induction false} PublishedGrows(b: Bus, steps: seq<Step>)
    ensures b.published <= Run(b, steps).published
    decreases |steps|
  {
    if steps != [] {
      match Next(b, steps[0])
      case None => PublishedGrows(b, steps[1..]);
      case Some(next) => PublishedGrows(next, steps[1..]);
    }
  }

  /** A stream whose queue holds the last frame has ended after that many gets. */
  lemma {:induction false} StreamEnds(b: Bus, steps: seq<Step>, s: nat, i: nat, gets: seq<Option<Frame>>)
    requires s in b.subscribers && i < |b.subscribers[s].queue| && i < Gets(steps, s)
    requires b.subscribers[s].queue[i] < |b.published| && EndsStream(b.published[b.subscribers[s].queue[i]])
    requires Streams(Run(b, steps), s, gets)
    ensures AnyEnds(Arrived(gets))
  {
    WaitingIsReached(b, steps, s, i);
    PublishedGrows(b, steps);
    var after, n := Run(b, steps), b.subscribers[s].queue[i];
    var k :| 0 <= k < |after.subscribers[s].consumed| && after.subscribers[s].consumed[k] == n;
    assert Arrived(gets)[k] == after.published[n] == b.published[n];
  }
}
