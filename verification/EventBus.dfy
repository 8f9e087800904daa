/** The execution event bus (execution_event_bus.py) of one execution id, as a machine whose steps
    are the atomic sections of publishers, subscribers and consumers. */
module EventBus {
  import opened Prelude

  const HISTORY_SIZE := 500
  const QUEUE_SIZE := 1000

  /** A frame is an event name and a payload as JSON text; queues and history hold publication numbers. */
  datatype Frame = Frame(event: string, payload: string)

  /** A subscriber's queue, with what was snapshot, consumed and dropped kept beside it. */
  datatype Subscriber = Subscriber(
    joined: nat, left: Option<nat>, snapshot: seq<nat>, queue: seq<nat>, consumed: seq<nat>, dropped: seq<nat>)

  /** A publisher between its locked section and its last put. */
  datatype InFlight = InFlight(number: nat, owed: seq<nat>)

  datatype Bus = Bus(
    published: seq<Frame>, history: seq<nat>, registered: seq<nat>,
    subscribers: map<nat, Subscriber>, inFlight: map<nat, InFlight>)

  datatype Step =
    | Publish(publisher: nat, frame: Frame)   // append to the history, snapshot the subscribers
    | Put(publisher: nat)                     // put_nowait into the next queue, or finish
    | Subscribe(subscriber: nat)              // register a new queue, snapshot the history
    | Unsubscribe(subscriber: nat)
    | Get(subscriber: nat)                    // the consumer takes a frame

  /** `deque(maxlen=...)`: the last frames only. */
  function Newest(history: seq<nat>): seq<nat> {
    if |history| <= HISTORY_SIZE then history else history[|history| - HISTORY_SIZE..]
  }

  function Remove(ids: seq<nat>, id: nat): seq<nat> {
    if ids == [] then [] else if ids[0] == id then ids[1..] else [ids[0]] + Remove(ids[1..], id)
  }

  /** `put_nowait`, dropping the frame when the queue is full. */
  function Offer(s: Subscriber, number: nat): Subscriber {
    if |s.queue| < QUEUE_SIZE then s.(queue := s.queue + [number]) else s.(dropped := s.dropped + [number])
  }

  /** The bus after a step; None where the step cannot be taken. */
  function Next(b: Bus, step: Step): Option<Bus> {
    match step
    case Publish(p, frame) =>
      if p in b.inFlight then None
      else
        var n := |b.published|;
        Some(b.(published := b.published + [frame],
                history := Newest(b.history + [n]),
                inFlight := b.inFlight[p := InFlight(n, b.registered)]))
    case Put(p) =>
      if p !in b.inFlight then None
      else
        var f := b.inFlight[p];
        if f.owed == [] then Some(b.(inFlight := b.inFlight - {p}))
        else if f.owed[0] !in b.subscribers then None
        else
          Some(b.(subscribers := b.subscribers[f.owed[0] := Offer(b.subscribers[f.owed[0]], f.number)],
                  inFlight := b.inFlight[p := f.(owed := f.owed[1..])]))
    case Subscribe(s) =>
      if s in b.subscribers then None
      else
        Some(b.(registered := b.registered + [s],
                subscribers := b.subscribers[s := Subscriber(|b.published|, None, b.history, [], [], [])]))
    case Unsubscribe(s) =>
      if s !in b.registered || s !in b.subscribers then None
      else
        Some(b.(registered := Remove(b.registered, s),
                subscribers := b.subscribers[s := b.subscribers[s].(left := Some(|b.published|))]))
    case Get(s) =>
      if s !in b.subscribers || b.subscribers[s].queue == [] then None
      else
        var q := b.subscribers[s].queue;
        Some(b.(subscribers := b.subscribers[s := b.subscribers[s].(
                  queue := q[1..], consumed := b.subscribers[s].consumed + [q[0]])]))
  }

  const EMPTY := Bus([], [], [], map[], map[])

  /** A run: steps that cannot be taken do not happen. */
  function Run(b: Bus, steps: seq<Step>): Bus
    decreases |steps|
  {
    if steps == [] then b
    else
      match Next(b, steps[0])
      case None => Run(b, steps[1..])
      case Some(next) => Run(next, steps[1..])
  }

  /** The shared state as the module keeps it, changed by the sections under the lock and the puts
      after it. */
  class EventChannel {
    ghost var published: seq<Frame>
    var count: nat
    var history: seq<nat>
    var registered: seq<nat>
    var subscribers: map<nat, Subscriber>
    var inFlight: map<nat, InFlight>

    ghost predicate Valid()
      reads this
    {
      count == |published|
    }

    ghost function View(): Bus
      reads this
    {
      Bus(published, history, registered, subscribers, inFlight)
    }

    constructor ()
      ensures Valid() && View() == EMPTY
    {
      published, count, history, registered, subscribers, inFlight := [], 0, [], [], map[], map[];
    }

    /** The locked section of `publish_execution_event`. */
    method AppendAndSnapshot(publisher: nat, frame: Frame)
      requires Valid() && publisher !in inFlight
      modifies this
      ensures Valid() && Some(View()) == Next(old(View()), Publish(publisher, frame))
    {
      history := Newest(history + [count]);
      inFlight := inFlight[publisher := InFlight(count, registered)];
      count := count + 1;
      published := published + [frame];
    }

    /** The puts after the locked section, when no other thread runs meanwhile. */
    method PutAll(publisher: nat)
      requires Valid() && publisher in inFlight
      requires forall i | 0 <= i < |inFlight[publisher].owed| :: inFlight[publisher].owed[i] in subscribers
      modifies this
      ensures Valid()
      ensures View() == Run(old(View()), seq(|old(inFlight)[publisher].owed| + 1, _ => Put(publisher)))
    {
      var f := inFlight[publisher];
      ghost var puts := seq(|f.owed| + 1, _ => Put(publisher));
      for i := 0 to |f.owed|
        invariant Valid() && publisher in inFlight && inFlight[publisher] == f.(owed := f.owed[i..])
        invariant subscribers.Keys == old(subscribers.Keys)
        invariant Run(View(), puts[i..]) == Run(old(View()), puts)
      {
        var s := f.owed[i];
        assert f.owed[i..][0] == s && f.owed[i..][1..] == f.owed[i + 1..];
        assert puts[i..][0] == Put(publisher) && puts[i..][1..] == puts[i + 1..];
        subscribers := subscribers[s := Offer(subscribers[s], f.number)];
        inFlight := inFlight[publisher := f.(owed := f.owed[i + 1..])];
      }
      assert puts[|f.owed|..] == [Put(publisher)] && [Put(publisher)][1..] == [];
      inFlight := inFlight - {publisher};
    }

    method SubscribeToExecution(subscriber: nat) returns (snapshot: seq<nat>)
      requires Valid() && subscriber !in subscribers
      modifies this
      ensures Valid() && Some(View()) == Next(old(View()), Subscribe(subscriber))
      ensures snapshot == old(history)
    {
      registered := registered + [subscriber];
      snapshot := history;
      subscribers := subscribers[subscriber := Subscriber(count, None, snapshot, [], [], [])];
    }

    method UnsubscribeFromExecution(subscriber: nat)
      requires Valid() && subscriber in registered && subscriber in subscribers
      modifies this
      ensures Valid() && Some(View()) == Next(old(View()), Unsubscribe(subscriber))
    {
      registered := Remove(registered, subscriber);
      subscribers := subscribers[subscriber := subscribers[subscriber].(left := Some(count))];
    }
  }
}
