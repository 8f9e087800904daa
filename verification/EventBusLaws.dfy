/** Exactly-once handoff on every interleaving, and in-order delivery with a single publisher. */
module EventBusLaws {
  import opened Prelude
  import opened EventBus

  // ----- Where a frame can be -----

  datatype Fate = EvictedBefore | InSnapshot | Waiting | Consumed | Dropped | Owed

  /** Some publisher in flight still has to put the frame into the subscriber's queue. */
  predicate IsOwed(b: Bus, s: nat, number: nat) {
    exists p | p in b.inFlight :: b.inFlight[p].number == number && s in b.inFlight[p].owed
  }

  predicate HasFate(b: Bus, s: nat, number: nat, fate: Fate)
    requires s in b.subscribers
  {
    var sub := b.subscribers[s];
    match fate
    case EvictedBefore => number < sub.joined && number !in sub.snapshot
    case InSnapshot => number in sub.snapshot
    case Waiting => number in sub.queue
    case Consumed => number in sub.consumed
    case Dropped => number in sub.dropped
    case Owed => IsOwed(b, s, number)
  }

  /** The frames published up to the moment the subscriber left, if it has. */
  function Until(b: Bus, s: nat): nat
    requires s in b.subscribers
  {
    if b.subscribers[s].left.Some? then b.subscribers[s].left.value else |b.published|
  }

  function Handed(sub: Subscriber): seq<nat> {
    sub.consumed + sub.queue + sub.dropped
  }

  predicate Distinct(xs: seq<nat>) {
    forall i, j | 0 <= i < j < |xs| :: xs[i] != xs[j]
  }

  function Range(from: nat, to: nat): seq<nat>
    requires from <= to
  {
    seq(to - from, i requires 0 <= i < to - from => from + i)
  }

  function Oldest(n: nat): nat {
    if n <= HISTORY_SIZE then 0 else n - HISTORY_SIZE
  }

  // ----- The invariant -----

  predicate HistoryRecent(b: Bus) {
    b.history == Range(Oldest(|b.published|), |b.published|)
  }

  predicate RegisteredKnown(b: Bus) {
    Distinct(b.registered)
    && forall i | 0 <= i < |b.registered| ::
         b.registered[i] in b.subscribers && b.subscribers[b.registered[i]].left.None?
  }

  predicate FlightsSeparate(b: Bus) {
    && (forall p | p in b.inFlight :: b.inFlight[p].number < |b.published| && Distinct(b.inFlight[p].owed))
    && (forall p, q | p in b.inFlight && q in b.inFlight && p != q :: b.inFlight[p].number != b.inFlight[q].number)
  }

  /** A publisher owes its frame only to subscribers whose window it falls in and who have not got
      it yet. */
  predicate OwedFresh(b: Bus) {
    forall p, s | p in b.inFlight && s in b.inFlight[p].owed ::
      && s in b.subscribers
      && b.subscribers[s].joined <= b.inFlight[p].number < Until(b, s)
      && b.inFlight[p].number !in Handed(b.subscribers[s])
  }

  predicate SubscriberSane(b: Bus, s: nat)
    requires s in b.subscribers
  {
    var sub := b.subscribers[s];
    && sub.joined <= Until(b, s) <= |b.published|
    && sub.snapshot == Range(Oldest(sub.joined), sub.joined)
    && Distinct(Handed(sub))
    && (forall i | 0 <= i < |Handed(sub)| :: sub.joined <= Handed(sub)[i] < Until(b, s))
    && |sub.queue| <= QUEUE_SIZE
  }

  /** Each frame of the subscriber's window has been handed over or is still owed. */
  predicate WindowCovered(b: Bus, s: nat)
    requires s in b.subscribers
  {
    forall n | b.subscribers[s].joined <= n < Until(b, s) :: n in Handed(b.subscribers[s]) || IsOwed(b, s, n)
  }

  /** A subscriber who has not left is registered. */
  predicate StayersRegistered(b: Bus) {
    forall s | s in b.subscribers && b.subscribers[s].left.None? :: s in b.registered
  }

  predicate Sane(b: Bus) {
    && HistoryRecent(b) && RegisteredKnown(b) && FlightsSeparate(b) && OwedFresh(b) && StayersRegistered(b)
    && forall s | s in b.subscribers :: SubscriberSane(b, s) && WindowCovered(b, s)
  }

  lemma {:induction false} RemoveKeeps(ids: seq<nat>, id: nat)
    requires Distinct(ids)
    ensures Distinct(Remove(ids, id)) && id !in Remove(ids, id)
    ensures forall x :: x in Remove(ids, id) <==> x in ids && x != id
    decreases |ids|
  {
    if ids != [] {
      assert forall i | 0 <= i < |ids[1..]| :: ids[1..][i] == ids[i + 1];
      RemoveKeeps(ids[1..], id);
      assert ids == [ids[0]] + ids[1..];
      if ids[0] == id {
        assert id !in ids[1..];
      } else {
        var rest := Remove(ids[1..], id);
        assert ids[0] !in ids[1..];
        assert ids[0] !in rest;
      }
    }
  }

  lemma {:induction false} PublishSubscriber(b: Bus, p: nat, frame: Frame, s: nat)
    requires Sane(b) && p !in b.inFlight && s in b.subscribers
    ensures var b' := Next(b, Publish(p, frame)).value; SubscriberSane(b', s) && WindowCovered(b', s)
  {
    var b' := Next(b, Publish(p, frame)).value;
    var sub := b.subscribers[s];
    assert SubscriberSane(b, s) && WindowCovered(b, s);
    forall k | sub.joined <= k < Until(b', s) && k !in Handed(sub) ensures IsOwed(b', s, k) {
      if k == |b.published| {
        assert p in b'.inFlight && b'.inFlight[p].number == k && s in b'.inFlight[p].owed;
      } else {
        var q :| q in b.inFlight && b.inFlight[q].number == k && s in b.inFlight[q].owed;
        assert q in b'.inFlight && b'.inFlight[q] == b.inFlight[q];
      }
    }
  }

  lemma {:induction false} PublishFlights(b: Bus, p: nat, frame: Frame)
    requires Sane(b) && p !in b.inFlight
    ensures var b' := Next(b, Publish(p, frame)).value; FlightsSeparate(b') && OwedFresh(b')
  {
    var b' := Next(b, Publish(p, frame)).value;
    forall q, s | q in b'.inFlight && s in b'.inFlight[q].owed
      ensures s in b'.subscribers && b'.subscribers[s].joined <= b'.inFlight[q].number < Until(b', s)
      ensures b'.inFlight[q].number !in Handed(b'.subscribers[s])
    {
      if q == p {
        assert s in b.registered && SubscriberSane(b, s);
      }
    }
  }

  lemma {:induction false} PublishKeeps(b: Bus, p: nat, frame: Frame)
    requires Sane(b) && p !in b.inFlight
    ensures Sane(Next(b, Publish(p, frame)).value)
  {
    var b' := Next(b, Publish(p, frame)).value;
    assert HistoryRecent(b');
    PublishFlights(b, p, frame);
    forall s | s in b'.subscribers ensures SubscriberSane(b', s) && WindowCovered(b', s) {
      PublishSubscriber(b, p, frame, s);
    }
  }

  lemma {:induction false} PutKeeps(b: Bus, p: nat)
    requires Sane(b) && Next(b, Put(p)).Some?
    ensures Sane(Next(b, Put(p)).value)
  {
    var b' := Next(b, Put(p)).value;
    var f := b.inFlight[p];
    if f.owed == [] {
      forall s | s in b'.subscribers ensures SubscriberSane(b', s) && WindowCovered(b', s) {
        assert SubscriberSane(b, s) && WindowCovered(b, s);
        forall k | b.subscribers[s].joined <= k < Until(b', s) && k !in Handed(b.subscribers[s]) ensures IsOwed(b', s, k) {
          var q :| q in b.inFlight && b.inFlight[q].number == k && s in b.inFlight[q].owed;
          assert q in b'.inFlight;
        }
      }
    } else {
      PutOneKeeps(b, p);
    }
  }

  lemma {:induction false} HandedMembers(sub: Subscriber, n: nat)
    ensures n in Handed(sub) <==> n in sub.consumed || n in sub.queue || n in sub.dropped
  {
  }

  lemma {:induction false} DistinctInsert(a: seq<nat>, n: nat, b: seq<nat>)
    requires Distinct(a + b) && n !in a + b
    ensures Distinct(a + [n] + b)
  {
    var xs, ys := a + [n] + b, a + b;
    assert forall i | 0 <= i < |a| :: xs[i] == ys[i];
    assert forall i | |a| < i < |xs| :: xs[i] == ys[i - 1];
    assert forall i | 0 <= i < |ys| :: ys[i] != n;
  }

  lemma {:induction false} OfferHands(sub: Subscriber, n: nat)
    requires Distinct(Handed(sub)) && n !in Handed(sub)
    ensures Distinct(Handed(Offer(sub, n)))
    ensures forall k :: k in Handed(Offer(sub, n)) <==> k in Handed(sub) || k == n
  {
    if |sub.queue| < QUEUE_SIZE {
      DistinctInsert(sub.consumed + sub.queue, n, sub.dropped);
      assert Handed(Offer(sub, n)) == sub.consumed + sub.queue + [n] + sub.dropped;
    } else {
      DistinctInsert(Handed(sub), n, []);
      assert Handed(sub) + [] == Handed(sub);
      assert Handed(Offer(sub, n)) == Handed(sub) + [n] + [];
    }
    forall k ensures k in Handed(Offer(sub, n)) <==> k in Handed(sub) || k == n {
      HandedMembers(sub, k);
      HandedMembers(Offer(sub, n), k);
    }
  }

  /** Putting one frame touches one subscriber and shortens one list of debts. */
  lemma {:induction false} PutOneShape(b: Bus, p: nat)
    requires Sane(b) && Next(b, Put(p)).Some? && b.inFlight[p].owed != []
    ensures var b', f := Next(b, Put(p)).value, b.inFlight[p];
            var t := f.owed[0];
            && t in b.subscribers && t !in f.owed[1..] && f.number !in Handed(b.subscribers[t])
            && b.subscribers[t].joined <= f.number < Until(b, t)
            && (forall s :: s in f.owed <==> s == t || s in f.owed[1..])
            && b'.subscribers == b.subscribers[t := Offer(b.subscribers[t], f.number)]
            && b'.inFlight == b.inFlight[p := f.(owed := f.owed[1..])]
            && Distinct(f.owed[1..])
  {
    var f := b.inFlight[p];
    assert f.owed == [f.owed[0]] + f.owed[1..];
    assert forall i | 0 <= i < |f.owed[1..]| :: f.owed[1..][i] == f.owed[i + 1];
    assert f.owed[0] in f.owed;
  }

  lemma {:induction false} PutOneFlights(b: Bus, p: nat)
    requires Sane(b) && Next(b, Put(p)).Some? && b.inFlight[p].owed != []
    ensures var b' := Next(b, Put(p)).value; FlightsSeparate(b') && OwedFresh(b')
  {
    PutOneSeparate(b, p);
    PutOneOwedAll(b, p, Next(b, Put(p)).value);
  }

  lemma {:induction false} PutOneOwedAll(b: Bus, p: nat, b': Bus)
    requires Sane(b) && Next(b, Put(p)) == Some(b') && b.inFlight[p].owed != []
    ensures OwedFresh(b')
  {
    forall q, s | q in b'.inFlight && s in b'.inFlight[q].owed
      ensures s in b'.subscribers && b'.subscribers[s].joined <= b'.inFlight[q].number < Until(b', s)
      ensures b'.inFlight[q].number !in Handed(b'.subscribers[s])
    {
      PutOneOwed(b, p, b', q, s);
    }
  }

  lemma {:induction false} PutOneSeparate(b: Bus, p: nat)
    requires Sane(b) && Next(b, Put(p)).Some? && b.inFlight[p].owed != []
    ensures FlightsSeparate(Next(b, Put(p)).value)
  {
    PutOneShape(b, p);
  }

  lemma {:induction false} PutOneOwed(b: Bus, p: nat, b': Bus, q: nat, s: nat)
    requires Sane(b) && Next(b, Put(p)) == Some(b') && b.inFlight[p].owed != []
    requires q in b'.inFlight && s in b'.inFlight[q].owed
    ensures s in b'.subscribers && b'.subscribers[s].joined <= b'.inFlight[q].number < Until(b', s)
    ensures b'.inFlight[q].number !in Handed(b'.subscribers[s])
  {
    var f := b.inFlight[p];
    PutOneShape(b, p);
    OfferHands(b.subscribers[f.owed[0]], f.number);
    assert s in b.inFlight[q].owed && b.inFlight[q].number == b'.inFlight[q].number;
    assert q == p ==> s != f.owed[0];
  }

  lemma {:induction false} PutOneCovers(b: Bus, p: nat, s: nat)
    requires Sane(b) && Next(b, Put(p)).Some? && b.inFlight[p].owed != [] && s in b.subscribers
    ensures WindowCovered(Next(b, Put(p)).value, s)
  {
    var b', f := Next(b, Put(p)).value, b.inFlight[p];
    PutOneShape(b, p);
    OfferHands(b.subscribers[f.owed[0]], f.number);
    assert WindowCovered(b, s);
    var sub := b'.subscribers[s];
    forall k | sub.joined <= k < Until(b', s) && k !in Handed(sub) ensures IsOwed(b', s, k) {
      var q :| q in b.inFlight && b.inFlight[q].number == k && s in b.inFlight[q].owed;
      assert q in b'.inFlight && b'.inFlight[q].number == k && s in b'.inFlight[q].owed;
    }
  }

  lemma {:induction false} PutOneSubscriber(b: Bus, p: nat, s: nat)
    requires Sane(b) && Next(b, Put(p)).Some? && b.inFlight[p].owed != [] && s in b.subscribers
    ensures SubscriberSane(Next(b, Put(p)).value, s)
  {
    var b', f := Next(b, Put(p)).value, b.inFlight[p];
    PutOneShape(b, p);
    var t := f.owed[0];
    OfferHands(b.subscribers[t], f.number);
    assert SubscriberSane(b, s);
    var sub := b'.subscribers[s];
    forall i | 0 <= i < |Handed(sub)| ensures sub.joined <= Handed(sub)[i] < Until(b', s) {
      assert Handed(sub)[i] in Handed(sub);
      assert Handed(sub)[i] in Handed(b.subscribers[s]) || (s == t && Handed(sub)[i] == f.number);
    }
  }

  lemma {:induction false} PutOneKeeps(b: Bus, p: nat)
    requires Sane(b) && Next(b, Put(p)).Some? && b.inFlight[p].owed != []
    ensures Sane(Next(b, Put(p)).value)
  {
    var b' := Next(b, Put(p)).value;
    PutOneShape(b, p);
    PutOneFlights(b, p);
    forall s | s in b'.subscribers ensures SubscriberSane(b', s) && WindowCovered(b', s) {
      PutOneSubscriber(b, p, s);
      PutOneCovers(b, p, s);
    }
  }

  lemma {:induction false} SubscribeShape(b: Bus, s: nat)
    requires Sane(b) && s !in b.subscribers
    ensures var b' := Next(b, Subscribe(s)).value; RegisteredKnown(b') && StayersRegistered(b') && OwedFresh(b')
  {
    var b' := Next(b, Subscribe(s)).value;
    assert s !in b.registered;
    assert forall x :: x in b'.registered <==> x in b.registered || x == s;
    DistinctInsert(b.registered, s, []);
    assert b.registered + [] == b.registered && b.registered + [s] + [] == b'.registered;
    forall p, t | p in b'.inFlight && t in b'.inFlight[p].owed
      ensures t in b.subscribers && t != s
    {
    }
  }

  lemma {:induction false} SubscribeKeeps(b: Bus, s: nat)
    requires Sane(b) && s !in b.subscribers
    ensures Sane(Next(b, Subscribe(s)).value)
  {
    var b' := Next(b, Subscribe(s)).value;
    SubscribeShape(b, s);
    assert Handed(b'.subscribers[s]) == [];
    forall t | t in b'.subscribers ensures SubscriberSane(b', t) && WindowCovered(b', t) {
      if t != s {
        assert SubscriberSane(b, t) && WindowCovered(b, t);
        assert b'.subscribers[t] == b.subscribers[t];
        assert forall k :: IsOwed(b, t, k) <==> IsOwed(b', t, k);
      }
    }
  }

  /** A subscriber whose window, hand-overs and debts stay the same stays sane. */
  lemma {:induction false} SameForSubscriber(b: Bus, b': Bus, s: nat)
    requires s in b.subscribers && s in b'.subscribers && SubscriberSane(b, s) && WindowCovered(b, s)
    requires b'.inFlight == b.inFlight && b'.published == b.published
    requires Until(b', s) == Until(b, s) && b'.subscribers[s].joined == b.subscribers[s].joined
    requires b'.subscribers[s].snapshot == b.subscribers[s].snapshot
    requires Handed(b'.subscribers[s]) == Handed(b.subscribers[s]) && |b'.subscribers[s].queue| <= QUEUE_SIZE
    ensures SubscriberSane(b', s) && WindowCovered(b', s)
  {
    forall k | b.subscribers[s].joined <= k < Until(b', s) && k !in Handed(b'.subscribers[s]) ensures IsOwed(b', s, k) {
      assert IsOwed(b, s, k);
    }
  }

  /** The same subscribers with the same windows, hand-overs and debts. */
  predicate SameWindows(b: Bus, b': Bus) {
    && b'.inFlight == b.inFlight && b'.published == b.published && b'.subscribers.Keys == b.subscribers.Keys
    && forall t | t in b.subscribers ::
         && Handed(b'.subscribers[t]) == Handed(b.subscribers[t]) && Until(b', t) == Until(b, t)
         && b'.subscribers[t].joined == b.subscribers[t].joined && b'.subscribers[t].snapshot == b.subscribers[t].snapshot
         && |b'.subscribers[t].queue| <= |b.subscribers[t].queue|
  }

  lemma {:induction false} SameWindowsKeep(b: Bus, b': Bus)
    requires Sane(b) && SameWindows(b, b') && b'.history == b.history
    requires RegisteredKnown(b') && StayersRegistered(b')
    ensures Sane(b')
  {
    assert OwedFresh(b');
    forall t | t in b'.subscribers ensures SubscriberSane(b', t) && WindowCovered(b', t) {
      assert SubscriberSane(b, t) && WindowCovered(b, t);
      SameForSubscriber(b, b', t);
    }
  }

  lemma {:induction false} UnsubscribeShape(b: Bus, s: nat)
    requires Sane(b) && Next(b, Unsubscribe(s)).Some?
    ensures var b' := Next(b, Unsubscribe(s)).value; RegisteredKnown(b') && StayersRegistered(b')
  {
    var b' := Next(b, Unsubscribe(s)).value;
    RemoveKeeps(b.registered, s);
    assert b.subscribers[s].left.None?;
    forall i | 0 <= i < |b'.registered|
      ensures b'.registered[i] in b'.subscribers && b'.subscribers[b'.registered[i]].left.None?
    {
      assert b'.registered[i] in Remove(b.registered, s);
    }
  }

  lemma {:induction false} UnsubscribeKeeps(b: Bus, s: nat)
    requires Sane(b) && Next(b, Unsubscribe(s)).Some?
    ensures Sane(Next(b, Unsubscribe(s)).value)
  {
    var b' := Next(b, Unsubscribe(s)).value;
    UnsubscribeShape(b, s);
    assert b.subscribers[s].left.None?;
    assert SameWindows(b, b');
    SameWindowsKeep(b, b');
  }

  lemma {:induction false} GetShape(b: Bus, s: nat)
    requires Next(b, Get(s)).Some?
    ensures SameWindows(b, Next(b, Get(s)).value)
    ensures forall t | t in b.subscribers :: Next(b, Get(s)).value.subscribers[t].left == b.subscribers[t].left
  {
    var sub, q := b.subscribers[s], b.subscribers[s].queue;
    assert sub.consumed + [q[0]] + q[1..] + sub.dropped == sub.consumed + q + sub.dropped by {
      assert q == [q[0]] + q[1..];
    }
  }

  lemma {:induction false} GetKeeps(b: Bus, s: nat)
    requires Sane(b) && Next(b, Get(s)).Some?
    ensures Sane(Next(b, Get(s)).value)
  {
    var b' := Next(b, Get(s)).value;
    GetShape(b, s);
    assert b'.registered == b.registered;
    SameWindowsKeep(b, b');
  }

  lemma {:induction false} StepKeeps(b: Bus, step: Step)
    requires Sane(b) && Next(b, step).Some?
    ensures Sane(Next(b, step).value)
  {
    match step
    case Publish(p, frame) => PublishKeeps(b, p, frame);
    case Put(p) => PutKeeps(b, p);
    case Subscribe(s) => SubscribeKeeps(b, s);
    case Unsubscribe(s) => UnsubscribeKeeps(b, s);
    case Get(s) => GetKeeps(b, s);
  }

  lemma {:induction false} RunKeeps(b: Bus, steps: seq<Step>)
    requires Sane(b)
    ensures Sane(Run(b, steps))
    decreases |steps|
  {
    if steps != [] {
      match Next(b, steps[0])
      case None => RunKeeps(b, steps[1..]);
      case Some(next) => StepKeeps(b, steps[0]); RunKeeps(next, steps[1..]);
    }
  }

  /** Exactly-once handoff: after any interleaving, each frame published before a subscriber left
      has exactly one fate for it, and none is handed over twice. */
  lemma {:induction false} ExactlyOnce(steps: seq<Step>, s: nat, number: nat) returns (fate: Fate)
    requires var b := Run(EMPTY, steps); s in b.subscribers && number < Until(b, s)
    ensures var b := Run(EMPTY, steps);
            && HasFate(b, s, number, fate)
            && (forall other: Fate | HasFate(b, s, number, other) :: other == fate)
            && Distinct(Handed(b.subscribers[s]))
  {
    var b := Run(EMPTY, steps);
    RunKeeps(EMPTY, steps);
    var sub := b.subscribers[s];
    assert SubscriberSane(b, s) && WindowCovered(b, s);
    OneHand(sub, number);
    RangeHolds(Oldest(sub.joined), sub.joined, number);
    if number < sub.joined {
      fate := if number in sub.snapshot then InSnapshot else EvictedBefore;
      assert number !in Handed(sub);
    } else {
      fate := if number in sub.queue then Waiting
              else if number in sub.consumed then Consumed
              else if number in sub.dropped then Dropped
              else Owed;
    }
  }

  lemma {:induction false} RangeHolds(from: nat, to: nat, n: nat)
    requires from <= to
    ensures n in Range(from, to) <==> from <= n < to
  {
    if from <= n < to {
      assert Range(from, to)[n - from] == n;
    }
  }

  lemma {:induction false} OneHand(sub: Subscriber, n: nat)
    requires Distinct(Handed(sub))
    ensures n in Handed(sub) <==> n in sub.consumed || n in sub.queue || n in sub.dropped
    ensures !(n in sub.consumed && n in sub.queue)
    ensures !(n in sub.consumed && n in sub.dropped)
    ensures !(n in sub.queue && n in sub.dropped)
  {
    var h, a, c := Handed(sub), |sub.consumed|, |sub.consumed| + |sub.queue|;
    assert forall i | 0 <= i < a :: h[i] == sub.consumed[i];
    assert forall i | 0 <= i < |sub.queue| :: h[a + i] == sub.queue[i];
    assert forall i | 0 <= i < |sub.dropped| :: h[c + i] == sub.dropped[i];
  }

  // ----- A single publisher -----

  /** Steps of consumers and of one publisher. */
  predicate Solo(steps: seq<Step>, publisher: nat) {
    forall i | 0 <= i < |steps| ::
      (steps[i].Publish? ==> steps[i].publisher == publisher) && (steps[i].Put? ==> steps[i].publisher == publisher)
  }

  /** How far into the published frames a subscriber has been served. */
  function Served(b: Bus, s: nat, publisher: nat): nat
    requires s in b.subscribers
  {
    if publisher in b.inFlight && s in b.inFlight[publisher].owed then b.inFlight[publisher].number else Until(b, s)
  }

  /** Without drops, a subscriber has been handed a gap-free run of frames in order. */
  predicate InOrderFor(b: Bus, s: nat, publisher: nat)
    requires s in b.subscribers
  {
    var sub := b.subscribers[s];
    sub.dropped == [] ==>
      sub.joined <= Served(b, s, publisher) && sub.consumed + sub.queue == Range(sub.joined, Served(b, s, publisher))
  }

  /** The only frame that can be owed is the last one published. */
  predicate LastOwed(b: Bus, publisher: nat) {
    && (forall p | p in b.inFlight :: p == publisher)
    && (publisher in b.inFlight ==> b.inFlight[publisher].number == |b.published| - 1)
  }

  predicate Orderly(b: Bus, publisher: nat) {
    Sane(b) && LastOwed(b, publisher) && forall s | s in b.subscribers :: InOrderFor(b, s, publisher)
  }

  lemma {:induction false} RangeGrows(from: nat, to: nat)
    requires from <= to
    ensures Range(from, to) + [to] == Range(from, to + 1)
  {
  }

  lemma {:induction false} SoloPublish(b: Bus, p: nat, frame: Frame)
    requires Orderly(b, p) && p !in b.inFlight
    ensures Orderly(Next(b, Publish(p, frame)).value, p)
  {
    StepKeeps(b, Publish(p, frame));
    var b' := Next(b, Publish(p, frame)).value;
    forall s | s in b'.subscribers ensures InOrderFor(b', s, p) {
      assert InOrderFor(b, s, p) && SubscriberSane(b, s);
      assert Served(b', s, p) == Served(b, s, p);
    }
  }

  lemma {:induction false} SoloPutOne(b: Bus, p: nat, s: nat)
    requires Orderly(b, p) && Next(b, Put(p)).Some? && b.inFlight[p].owed != [] && s in b.subscribers
    ensures InOrderFor(Next(b, Put(p)).value, s, p)
  {
    var b', f := Next(b, Put(p)).value, b.inFlight[p];
    PutOneShape(b, p);
    assert InOrderFor(b, s, p) && SubscriberSane(b, s);
    if s == f.owed[0] {
      var sub, sub' := b.subscribers[s], b'.subscribers[s];
      assert Served(b, s, p) == f.number && Served(b', s, p) == Until(b, s) == f.number + 1;
      if sub'.dropped == [] {
        assert sub' == sub.(queue := sub.queue + [f.number]);
        assert sub'.consumed + sub'.queue == sub.consumed + sub.queue + [f.number];
        RangeGrows(sub.joined, f.number);
      }
    }
  }

  lemma {:induction false} SoloPut(b: Bus, p: nat)
    requires Orderly(b, p) && Next(b, Put(p)).Some?
    ensures Orderly(Next(b, Put(p)).value, p)
  {
    StepKeeps(b, Put(p));
    var b' := Next(b, Put(p)).value;
    forall s | s in b'.subscribers ensures InOrderFor(b', s, p) {
      if b.inFlight[p].owed != [] {
        PutOneShape(b, p);
        SoloPutOne(b, p, s);
      } else {
        assert InOrderFor(b, s, p);
      }
    }
  }

  lemma {:induction false} SoloOtherFor(b: Bus, step: Step, p: nat, s: nat)
    requires Orderly(b, p) && Next(b, step).Some? && !step.Publish? && !step.Put? && s in b.subscribers
    ensures InOrderFor(Next(b, step).value, s, p)
  {
    assert InOrderFor(b, s, p);
    OtherHands(b, step, s);
  }

  /** A step that publishes and puts nothing changes neither what a subscriber has been handed nor
      how far its window goes. */
  lemma {:induction false} OtherHands(b: Bus, step: Step, s: nat)
    requires RegisteredKnown(b) && Next(b, step).Some? && !step.Publish? && !step.Put? && s in b.subscribers
    ensures var b' := Next(b, step).value;
            && b'.inFlight == b.inFlight && s in b'.subscribers && Until(b', s) == Until(b, s)
            && b'.subscribers[s].dropped == b.subscribers[s].dropped && b'.subscribers[s].joined == b.subscribers[s].joined
            && b'.subscribers[s].consumed + b'.subscribers[s].queue == b.subscribers[s].consumed + b.subscribers[s].queue
  {
    var sub := b.subscribers[s];
    if step == Get(s) {
      assert sub.queue == [sub.queue[0]] + sub.queue[1..];
      assert sub.consumed + ([sub.queue[0]] + sub.queue[1..]) == sub.consumed + [sub.queue[0]] + sub.queue[1..];
    }
  }

  lemma {:induction false} SoloOther(b: Bus, step: Step, p: nat)
    requires Orderly(b, p) && Next(b, step).Some? && !step.Publish? && !step.Put?
    ensures Orderly(Next(b, step).value, p)
  {
    StepKeeps(b, step);
    var b' := Next(b, step).value;
    forall s | s in b'.subscribers ensures InOrderFor(b', s, p) {
      if s in b.subscribers {
        SoloOtherFor(b, step, p, s);
      } else {
        assert p in b.inFlight ==> s !in b.inFlight[p].owed;
        assert b'.subscribers[s] == Subscriber(|b.published|, None, b.history, [], [], []);
      }
    }
  }

  lemma {:induction false} SoloKeeps(b: Bus, steps: seq<Step>, p: nat)
    requires Orderly(b, p) && Solo(steps, p)
    ensures Orderly(Run(b, steps), p)
    decreases |steps|
  {
    if steps != [] {
      assert forall i | 0 <= i < |steps[1..]| :: steps[1..][i] == steps[i + 1];
      match Next(b, steps[0])
      case None => SoloKeeps(b, steps[1..], p);
      case Some(next) =>
        match steps[0] {
          case Publish(_, frame) => SoloPublish(b, p, frame);
          case Put(_) => SoloPut(b, p);
          case _ => SoloOther(b, steps[0], p);
        }
        SoloKeeps(next, steps[1..], p);
    }
  }
}
