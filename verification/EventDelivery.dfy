/** Delivery of storage events (internal/storage/subscriptionmgr.go): notifiers put
    batches into a bounded channel, one goroutine takes them out and hands each event
    to every subscriber. Runs are interleavings of the steps below. */
module EventDelivery {
  import opened Common

  const EVENT_BUFFER_SIZE := 32

  datatype Event = Nop | Change(id: nat)

  function NonNop(events: seq<Event>): seq<Event> {
    if events == [] then []
    else if events[0] == Nop then NonNop(events[1..])
    else [events[0]] + NonNop(events[1..])
  }

  lemma {:induction false} NonNopSplit(a: seq<Event>, b: seq<Event>)
    ensures NonNop(a + b) == NonNop(a) + NonNop(b)
  {
    if a == [] {
      assert a + b == b;
    } else {
      assert (a + b)[1..] == a[1..] + b;
      NonNopSplit(a[1..], b);
      if a[0] != Nop {
        assert [a[0]] + (NonNop(a[1..]) + NonNop(b)) == ([a[0]] + NonNop(a[1..])) + NonNop(b);
      }
    }
  }

  lemma {:induction false} NonNopFilters(events: seq<Event>)
    ensures Nop !in NonNop(events)
    ensures Nop !in events ==> NonNop(events) == events
    ensures forall e :: e in NonNop(events) <==> e in events && e != Nop
  {
    if events != [] {
      NonNopFilters(events[1..]);
      assert events == [events[0]] + events[1..];
    }
  }

  /** The slice itself when there is nothing to drop, a filtered copy otherwise. */
  method WithoutNopEvents(events: seq<Event>) returns (filtered: seq<Event>)
    ensures filtered == NonNop(events) && Nop !in filtered
  {
    NonNopFilters(events);
    var hasNop := false;
    var i := 0;
    while i < |events| && !hasNop
      invariant 0 <= i <= |events|
      invariant !hasNop ==> Nop !in events[..i]
    {
      if events[i] == Nop {
        hasNop := true;
      }
      i := i + 1;
    }
    if !hasNop {
      assert events[..i] == events;
      return events;
    }
    filtered := [];
    i := 0;
    while i < |events|
      invariant 0 <= i <= |events|
      invariant filtered == NonNop(events[..i])
    {
      NonNopSplit(events[..i], [events[i]]);
      assert events[..i + 1] == events[..i] + [events[i]];
      assert [events[i]][1..] == [];
      if events[i] != Nop {
        filtered := filtered + [events[i]];
      }
      i := i + 1;
    }
    assert events[..i] == events;
  }

  // ---- states ------------------------------------------------------------------------

  /** A caller of NotifySubscribers still has events to send. A caller of
      NotifySubscribersAndWait offers its batch, waits for it, and returns; `start`
      and `end` say where the batch is in the stream of all events sent. */
  datatype Notifier =
    | Sending(left: seq<Event>)
    | Sent
    | Offering(events: seq<Event>)
    | Awaiting(events: seq<Event>, start: nat, end: nat)
    | Done(events: seq<Event>, start: nat, end: nat)
    | Failed(events: seq<Event>, placed: bool, start: nat, end: nat)

  /** `done` is the notifier whose channel is closed after the batch. */
  datatype Batch = Batch(events: seq<Event>, done: Option<nat>)

  /** The events received since the subscription, made when `since` events had been
      handed out. */
  datatype Subscriber = Subscriber(since: nat, received: seq<Event>)

  /** `current` is the batch taken from the channel, without the events already
      handed out; `pending` the subscribers that its first event has not reached while
      the read lock is held; `next` counts the events handed out; `stream` is every
      event ever sent into the channel. */
  datatype State = State(
    notifiers: seq<Notifier>, stream: seq<Event>, buffer: seq<Batch>, current: Option<Batch>,
        pending: Option<set<string>>,
    next: nat, subscribers: map<string, Subscriber>, closed: set<nat>, stopped: bool, exited: bool)

  const INITIAL := State([], [], [], None, None, 0, map[], {}, false, false)

  datatype Action =
    | Notify(events: seq<Event>)
    | NotifyAndWait(events: seq<Event>)
    | Skip(n: nat)              // the loop of NotifySubscribers passes a Nop
    | Send(n: nat)              // ... or sends the next event
    | Finish(n: nat)            // ... or ends
    | Offer(n: nat)             // NotifySubscribersAndWait sends its batch
    | Wake(n: nat)              // ... finds its channel closed
    | Cancel(n: nat)            // ... or sees the end of a context
    | Receive
    | Begin                     // take the read lock for the next event
    | Deliver(subscriber: string)
    | EndEvent                  // release it
    | Close
    | Subscribe(subscriber: string)
    | Unsubscribe(subscriber: string)
    | Stop
    | Exit

  predicate Is(s: State, n: nat) {
    n < |s.notifiers|
  }

  predicate HasRoom(s: State) {
    |s.buffer| < EVENT_BUFFER_SIZE
  }

  predicate Enabled(s: State, a: Action) {
    match a
    case Notify(_) => true
    case NotifyAndWait(_) => true
    case Skip(n) => Is(s, n) && s.notifiers[n].Sending? && s.notifiers[n].left != [] && s.notifiers[n].left[0] == Nop
    case Send(n) =>
        Is(s, n) && s.notifiers[n].Sending? && s.notifiers[n].left != [] && s.notifiers[n].left[0] != Nop && HasRoom(s)
    case Finish(n) => Is(s, n) && s.notifiers[n].Sending? && (s.notifiers[n].left == [] || s.stopped)
    case Offer(n) => Is(s, n) && s.notifiers[n].Offering? && HasRoom(s)
    case Wake(n) => Is(s, n) && s.notifiers[n].Awaiting? && n in s.closed
    case Cancel(n) => Is(s, n) && (s.notifiers[n].Offering? || s.notifiers[n].Awaiting?)
    case Receive => !s.exited && s.current.None? && s.buffer != []
    case Begin => s.current.Some? && s.current.value.events != [] && s.pending.None?
    case Deliver(x) =>
        s.pending.Some? && x in s.pending.value && x in s.subscribers && s.current.Some? && s.current.value.events != []
    case EndEvent => s.pending == Some({}) && s.current.Some? && s.current.value.events != []
    case Close => s.current.Some? && s.current.value.events == []
    case Subscribe(_) => s.pending.None?
    case Unsubscribe(_) => s.pending.None?
    case Stop => true
    case Exit => s.stopped && s.current.None?
  }

  function Apply(s: State, a: Action): State
    requires Enabled(s, a)
  {
    match a
    case Notify(events) => s.(notifiers := s.notifiers + [Sending(events)])
    case NotifyAndWait(events) =>
      s.(notifiers := s.notifiers + [if NonNop(events) == [] then Done(events, 0, 0) else Offering(events)])
    case Skip(n) => s.(notifiers := s.notifiers[n := Sending(s.notifiers[n].left[1..])])
    case Send(n) =>
      var evt := s.notifiers[n].left[0];
      s.(notifiers := s.notifiers[n := Sending(s.notifiers[n].left[1..])],
         stream := s.stream + [evt], buffer := s.buffer + [Batch([evt], None)])
    case Finish(n) => s.(notifiers := s.notifiers[n := Sent])
    case Offer(n) =>
      var events := s.notifiers[n].events;
      s.(notifiers := s.notifiers[n := Awaiting(events, |s.stream|, |s.stream| + |NonNop(events)|)],
         stream := s.stream + NonNop(events), buffer := s.buffer + [Batch(NonNop(events), Some(n))])
    case Wake(n) =>
        s.(notifiers := s.notifiers[n := Done(s.notifiers[n].events, s.notifiers[n].start, s.notifiers[n].end)])
    case Cancel(n) =>
      s.(notifiers := s.notifiers[n := if s.notifiers[n].Offering? then Failed(s.notifiers[n].events, false, 0, 0)
                                       else Failed(s.notifiers[n].events, true, s.notifiers[n].start,
                                           s.notifiers[n].end)])
    case Receive => s.(buffer := s.buffer[1..], current := Some(s.buffer[0]))
    case Begin => s.(pending := Some(s.subscribers.Keys))
    case Deliver(x) =>
      var sub := s.subscribers[x];
      s.(pending := Some(s.pending.value - {x}),
         subscribers := s.subscribers[x := sub.(received := sub.received + [s.current.value.events[0]])])
    case EndEvent =>
        s.(pending := None, current := Some(s.current.value.(events := s.current.value.events[1..])),
        next := s.next + 1)
    case Close =>
        s.(current := None, closed := if s.current.value.done.Some? then s.closed + {s.current.value.done.value}
        else s.closed)
    case Subscribe(x) => s.(subscribers := s.subscribers[x := Subscriber(s.next, [])])
    case Unsubscribe(x) => s.(subscribers := s.subscribers - {x})
    case Stop => s.(stopped := true)
    case Exit => s.(exited := true)
  }

  ghost predicate Run(states: seq<State>, actions: seq<Action>) {
    && |states| == |actions| + 1
    && states[0] == INITIAL
    && forall i | 0 <= i < |actions| :: Enabled(states[i], actions[i]) && states[i + 1] == Apply(states[i], actions[i])
  }

  // ---- what every step keeps ----------------------------------------------------------

  function Flatten(buffer: seq<Batch>): seq<Event> {
    if buffer == [] then [] else buffer[0].events + Flatten(buffer[1..])
  }

  lemma {:induction false} FlattenSnoc(buffer: seq<Batch>, b: Batch)
    ensures Flatten(buffer + [b]) == Flatten(buffer) + b.events
  {
    if buffer == [] {
      assert buffer + [b] == [b];
      assert [b][1..] == [];
    } else {
      FlattenSnoc(buffer[1..], b);
      assert (buffer + [b])[1..] == buffer[1..] + [b];
    }
  }

  lemma FlattenHead(buffer: seq<Batch>)
    requires buffer != []
    ensures Flatten(buffer) == buffer[0].events + Flatten(buffer[1..])
  {
  }

  function InHand(current: Option<Batch>): seq<Event> {
    if current.Some? then current.value.events else []
  }

  /** Nothing is lost, duplicated or reordered between the channel and the handler. */
  ghost predicate Conserved(s: State) {
    s.next <= |s.stream| && s.stream[s.next..] == InHand(s.current) + Flatten(s.buffer)
  }

  ghost predicate Bounded(s: State) {
    |s.buffer| <= EVENT_BUFFER_SIZE && Nop !in s.stream
  }

  ghost predicate Locked(s: State) {
    s.pending.Some? ==> s.current.Some? && s.current.value.events != [] && s.pending.value <= s.subscribers.Keys
  }

  /** How far into the stream a subscriber has been served. */
  function Reached(s: State, x: string): nat {
    if s.pending.Some? && x !in s.pending.value then s.next + 1 else s.next
  }

  /** A subscriber has received the stretch of the stream since it subscribed. */
  ghost predicate Served(s: State) {
    forall x | x in s.subscribers ::
        s.subscribers[x].since <= s.next && Received(s.subscribers[x], s.stream, Reached(s, x))
  }

  ghost predicate Received(sub: Subscriber, stream: seq<Event>, reached: nat) {
    sub.since <= reached <= |stream| && sub.received == stream[sub.since..reached]
  }

  predicate Placed(n: Notifier) {
    n.Awaiting? || n.Done? || (n.Failed? && n.placed)
  }

  ghost predicate Positioned(s: State) {
    forall n | 0 <= n < |s.notifiers| && Placed(s.notifiers[n]) ::
      s.notifiers[n].start <= s.notifiers[n].end <= |s.stream|
          && s.stream[s.notifiers[n].start..s.notifiers[n].end] == NonNop(s.notifiers[n].events)
  }

  /** The batches with a waiter end where that waiter's batch ends. */
  ghost predicate Queued(notifiers: seq<Notifier>, buffer: seq<Batch>, position: nat) {
    buffer == [] ||
    (EndsAt(notifiers, buffer[0], position) && Queued(notifiers, buffer[1..], position + |buffer[0].events|))
  }

  ghost predicate EndsAt(notifiers: seq<Notifier>, b: Batch, position: nat) {
    b.done.Some? ==>
      b.done.value < |notifiers| && Placed(notifiers[b.done.value])
          && notifiers[b.done.value].end == position + |b.events|
  }

  ghost predicate Tracked(s: State) {
    && (s.current.Some? ==> EndsAt(s.notifiers, s.current.value, s.next))
    && Queued(s.notifiers, s.buffer, s.next + |InHand(s.current)|)
  }

  /** A channel is closed, and its waiter returns nil, once the batch is handed out. */
  ghost predicate Signalled(s: State) {
    && (forall n | n in s.closed :: n < |s.notifiers| && Placed(s.notifiers[n]) && s.notifiers[n].end <= s.next)
    && (forall n | 0 <= n < |s.notifiers| && s.notifiers[n].Done? :: s.notifiers[n].end <= s.next)
  }

  /** The batch of a waiter whose channel is open is still on its way. */
  ghost predicate Underway(s: State) {
    forall n | 0 <= n < |s.notifiers| && s.notifiers[n].Awaiting? && n !in s.closed ::
      (s.current.Some? && s.current.value.done == Some(n)) || exists b | b in s.buffer :: b.done == Some(n)
  }

  ghost predicate Inv(s: State) {
    Conserved(s) && Bounded(s) && Locked(s) && Served(s) && Positioned(s) && Tracked(s) && Signalled(s) && Underway(s)
  }

  lemma Appended(stream: seq<Event>, next: nat, inHand: seq<Event>, buffer: seq<Batch>, b: Batch)
    requires next <= |stream| && stream[next..] == inHand + Flatten(buffer)
    ensures (stream + b.events)[next..] == inHand + Flatten(buffer + [b])
  {
    FlattenSnoc(buffer, b);
    hide Flatten;
    assert (stream + b.events)[next..] == stream[next..] + b.events;
  }

  lemma HandedOut(stream: seq<Event>, next: nat, inHand: seq<Event>, rest: seq<Event>)
    requires next <= |stream| && stream[next..] == inHand + rest && inHand != []
    ensures next < |stream| && stream[next + 1..] == inHand[1..] + rest && stream[next] == inHand[0]
  {
    assert stream[next] == stream[next..][0];
    assert stream[next + 1..] == stream[next..][1..];
    assert (inHand + rest)[1..] == inHand[1..] + rest;
  }

  lemma StepConserves(s: State, a: Action)
    requires Inv(s) && Enabled(s, a)
    ensures Conserved(Apply(s, a))
  {
    hide Served, Positioned, Tracked, Signalled, Underway, Bounded, Locked, NonNop, Flatten;
    match a {
      case Receive =>
        FlattenHead(s.buffer);
      case Send(n) =>
        Appended(s.stream, s.next, InHand(s.current), s.buffer, Batch([s.notifiers[n].left[0]], None));
      case Offer(n) =>
        Appended(s.stream, s.next, InHand(s.current), s.buffer, Batch(NonNop(s.notifiers[n].events), Some(n)));
      case EndEvent =>
        HandedOut(s.stream, s.next, s.current.value.events, Flatten(s.buffer));
      case _ =>
    }
  }

  lemma StepBounds(s: State, a: Action)
    requires Inv(s) && Enabled(s, a)
    ensures Bounded(Apply(s, a))
  {
    hide Served, Positioned, Tracked, Signalled, Underway, Conserved, Flatten, Locked;
    if a.Offer? {
      NonNopFilters(s.notifiers[a.n].events);
    }
    hide NonNop;
  }

  lemma StepLocks(s: State, a: Action)
    requires Inv(s) && Enabled(s, a)
    ensures Locked(Apply(s, a))
  {
    hide Served, Positioned, Tracked, Signalled, Underway, Conserved, Flatten, Bounded, NonNop;
  }

  lemma ReceivedStill(sub: Subscriber, stream: seq<Event>, stream': seq<Event>, reached: nat)
    requires Received(sub, stream, reached) && stream <= stream'
    ensures Received(sub, stream', reached)
  {
    assert stream'[sub.since..reached] == stream[sub.since..reached];
  }

  lemma ReceivedMore(sub: Subscriber, stream: seq<Event>, reached: nat)
    requires Received(sub, stream, reached) && reached < |stream|
    ensures Received(sub.(received := sub.received + [stream[reached]]), stream, reached + 1)
  {
    assert stream[sub.since..reached + 1] == stream[sub.since..reached] + [stream[reached]];
  }

  lemma ReceivedNone(stream: seq<Event>, next: nat)
    requires next <= |stream|
    ensures Received(Subscriber(next, []), stream, next)
  {
  }

  /** The steps of the handler and of subscribers. */
  predicate Serving(a: Action) {
    a.Begin? || a.Deliver? || a.EndEvent? || a.Subscribe? || a.Unsubscribe?
  }

  lemma OthersServeNobody(s: State, a: Action)
    requires Enabled(s, a)
    ensures s.stream <= Apply(s, a).stream
    ensures !Serving(a) ==>
            Apply(s, a).subscribers == s.subscribers && Apply(s, a).pending == s.pending && Apply(s, a).next == s.next
  {
    hide NonNop;
  }

  lemma ServingServes(s: State, a: Action)
    requires Locked(s) && Served(s) && Enabled(s, a) && Serving(a) && s.next <= |s.stream|
    requires s.current.Some? && s.current.value.events != [] ==>
             s.next < |s.stream| && s.stream[s.next] == s.current.value.events[0]
    ensures Served(Apply(s, a))
  {
    hide Received;
    match a {
      case Deliver(x) => ReceivedMore(s.subscribers[x], s.stream, s.next);
      case Subscribe(_) => ReceivedNone(s.stream, s.next);
      case _ =>
    }
  }

  lemma StepServes(s: State, a: Action)
    requires Inv(s) && Enabled(s, a)
    ensures Served(Apply(s, a))
  {
    if Serving(a) {
      if s.current.Some? && s.current.value.events != [] {
        HandedOut(s.stream, s.next, s.current.value.events, Flatten(s.buffer));
      }
      ServingServes(s, a);
      hide *;
    } else {
      OthersServeNobody(s, a);
      hide Apply, Enabled, Positioned, Tracked, Signalled, Underway, Bounded, Flatten, Conserved, Received;
      forall x | x in s.subscribers ensures Received(s.subscribers[x], Apply(s, a).stream, Reached(s, x)) {
        ReceivedStill(s.subscribers[x], s.stream, Apply(s, a).stream, Reached(s, x));
      }
    }
  }

  lemma StepPositions(s: State, a: Action)
    requires Inv(s) && Enabled(s, a)
    ensures Positioned(Apply(s, a))
  {
    hide Served, Tracked, Signalled, Underway, Bounded, Conserved, Locked, Flatten;
    var s' := Apply(s, a);
    forall n | 0 <= n < |s'.notifiers| && Placed(s'.notifiers[n])
      ensures s'.notifiers[n].start <= s'.notifiers[n].end <= |s'.stream|
      ensures s'.stream[s'.notifiers[n].start..s'.notifiers[n].end] == NonNop(s'.notifiers[n].events)
    {
      if n < |s.notifiers| && Placed(s.notifiers[n]) {
        assert s'.stream[s.notifiers[n].start..s.notifiers[n].end] ==
            s.stream[s.notifiers[n].start..s.notifiers[n].end];
      }
    }
  }

  /** A notifier that has its place in the stream keeps it. */
  ghost predicate KeepPlace(notifiers: seq<Notifier>, notifiers': seq<Notifier>) {
    forall n | 0 <= n < |notifiers| && Placed(notifiers[n]) ::
        n < |notifiers'| && Placed(notifiers'[n]) && notifiers'[n].end == notifiers[n].end
  }

  lemma {:induction false} QueuedKept(notifiers: seq<Notifier>, notifiers': seq<Notifier>, buffer: seq<Batch>,
                                      position: nat)
    requires Queued(notifiers, buffer, position) && KeepPlace(notifiers, notifiers')
    ensures Queued(notifiers', buffer, position)
    decreases |buffer|
  {
    if buffer != [] {
      QueuedKept(notifiers, notifiers', buffer[1..], position + |buffer[0].events|);
    }
  }

  lemma {:induction false} QueuedSnoc(notifiers: seq<Notifier>, buffer: seq<Batch>, position: nat, b: Batch)
    requires Queued(notifiers, buffer, position) && EndsAt(notifiers, b, position + |Flatten(buffer)|)
    ensures Queued(notifiers, buffer + [b], position)
    decreases |buffer|
  {
    if buffer == [] {
      assert buffer + [b] == [b];
    } else {
      QueuedSnoc(notifiers, buffer[1..], position + |buffer[0].events|, b);
      assert (buffer + [b])[1..] == buffer[1..] + [b];
    }
  }

  lemma StepKeepsPlaces(s: State, a: Action)
    requires Enabled(s, a)
    ensures KeepPlace(s.notifiers, Apply(s, a).notifiers)
  {
    hide NonNop;
  }

  lemma StepTracks(s: State, a: Action)
    requires Inv(s) && Enabled(s, a)
    ensures Tracked(Apply(s, a))
  {
    var s' := Apply(s, a);
    var position := s.next + |InHand(s.current)|;
    StepKeepsPlaces(s, a);
    QueuedKept(s.notifiers, s'.notifiers, s.buffer, position);
    hide Served, Positioned, Signalled, Underway, Bounded, Flatten, Locked, NonNop;
    if a.Receive? {
      assert EndsAt(s'.notifiers, s.buffer[0], position)
          && Queued(s'.notifiers, s.buffer[1..], position + |s.buffer[0].events|);
    }
    hide Queued;
    match a {
      case Send(n) => QueuedSnoc(s'.notifiers, s.buffer, position, Batch([s.notifiers[n].left[0]], None));
      case Offer(n) => QueuedSnoc(s'.notifiers, s.buffer, position, Batch(NonNop(s.notifiers[n].events), Some(n)));
      case _ =>
    }
  }

  lemma StepSignals(s: State, a: Action)
    requires Inv(s) && Enabled(s, a)
    ensures Signalled(Apply(s, a))
  {
    hide Served, Positioned, Bounded, Flatten, Locked, NonNop, Conserved, Queued, Underway;
  }

  lemma StepUnderway(s: State, a: Action)
    requires Inv(s) && Enabled(s, a)
    ensures Underway(Apply(s, a))
  {
    hide Served, Positioned, Bounded, Flatten, Locked, NonNop, Conserved, Queued, Tracked, Signalled;
    var s' := Apply(s, a);
    forall n | 0 <= n < |s'.notifiers| && s'.notifiers[n].Awaiting? && n !in s'.closed
      ensures (s'.current.Some? && s'.current.value.done == Some(n)) || exists b | b in s'.buffer :: b.done == Some(n)
    {
      if a == Offer(n) {
        assert s'.buffer[|s.buffer|].done == Some(n);
      } else if exists b | b in s.buffer :: b.done == Some(n) {
        var b :| b in s.buffer && b.done == Some(n);
        if a.Receive? {
          assert s.buffer == [s.buffer[0]] + s'.buffer;
        } else {
          assert b in s'.buffer;
        }
      }
    }
  }

  lemma StepKeeps(s: State, a: Action)
    requires Inv(s) && Enabled(s, a)
    ensures Inv(Apply(s, a))
  {
    StepConserves(s, a);
    StepBounds(s, a);
    StepLocks(s, a);
    StepServes(s, a);
    StepPositions(s, a);
    StepTracks(s, a);
    StepSignals(s, a);
    StepUnderway(s, a);
    hide Apply, Conserved, Bounded, Locked, Served, Positioned, Tracked, Signalled, Underway, Enabled;
  }

  lemma {:induction false} RunKeeps(states: seq<State>, actions: seq<Action>, i: nat)
    requires Run(states, actions) && i < |states|
    ensures Inv(states[i])
  {
    if i > 0 {
      hide Apply, Inv, Enabled;
      RunKeeps(states, actions, i - 1);
      StepKeeps(states[i - 1], actions[i - 1]);
    }
  }

  // ---- the guarantees ---------------------------------------------------------------------

  /** A subscriber receives the events sent since it subscribed in the order they were
      sent, each once and none left out, up to the event being handed out; never a Nop.
      The channel holds at most its capacity. */
  lemma DeliveredInOrder(states: seq<State>, actions: seq<Action>, i: nat, x: string)
    requires Run(states, actions) && i < |states| && x in states[i].subscribers
    ensures var s, sub := states[i], states[i].subscribers[x];
            && sub.since <= s.next <= Reached(s, x) <= |s.stream|
            && sub.received == s.stream[sub.since..Reached(s, x)] && Nop !in sub.received
            && s.stream[s.next..] == InHand(s.current) + Flatten(s.buffer)
            && |s.buffer| <= 32
  {
    RunKeeps(states, actions, i);
  }

  /** When NotifySubscribersAndWait returns nil, its events are next to each other in
      the stream, they and everything sent ahead of them have been handed out, and
      every current subscriber has received all of that since it subscribed. */
  lemma WaitedForDelivered(states: seq<State>, actions: seq<Action>, i: nat, n: nat, x: string)
    requires Run(states, actions) && i < |states| && n < |states[i].notifiers| && states[i].notifiers[n].Done?
    requires x in states[i].subscribers
    ensures var s, caller, sub := states[i], states[i].notifiers[n], states[i].subscribers[x];
            && caller.start <= caller.end <= s.next <= |s.stream|
            && s.stream[caller.start..caller.end] == NonNop(caller.events)
            && (sub.since <= caller.end ==>
                |sub.received| >= caller.end - sub.since
                && sub.received[..caller.end - sub.since] == s.stream[sub.since..caller.end])
            && (sub.since <= caller.start ==>
                sub.received[caller.start - sub.since..caller.end - sub.since] == NonNop(caller.events))
  {
    RunKeeps(states, actions, i);
    var s, caller, sub := states[i], states[i].notifiers[n], states[i].subscribers[x];
    hide NonNop, Flatten, Run;
    if sub.since <= caller.end {
      assert sub.received[..caller.end - sub.since] == s.stream[sub.since..caller.end];
      if sub.since <= caller.start {
        assert s.stream[sub.since..caller.end][caller.start - sub.since..] == s.stream[caller.start..caller.end];
      }
    }
  }

  // ---- what a caller of NotifySubscribers gets sent -----------------------------------------

  /** What the caller sends in one step. */
  function SentAt(s: State, a: Action, n: nat): seq<Event> {
    if a == Send(n) && Is(s, n) && s.notifiers[n].Sending? && s.notifiers[n].left != [] then [s.notifiers[n].left[0]]
    else []
  }

  function SentBy(states: seq<State>, actions: seq<Action>, n: nat, i: nat, j: nat): seq<Event>
    requires i <= j <= |actions| && |states| == |actions| + 1
    decreases j - i
  {
    if i == j then [] else SentBy(states, actions, n, i, j - 1) + SentAt(states[j - 1], actions[j - 1], n)
  }

  /** One step of the caller, or of anybody else. */
  lemma CallerSteps(s: State, a: Action, n: nat)
    requires Enabled(s, a) && Is(s, n) && (s.notifiers[n].Sending? || s.notifiers[n].Sent?)
    ensures var s' := Apply(s, a);
            && Is(s', n) && (s.stopped ==> s'.stopped)
            && if s.notifiers[n].Sent? then s'.notifiers[n].Sent? && a != Send(n)
               else
                 var left := s.notifiers[n].left;
                 if a == Send(n) then left != [] && left[0] != Nop && s'.notifiers[n] == Sending(left[1..])
                 else if a == Skip(n) then left != [] && left[0] == Nop && s'.notifiers[n] == Sending(left[1..])
                 else if a == Finish(n) then (left == [] || s'.stopped) && s'.notifiers[n] == Sent
                 else s'.notifiers[n] == s.notifiers[n]
  {
  }

  /** What has been sent of the events of a caller that is still sending, or has returned. */
  predicate Sends(caller: Notifier, sent: seq<Event>, events: seq<Event>, stopped: bool) {
    match caller
    case Sending(left) => sent + NonNop(left) == NonNop(events)
    case Sent => sent <= NonNop(events) && (sent == NonNop(events) || stopped)
    case _ => false
  }

  lemma RunStep(states: seq<State>, actions: seq<Action>, k: nat)
    requires Run(states, actions) && k < |actions|
    ensures |states| == |actions| + 1 && Enabled(states[k], actions[k]) && states[k + 1] == Apply(states[k], actions[k])
  {
  }

  lemma Notified(states: seq<State>, actions: seq<Action>, i: nat)
    requires Run(states, actions) && i < |actions| && actions[i].Notify?
    ensures var n := |states[i].notifiers|;
            && Is(states[i + 1], n) && states[i + 1].notifiers[n] == Sending(actions[i].events)
            && SentBy(states, actions, n, i, i + 1) == []
            && Sends(states[i + 1].notifiers[n], [], actions[i].events, states[i + 1].stopped)
  {
    RunStep(states, actions, i);
    assert [] + NonNop(actions[i].events) == NonNop(actions[i].events);
  }

  lemma SendsOn(s: State, a: Action, n: nat, sent: seq<Event>, events: seq<Event>)
    requires Enabled(s, a) && Is(s, n) && Sends(s.notifiers[n], sent, events, s.stopped)
    ensures var s' := Apply(s, a);
            Is(s', n) && Sends(s'.notifiers[n], sent + SentAt(s, a, n), events, s'.stopped)
  {
    CallerSteps(s, a, n);
    hide Apply, Enabled;
    var caller := s.notifiers[n];
    if caller.Sending? && caller.left != [] && caller.left[0] != Nop {
      assert sent + NonNop(caller.left) == sent + [caller.left[0]] + NonNop(caller.left[1..]);
    }
    assert sent + [] == sent;
  }

  /** NotifySubscribers sends its events in order, each once and no Nop; it returns
      before it has sent all of them only when the manager has been stopped. */
  lemma {:induction false} SentInOrder(states: seq<State>, actions: seq<Action>, i: nat, j: nat)
    requires Run(states, actions) && i < j <= |actions| && actions[i].Notify?
    ensures var n := |states[i].notifiers|;
            Is(states[j], n)
            && Sends(states[j].notifiers[n], SentBy(states, actions, n, i, j), actions[i].events, states[j].stopped)
    decreases j
  {
    RunStep(states, actions, j - 1);
    hide Apply, Enabled, Run, Sends, SentAt;
    var n := |states[i].notifiers|;
    if j == i + 1 {
      Notified(states, actions, i);
    } else {
      SentInOrder(states, actions, i, j - 1);
      SendsOn(states[j - 1], actions[j - 1], n, SentBy(states, actions, n, i, j - 1), actions[i].events);
    }
  }

  /** A caller of NotifySubscribersAndWait with nothing but Nops has nothing to wait for;
      any other caller has returned nothing yet. */
  lemma NothingToWaitFor(states: seq<State>, actions: seq<Action>, i: nat)
    requires Run(states, actions) && i < |actions| && actions[i].NotifyAndWait?
    ensures var n := |states[i].notifiers|;
            && Is(states[i + 1], n)
            && (states[i + 1].notifiers[n].Done? <==> forall e | e in actions[i].events :: e == Nop)
            && (states[i + 1].notifiers[n].Done? || states[i + 1].notifiers[n] == Offering(actions[i].events))
  {
    assert states[i + 1] == Apply(states[i], actions[i]);
    NonNopFilters(actions[i].events);
    if NonNop(actions[i].events) != [] {
      assert NonNop(actions[i].events)[0] in NonNop(actions[i].events);
    }
  }

  // ---- how long a waiting caller waits --------------------------------------------------------

  /** The steps of the goroutine that hands out events. */
  predicate HandlerStep(a: Action) {
    a.Receive? || a.Begin? || a.Deliver? || a.EndEvent? || a.Close?
  }

  lemma InvParts(s: State)
    requires Inv(s)
    ensures Locked(s) && Underway(s)
  {
  }

  /** While the handler runs, a waiting caller is never stuck: it can go on or the
      handler can take a step. */
  lemma NeverStuck(states: seq<State>, actions: seq<Action>, i: nat, n: nat)
    requires Run(states, actions) && i < |states| && Is(states[i], n) && !states[i].exited
    requires states[i].notifiers[n].Awaiting? || states[i].notifiers[n].Offering?
    ensures exists a :: Enabled(states[i], a) && (a == Offer(n) || a == Wake(n) || HandlerStep(a))
  {
    hide Inv, Run, Apply;
    RunKeeps(states, actions, i);
    var s := states[i];
    InvParts(s);
    if s.notifiers[n].Offering? && HasRoom(s) {
      assert Enabled(s, Offer(n));
    } else if s.notifiers[n].Awaiting? && n in s.closed {
      assert Enabled(s, Wake(n));
    } else if s.current.None? {
      assert Enabled(s, Receive);
    } else if s.current.value.events == [] {
      assert Enabled(s, Close);
    } else if s.pending.None? {
      assert Enabled(s, Begin);
    } else if s.pending.value == {} {
      assert Enabled(s, EndEvent);
    } else {
      var x :| x in s.pending.value;
      assert Enabled(s, Deliver(x));
    }
  }

  // ---- every waiting caller returns ----------------------------------------------------------

  /** The handler steps that events take with k subscribers: taking the lock, one
      delivery each, releasing it. */
  function EventsLeft(events: seq<Event>, k: nat): nat {
    if events == [] then 0 else k + 2 + EventsLeft(events[1..], k)
  }

  function BatchLeft(b: Batch, k: nat): nat {
    EventsLeft(b.events, k) + 2
  }

  /** The steps for the batches up to and including that of the n-th notifier. */
  function QueueLeft(buffer: seq<Batch>, n: nat, k: nat): nat {
    if buffer == [] then 0
    else BatchLeft(buffer[0], k) + if buffer[0].done == Some(n) then 0 else QueueLeft(buffer[1..], n, k)
  }

  /** The steps for the batch that was taken from the channel. */
  function CurrentLeft(s: State, k: nat): nat {
    if s.current.None? then 0
    else if s.pending.None? || s.current.value.events == [] then EventsLeft(s.current.value.events, k) + 1
    else EventsLeft(s.current.value.events[1..], k) + |s.pending.value| + 2
  }

  /** The handler steps until the batch of the n-th notifier is handed out. */
  function StepsAhead(s: State, n: nat): nat {
    var k := |s.subscribers|;
    CurrentLeft(s, k) + if s.current.Some? && s.current.value.done == Some(n) then 0 else QueueLeft(s.buffer, n, k)
  }

  /** The n-th notifier waits for its batch. */
  predicate Waits(s: State, n: nat) {
    Is(s, n) && s.notifiers[n].Awaiting? && n !in s.closed
  }

  lemma {:induction false} FewerSubscribers(events: seq<Event>, k: nat, k': nat)
    requires k' <= k
    ensures EventsLeft(events, k') <= EventsLeft(events, k)
  {
    if events != [] {
      FewerSubscribers(events[1..], k, k');
    }
  }

  lemma {:induction false} FewerInQueue(buffer: seq<Batch>, n: nat, k: nat, k': nat)
    requires k' <= k
    ensures QueueLeft(buffer, n, k') <= QueueLeft(buffer, n, k)
  {
    if buffer != [] {
      FewerSubscribers(buffer[0].events, k, k');
      FewerInQueue(buffer[1..], n, k, k');
    }
  }

  /** Batches behind that of the n-th notifier do not matter to it. */
  lemma {:induction false} QueueBehind(buffer: seq<Batch>, b: Batch, n: nat, k: nat)
    requires exists x | x in buffer :: x.done == Some(n)
    ensures QueueLeft(buffer + [b], n, k) == QueueLeft(buffer, n, k)
  {
    assert (buffer + [b])[0] == buffer[0];
    if buffer[0].done != Some(n) {
      assert buffer == [buffer[0]] + buffer[1..];
      assert (buffer + [b])[1..] == buffer[1..] + [b];
      QueueBehind(buffer[1..], b, n, k);
    }
  }

  lemma QueueTail(buffer: seq<Batch>, n: nat, k: nat)
    requires buffer != []
    ensures QueueLeft(buffer, n, k) == BatchLeft(buffer[0], k) + if buffer[0].done == Some(n) then 0
            else QueueLeft(buffer[1..], n, k)
  {
  }

  lemma EventsTail(events: seq<Event>, k: nat)
    requires events != []
    ensures EventsLeft(events, k) == k + 2 + EventsLeft(events[1..], k)
  {
  }

  lemma NoEvents(k: nat)
    ensures EventsLeft([], k) == 0
  {
  }

  /** The steps of the handler itself. */
  lemma HandlerGetsAhead(s: State, a: Action, n: nat)
    requires Locked(s) && Enabled(s, a) && HandlerStep(a) && Waits(s, n) && Waits(Apply(s, a), n)
    ensures StepsAhead(Apply(s, a), n) == StepsAhead(s, n) - 1
  {
    var s', k := Apply(s, a), |s.subscribers|;
    assert s'.subscribers.Keys == s.subscribers.Keys;
    assert |s'.subscribers| == |s'.subscribers.Keys| && k == |s.subscribers.Keys|;
    NoEvents(k);
    if s.current.Some? && s.current.value.events != [] {
      EventsTail(s.current.value.events, k);
    }
    if s.buffer != [] {
      QueueTail(s.buffer, n, k);
    }
    hide EventsLeft, QueueLeft;
  }

  /** No other step, a new subscription aside, puts anything in front. */
  lemma OthersStayBehind(s: State, a: Action, n: nat)
    requires Locked(s) && Underway(s) && Enabled(s, a) && !HandlerStep(a) && !a.Subscribe? && Waits(s, n)
    requires Waits(Apply(s, a), n)
    ensures StepsAhead(Apply(s, a), n) <= StepsAhead(s, n)
  {
    var s', k, k' := Apply(s, a), |s.subscribers|, |Apply(s, a).subscribers|;
    hide NonNop, EventsLeft, QueueLeft;
    match a {
      case Unsubscribe(_) =>
        assert k' == |s'.subscribers.Keys| && k == |s.subscribers.Keys|;
        SubsetSize(s'.subscribers.Keys, s.subscribers.Keys);
        FewerInQueue(s.buffer, n, k, k');
        if s.current.Some? {
          FewerSubscribers(s.current.value.events, k, k');
        }
      case Send(m) =>
        if s.current.None? || s.current.value.done != Some(n) {
          QueueBehind(s.buffer, Batch([s.notifiers[m].left[0]], None), n, k);
        }
      case Offer(m) =>
        if s.current.None? || s.current.value.done != Some(n) {
          QueueBehind(s.buffer, Batch(NonNop(s.notifiers[m].events), Some(m)), n, k);
        }
      case _ =>
    }
  }

  /** How many of the actions are steps of the handler. */
  function HandlerSteps(actions: seq<Action>, i: nat, j: nat): nat
    requires i <= j <= |actions|
    decreases j - i
  {
    if i == j then 0 else HandlerSteps(actions, i, j - 1) + if HandlerStep(actions[j - 1]) then 1 else 0
  }

  lemma {:induction false} HandlerStepsUsed(states: seq<State>, actions: seq<Action>, i: nat, j: nat, n: nat)
    requires Run(states, actions) && i <= j <= |actions| && (forall l | i <= l < j :: !actions[l].Subscribe?)
    requires forall l | i <= l <= j :: Waits(states[l], n)
    ensures HandlerSteps(actions, i, j) + StepsAhead(states[j], n) <= StepsAhead(states[i], n)
    decreases j - i
  {
    hide StepsAhead, Inv, Waits, Apply, Enabled;
    if i < j {
      HandlerStepsUsed(states, actions, i, j - 1, n);
      RunKeeps(states, actions, j - 1);
      assert Waits(states[j], n) && states[j] == Apply(states[j - 1], actions[j - 1]);
      InvParts(states[j - 1]);
      if HandlerStep(actions[j - 1]) {
        HandlerGetsAhead(states[j - 1], actions[j - 1], n);
      } else {
        OthersStayBehind(states[j - 1], actions[j - 1], n);
      }
    }
  }

  lemma WaitingTakesSteps(s: State, n: nat)
    requires Underway(s) && Waits(s, n)
    ensures StepsAhead(s, n) > 0
  {
    hide EventsLeft;
    if s.current.None? {
      var b :| b in s.buffer && b.done == Some(n);
      QueueTail(s.buffer, n, |s.subscribers|);
    }
  }

  /** Every waiting caller returns: however many batches arrive behind it, fewer handler
      steps than were ahead of it are taken while it waits and nobody subscribes; and
      while the handler runs it waits only where the handler can take a step. */
  lemma EveryWaiterReturns(states: seq<State>, actions: seq<Action>, i: nat, j: nat, n: nat)
    requires Run(states, actions) && i <= j <= |actions| && (forall l | i <= l < j :: !actions[l].Subscribe?)
    requires forall l | i <= l <= j :: Waits(states[l], n)
    ensures HandlerSteps(actions, i, j) < StepsAhead(states[i], n)
    ensures !states[j].exited ==> exists a :: HandlerStep(a) && Enabled(states[j], a)
  {
    HandlerStepsUsed(states, actions, i, j, n);
    RunKeeps(states, actions, j);
    InvParts(states[j]);
    hide StepsAhead, Inv, Apply;
    assert Waits(states[j], n);
    WaitingTakesSteps(states[j], n);
    if !states[j].exited {
      NeverStuck(states, actions, j, n);
    }
  }

  // ---- the end of the handler -------------------------------------------------------------

  lemma {:induction false} Halted(states: seq<State>, actions: seq<Action>, i: nat, j: nat)
    requires Run(states, actions) && i < j <= |actions| && actions[i] == Exit
    ensures states[j].exited && states[j].current.None?
    decreases j
  {
    if j == i + 1 {
      assert states[j] == Apply(states[i], actions[i]);
    } else {
      Halted(states, actions, i, j - 1);
      assert states[j] == Apply(states[j - 1], actions[j - 1]);
    }
  }

  lemma {:induction false} StoppedBefore(states: seq<State>, actions: seq<Action>, i: nat)
    requires Run(states, actions) && i < |states| && states[i].stopped
    ensures Stop in actions[..i]
  {
    if i > 0 {
      assert states[i] == Apply(states[i - 1], actions[i - 1]);
      assert actions[..i] == actions[..i - 1] + [actions[i - 1]];
      if actions[i - 1] != Stop {
        StoppedBefore(states, actions, i - 1);
      }
    }
  }

  /** The handler ends only after the manager has been stopped, between two batches, and
      hands out nothing any more. */
  lemma EndIsFinal(states: seq<State>, actions: seq<Action>, i: nat)
    requires Run(states, actions) && i < |actions| && actions[i] == Exit
    ensures Stop in actions[..i] && states[i].current.None?
    ensures forall j | i < j < |actions| :: !HandlerStep(actions[j])
  {
    assert Enabled(states[i], actions[i]);
    StoppedBefore(states, actions, i);
    forall j | i < j < |actions| ensures !HandlerStep(actions[j]) {
      Halted(states, actions, i, j);
      RunKeeps(states, actions, j);
      InvParts(states[j]);
      assert Enabled(states[j], actions[j]);
    }
  }
}
