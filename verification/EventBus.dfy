/** The in-process event bus (backend/internal/eventbus/bus.go) as a state machine. */
module EventBus {
  import opened Wrappers

  // A step is one channel operation or one handler invocation of one goroutine: the publishers, the dispatcher, a
  // subscriber, somebody who subscribes, or the caller of Stop. Histories record what was accepted, what was dropped,
  // and since which event a subscriber has been listening.

  datatype Event = Event(kind: nat, payload: nat)

  /** Subscribe(kind, ...) or SubscribeAll. */
  datatype Interest = Only(kind: nat) | All {
    predicate Wants(e: Event) { All? || kind == e.kind }
  }

  datatype Subscriber = Subscriber(
    interest: Interest,
    since: nat,
    queue: seq<Event>,
    closes: nat,
    handling: Option<Event>,
    exited: bool,
    handled: seq<Event>,
    dropped: nat)
  {
    /** Everything delivered, in delivery order. */
    function Received(): seq<Event> {
      handled + (if handling.Some? then [handling.value] else []) + queue
    }
  }

  /** Where the dispatcher stands. */
  datatype Pc =
    | Looping
    | Routing(event: Event, recipients: seq<nat>, draining: bool)
    | Draining
    | Closing(next: nat)
    | Stopped

  /** `closing` is the number of subscribers that the dispatcher found when it began to close the queues. */
  datatype State = State(
    cap: nat,
    ch: seq<Event>,
    done: bool,
    pc: Pc,
    subs: seq<Subscriber>,
    accepted: seq<Event>,
    consumed: nat,
    acceptedAtStop: nat,
    closing: nat)

  datatype Action =
    | Subscribe(interest: Interest)
    | Publish(event: Event)
    | Stop
    | Take
    | SeeDone
    | DrainEnd
    | Deliver
    | Routed
    | CloseNext
    | Receive(i: nat)
    | Handle(i: nat)
    | Exit(i: nat)

  // ----- Routing order: handlers of the kind first, then the wildcard subscribers

  function OfKind(subs: seq<Subscriber>, interest: Interest, from: nat): (r: seq<nat>)
    requires from <= |subs|
    ensures forall i: nat :: i in r <==> from <= i < |subs| && subs[i].interest == interest
    ensures forall j, k :: 0 <= j < k < |r| ==> r[j] < r[k]
    decreases |subs| - from
  {
    if from == |subs| then []
    else
      var rest := OfKind(subs, interest, from + 1);
      assert forall k :: 0 <= k < |rest| ==> rest[k] in rest && from < rest[k];
      if subs[from].interest == interest then [from] + rest else rest
  }

  function Recipients(subs: seq<Subscriber>, e: Event): (r: seq<nat>)
    ensures forall i: nat :: i in r <==> i < |subs| && subs[i].interest.Wants(e)
    ensures Distinct(r)
  {
    var typed, wild := OfKind(subs, Only(e.kind), 0), OfKind(subs, All, 0);
    assert forall k :: 0 <= k < |typed| ==> typed[k] in typed;
    assert forall k :: 0 <= k < |wild| ==> wild[k] in wild;
    typed + wild
  }

  predicate Distinct(r: seq<nat>) {
    forall j, k :: 0 <= j < k < |r| ==> r[j] != r[k]
  }

  // ----- Steps

  predicate Enabled(s: State, a: Action) {
    match a
    case Subscribe(_) => true
    case Publish(_) => true
    case Stop => true
    case Take => (s.pc.Looping? || s.pc.Draining?) && s.ch != []
    case SeeDone => s.pc.Looping? && s.done
    case DrainEnd => s.pc.Draining? && s.ch == []
    case Deliver => s.pc.Routing? && s.pc.recipients != [] && s.pc.recipients[0] < |s.subs|
    case Routed => s.pc.Routing? && s.pc.recipients == []
    case CloseNext => s.pc.Closing?
    case Receive(i) => i < |s.subs| && !s.subs[i].exited && s.subs[i].handling.None? && s.subs[i].queue != []
    case Handle(i) => i < |s.subs| && s.subs[i].handling.Some?
    case Exit(i) =>
      i < |s.subs| && !s.subs[i].exited && s.subs[i].handling.None? && s.subs[i].queue == [] && s.subs[i].closes > 0
  }

  function Fresh(interest: Interest, since: nat): Subscriber {
    Subscriber(interest, since, [], 0, None, false, [], 0)
  }

  function Do(s: State, a: Action): State
    requires Enabled(s, a)
  {
    match a
    case Subscribe(interest) => s.(subs := s.subs + [Fresh(interest, s.consumed)])
    case Publish(e) =>
      if |s.ch| < s.cap then s.(ch := s.ch + [e], accepted := s.accepted + [e]) else s
    case Stop =>
      if s.done then s else s.(done := true, acceptedAtStop := |s.accepted|)
    case Take =>
      s.(ch := s.ch[1..], consumed := s.consumed + 1,
         pc := Routing(s.ch[0], Recipients(s.subs, s.ch[0]), s.pc.Draining?))
    case SeeDone => s.(pc := Draining)
    case DrainEnd => s.(pc := Closing(0), closing := |s.subs|)
    case Deliver =>
      var i := s.pc.recipients[0];
      var sub := s.subs[i];
      var next := if |sub.queue| < s.cap then sub.(queue := sub.queue + [s.pc.event]) else sub.(dropped := sub.dropped + 1);
      s.(subs := s.subs[i := next], pc := s.pc.(recipients := s.pc.recipients[1..]))
    case Routed => s.(pc := if s.pc.draining then Draining else Looping)
    case CloseNext =>
      if s.pc.next < s.closing && s.pc.next < |s.subs| then
        var sub := s.subs[s.pc.next];
        s.(subs := s.subs[s.pc.next := sub.(closes := sub.closes + 1)], pc := Closing(s.pc.next + 1))
      else s.(pc := Stopped)
    case Receive(i) =>
      s.(subs := s.subs[i := s.subs[i].(queue := s.subs[i].queue[1..], handling := Some(s.subs[i].queue[0]))])
    case Handle(i) =>
      s.(subs := s.subs[i := s.subs[i].(handling := None, handled := s.subs[i].handled + [s.subs[i].handling.value])])
    case Exit(i) => s.(subs := s.subs[i := s.subs[i].(exited := true)])
  }

  ghost predicate Init(s: State) {
    s.ch == [] && !s.done && s.pc == Looping && s.subs == [] && s.accepted == [] && s.consumed == 0 &&
    s.acceptedAtStop == 0 && s.closing == 0
  }

  /** The wait group of Stop is empty: the dispatcher and every subscriber have returned. */
  predicate StopReturns(s: State) {
    s.done && s.pc.Stopped? && forall i :: 0 <= i < |s.subs| ==> s.subs[i].exited
  }

  ghost predicate Run(states: seq<State>, actions: seq<Action>) {
    |states| == |actions| + 1 && Init(states[0]) &&
    forall k :: 0 <= k < |actions| ==> Enabled(states[k], actions[k]) && states[k + 1] == Do(states[k], actions[k])
  }

  // ----- In-order subsequences

  function Wanted(interest: Interest, events: seq<Event>): seq<Event> {
    if events == [] then []
    else
      var last := events[|events| - 1];
      Wanted(interest, events[..|events| - 1]) + if interest.Wants(last) then [last] else []
  }

  ghost predicate Subsequence(xs: seq<Event>, ys: seq<Event>) {
    xs == [] ||
    (ys != [] &&
     (Subsequence(xs, ys[..|ys| - 1]) ||
      (xs[|xs| - 1] == ys[|ys| - 1] && Subsequence(xs[..|xs| - 1], ys[..|ys| - 1]))))
  }

  lemma WantedGrows(interest: Interest, events: seq<Event>, e: Event)
    ensures interest.Wants(e) ==> Wanted(interest, events + [e]) == Wanted(interest, events) + [e]
    ensures !interest.Wants(e) ==> Wanted(interest, events + [e]) == Wanted(interest, events)
  {
    assert (events + [e])[..|events|] == events;
    assert Wanted(interest, events) + [] == Wanted(interest, events);
  }

  /** Received events are an in-order subsequence of the wanted ones among events; the difference is what was dropped. */
  ghost predicate Ordered(sub: Subscriber, events: seq<Event>) {
    var wanted := Wanted(sub.interest, events);
    Subsequence(sub.Received(), wanted) && |sub.Received()| + sub.dropped == |wanted| &&
    (sub.dropped == 0 ==> sub.Received() == wanted)
  }

  lemma OrderedGrows(sub: Subscriber, events: seq<Event>, e: Event)
    requires Ordered(sub, events)
    ensures !sub.interest.Wants(e) ==> Ordered(sub, events + [e])
    ensures sub.interest.Wants(e) ==>
              Ordered(sub.(queue := sub.queue + [e]), events + [e]) && Ordered(sub.(dropped := sub.dropped + 1), events + [e])
  {
    WantedGrows(sub.interest, events, e);
    assert sub.(queue := sub.queue + [e]).Received() == sub.Received() + [e];
  }

  lemma OrderedMoves(sub: Subscriber, events: seq<Event>)
    requires Ordered(sub, events)
    ensures sub.handling.None? && sub.queue != [] ==> Ordered(sub.(queue := sub.queue[1..], handling := Some(sub.queue[0])), events)
    ensures sub.handling.Some? ==> Ordered(sub.(handling := None, handled := sub.handled + [sub.handling.value]), events)
  {
    if sub.handling.None? && sub.queue != [] {
      assert sub.(queue := sub.queue[1..], handling := Some(sub.queue[0])).Received() == sub.Received();
    }
    if sub.handling.Some? {
      assert sub.(handling := None, handled := sub.handled + [sub.handling.value]).Received() == sub.Received();
    }
  }

  // ----- The invariant

  /** How many consumed events have reached their decision for subscriber i: all, or all but the one in hand. */
  function Settled(s: State, i: nat): int {
    if s.pc.Routing? && i in s.pc.recipients then s.consumed - 1 else s.consumed
  }

  ghost predicate ChannelInv(s: State) {
    s.consumed + |s.ch| == |s.accepted| && s.accepted[s.consumed..] == s.ch && s.acceptedAtStop <= |s.accepted| &&
    (s.pc.Routing? ==>
       s.consumed > 0 && s.pc.event == s.accepted[s.consumed - 1] && (s.pc.draining ==> s.done) &&
       (forall i :: i in s.pc.recipients ==>
          i < |s.subs| && s.subs[i].interest.Wants(s.pc.event) && s.subs[i].since < s.consumed) &&
       Distinct(s.pc.recipients)) &&
    (s.pc.Draining? || s.pc.Closing? || s.pc.Stopped? ==> s.done) &&
    (s.pc.Closing? || s.pc.Stopped? ==> s.acceptedAtStop <= s.consumed) &&
    (s.pc.Closing? || s.pc.Stopped? ==> s.closing <= |s.subs|) && (s.pc.Closing? ==> s.pc.next <= s.closing) &&
    forall i :: 0 <= i < |s.subs| ==> s.subs[i].since <= s.consumed
  }

  ghost predicate OrderInv(s: State, i: nat)
    requires i < |s.subs| && ChannelInv(s)
  {
    Ordered(s.subs[i], s.accepted[s.subs[i].since..Settled(s, i)])
  }

  predicate ClosesInv(s: State, i: nat)
    requires i < |s.subs|
  {
    s.subs[i].closes == (if (s.pc.Stopped? && i < s.closing) || (s.pc.Closing? && i < s.pc.next) then 1 else 0) &&
    (s.subs[i].exited ==> s.subs[i].closes == 1 && s.subs[i].queue == [] && s.subs[i].handling.None?)
  }

  ghost predicate Inv(s: State) {
    ChannelInv(s) && forall i :: 0 <= i < |s.subs| ==> OrderInv(s, i) && ClosesInv(s, i)
  }

  lemma ChannelStep(s: State, a: Action)
    requires Inv(s) && Enabled(s, a)
    ensures ChannelInv(Do(s, a))
  {
    hide OrderInv, ClosesInv;
    if a.Take? {
      assert s.accepted[s.consumed..][0] == s.accepted[s.consumed];
      assert Do(s, a).accepted[s.consumed + 1..] == s.accepted[s.consumed..][1..];
    }
    SubscribersKept(s, a);
    if a.Deliver? {
      var t, r := Do(s, a), s.pc.recipients;
      forall i | i in t.pc.recipients
        ensures i < |t.subs| && t.subs[i].interest.Wants(t.pc.event) && t.subs[i].since < t.consumed
      {
        assert i in r;
      }
      assert Distinct(t.pc.recipients) by {
        assert forall j :: 0 <= j < |r| - 1 ==> t.pc.recipients[j] == r[j + 1];
      }
    }
  }

  lemma SubscribersKept(s: State, a: Action)
    requires Enabled(s, a)
    ensures |Do(s, a).subs| == |s.subs| + if a.Subscribe? then 1 else 0
    ensures forall i :: 0 <= i < |s.subs| ==>
              Do(s, a).subs[i].interest == s.subs[i].interest && Do(s, a).subs[i].since == s.subs[i].since
  {
  }

  lemma ClosesStep(s: State, a: Action, i: nat)
    requires Inv(s) && Enabled(s, a) && i < |s.subs|
    ensures i < |Do(s, a).subs| && ClosesInv(Do(s, a), i)
  {
    assert ClosesInv(s, i);
    hide OrderInv;
  }

  /** Taking an event leaves it unsettled exactly for its recipients, and settles it for all others. */
  lemma TakeSettles(s: State, i: nat)
    requires ChannelInv(s) && Enabled(s, Take) && i < |s.subs|
    ensures Settled(s, i) == s.consumed && s.subs[i].since <= s.consumed < |s.accepted|
    ensures Settled(Do(s, Take), i) == if s.subs[i].interest.Wants(s.ch[0]) then s.consumed else s.consumed + 1
    ensures s.accepted[s.consumed] == s.ch[0]
  {
    assert s.accepted[s.consumed..][0] == s.accepted[s.consumed];
    hide OfKind;
  }

  lemma TakeOrder(s: State, i: nat)
    requires Inv(s) && Enabled(s, Take) && i < |s.subs|
    requires ChannelInv(Do(s, Take))
    ensures OrderInv(Do(s, Take), i)
  {
    hide Ordered, OfKind, Recipients, Distinct;
    assert OrderInv(s, i);
    TakeSettles(s, i);
    var since := s.subs[i].since;
    assert s.accepted[since..s.consumed + 1] == s.accepted[since..s.consumed] + [s.ch[0]];
    OrderedGrows(s.subs[i], s.accepted[since..s.consumed], s.ch[0]);
    hide Inv, Settled;
  }

  /** Delivering settles the event for the first recipient and for nobody else. */
  lemma DeliverSettles(s: State, i: nat)
    requires ChannelInv(s) && Enabled(s, Deliver) && i < |s.subs|
    ensures i == s.pc.recipients[0] ==> Settled(s, i) == s.consumed - 1 && Settled(Do(s, Deliver), i) == s.consumed
    ensures i != s.pc.recipients[0] ==> Settled(Do(s, Deliver), i) == Settled(s, i)
    ensures s.pc.event == s.accepted[s.consumed - 1]
    ensures i == s.pc.recipients[0] ==> s.subs[i].interest.Wants(s.pc.event) && s.subs[i].since < s.consumed
  {
    var r := s.pc.recipients;
    assert r == [r[0]] + r[1..];
    assert i in r <==> i == r[0] || i in r[1..];
  }

  lemma DeliverOrder(s: State, i: nat)
    requires Inv(s) && Enabled(s, Deliver) && i < |s.subs|
    requires ChannelInv(Do(s, Deliver))
    ensures |Do(s, Deliver).subs| == |s.subs| && OrderInv(Do(s, Deliver), i)
  {
    hide Ordered, OfKind, Recipients, Distinct;
    assert OrderInv(s, i);
    DeliverSettles(s, i);
    var since := s.subs[i].since;
    if i == s.pc.recipients[0] {
      assert s.accepted[since..s.consumed] == s.accepted[since..s.consumed - 1] + [s.pc.event];
      OrderedGrows(s.subs[i], s.accepted[since..s.consumed - 1], s.pc.event);
    }
    hide Inv, Settled;
  }

  lemma OrderStep(s: State, a: Action, i: nat)
    requires Inv(s) && Enabled(s, a) && i < |s.subs|
    requires ChannelInv(Do(s, a)) && i < |Do(s, a).subs|
    ensures OrderInv(Do(s, a), i)
  {
    hide *;
    match a {
      case Publish(e) => PublishOrder(s, e, i);
      case Take => TakeOrder(s, i);
      case Deliver => DeliverOrder(s, i);
      case Receive(_) => ReceiverOrder(s, a, i);
      case Handle(_) => ReceiverOrder(s, a, i);
      case _ => QuietOrder(s, a, i);
    }
  }

  lemma PublishOrder(s: State, e: Event, i: nat)
    requires Inv(s) && i < |s.subs| && ChannelInv(Do(s, Publish(e)))
    ensures i < |Do(s, Publish(e)).subs| && OrderInv(Do(s, Publish(e)), i)
  {
    hide Ordered, OfKind, Recipients, Distinct;
    assert OrderInv(s, i);
    var t := Do(s, Publish(e));
    assert t.accepted[s.subs[i].since..Settled(t, i)] == s.accepted[s.subs[i].since..Settled(s, i)];
  }

  lemma ReceiverOrder(s: State, a: Action, i: nat)
    requires Inv(s) && Enabled(s, a) && (a.Receive? || a.Handle?) && i < |s.subs| && ChannelInv(Do(s, a))
    ensures i < |Do(s, a).subs| && OrderInv(Do(s, a), i)
  {
    hide Ordered, OfKind, Recipients, Distinct;
    assert OrderInv(s, i);
    if a.i == i { OrderedMoves(s.subs[i], s.accepted[s.subs[i].since..Settled(s, i)]); }
  }

  /** Steps that neither move events nor decide about any. */
  lemma QuietOrder(s: State, a: Action, i: nat)
    requires Inv(s) && Enabled(s, a) && i < |s.subs|
    requires a.Subscribe? || a.Stop? || a.SeeDone? || a.DrainEnd? || a.Routed? || a.CloseNext? || a.Exit?
    requires ChannelInv(Do(s, a)) && i < |Do(s, a).subs|
    ensures OrderInv(Do(s, a), i)
  {
    hide Ordered, OfKind, Recipients, Distinct;
    var t := Do(s, a);
    assert OrderInv(s, i);
    assert t.subs[i].Received() == s.subs[i].Received();
    SameReceived(s.subs[i], t.subs[i], s.accepted[s.subs[i].since..Settled(s, i)]);
  }

  lemma SameReceived(sub: Subscriber, now: Subscriber, events: seq<Event>)
    requires Ordered(sub, events)
    requires now.Received() == sub.Received() && now.interest == sub.interest && now.dropped == sub.dropped
    ensures Ordered(now, events)
  {
  }

  /** A new subscriber starts with nothing to receive. */
  lemma SubscribeStep(s: State, interest: Interest)
    requires Inv(s) && ChannelInv(Do(s, Subscribe(interest)))
    ensures OrderInv(Do(s, Subscribe(interest)), |s.subs|) && ClosesInv(Do(s, Subscribe(interest)), |s.subs|)
  {
    var t, i := Do(s, Subscribe(interest)), |s.subs|;
    assert t.accepted[s.consumed..s.consumed] == [];
    assert t.subs[i].Received() == [];
  }

  lemma StepInv(s: State, a: Action)
    requires Inv(s) && Enabled(s, a)
    ensures Inv(Do(s, a))
  {
    ChannelStep(s, a);
    SubscribersKept(s, a);
    if a.Subscribe? { SubscribeStep(s, a.interest); }
    forall i | 0 <= i < |s.subs| ensures OrderInv(Do(s, a), i) && ClosesInv(Do(s, a), i) {
      OrderStep(s, a, i);
      ClosesStep(s, a, i);
    }
    hide Enabled, ChannelInv, OrderInv, ClosesInv;
  }

  /** The invariant holds in every state of every run. */
  lemma {:induction false} RunInv(states: seq<State>, actions: seq<Action>, k: nat)
    requires Run(states, actions) && k < |states|
    ensures Inv(states[k])
  {
    if k == 0 {
    } else {
      RunInv(states, actions, k - 1);
      StepInv(states[k - 1], actions[k - 1]);
    }
  }

  // ----- What becomes of an event

  /** An event is accepted exactly when the channel has room, and then it is the last of the accepted ones. */
  lemma PublishOutcome(s: State, e: Event)
    ensures |s.ch| < s.cap ==>
              Do(s, Publish(e)).ch == s.ch + [e] && Do(s, Publish(e)).accepted == s.accepted + [e] &&
              Do(s, Publish(e)).subs == s.subs && Do(s, Publish(e)).done == s.done
    ensures |s.ch| >= s.cap ==> Do(s, Publish(e)) == s
  {
  }

  /** The first recipient gets the event exactly when its queue has room; nobody else notices. */
  lemma DeliverOutcome(s: State)
    requires Enabled(s, Deliver)
    ensures var i, t := s.pc.recipients[0], Do(s, Deliver);
            |t.subs| == |s.subs| && (forall j :: 0 <= j < |s.subs| && j != i ==> t.subs[j] == s.subs[j]) &&
            t.subs[i].handled == s.subs[i].handled && t.subs[i].handling == s.subs[i].handling &&
            if |s.subs[i].queue| < s.cap then
              t.subs[i].queue == s.subs[i].queue + [s.pc.event] && t.subs[i].dropped == s.subs[i].dropped
            else t.subs[i].queue == s.subs[i].queue && t.subs[i].dropped == s.subs[i].dropped + 1
  {
  }

  /** The dispatcher was about to deliver to subscriber i and found its queue full. */
  predicate FindsFull(s: State, a: Action, i: nat) {
    a.Deliver? && s.pc.Routing? && s.pc.recipients != [] && s.pc.recipients[0] == i < |s.subs| && |s.subs[i].queue| >= s.cap
  }

  function TimesFull(states: seq<State>, actions: seq<Action>, k: nat, i: nat): nat
    requires k <= |actions| && |states| == |actions| + 1
  {
    if k == 0 then 0 else TimesFull(states, actions, k - 1, i) + if FindsFull(states[k - 1], actions[k - 1], i) then 1 else 0
  }

  /** A subscriber loses exactly the events that find its queue full. */
  lemma {:induction false} DropsAreFullQueues(states: seq<State>, actions: seq<Action>, k: nat, i: nat)
    requires Run(states, actions) && k < |states|
    ensures TimesFull(states, actions, k, i) == if i < |states[k].subs| then states[k].subs[i].dropped else 0
  {
    if k > 0 {
      DropsAreFullQueues(states, actions, k - 1, i);
      DroppedStep(states[k - 1], actions[k - 1], i);
      hide Run;
    }
  }

  lemma DroppedStep(s: State, a: Action, i: nat)
    requires Enabled(s, a)
    ensures i < |s.subs| ==>
              i < |Do(s, a).subs| && Do(s, a).subs[i].dropped == s.subs[i].dropped + if FindsFull(s, a, i) then 1 else 0
    ensures |s.subs| <= i < |Do(s, a).subs| ==> Do(s, a).subs[i].dropped == 0
    ensures FindsFull(s, a, i) ==> i < |s.subs|
    ensures |Do(s, a).subs| >= |s.subs|
  {
    hide OfKind, Recipients;
  }

  /** Whenever subscriber i was there before state k, its queue had room. */
  ghost predicate HadRoom(states: seq<State>, k: nat, i: nat)
    requires k < |states|
  {
    forall j :: 0 <= j < k && i < |states[j].subs| ==> |states[j].subs[i].queue| < states[j].cap
  }

  lemma {:induction false} NothingDropped(states: seq<State>, actions: seq<Action>, k: nat, i: nat)
    requires Run(states, actions) && k < |states| && i < |states[k].subs| && HadRoom(states, k, i)
    ensures states[k].subs[i].dropped == 0
  {
    if k > 0 {
      DroppedStep(states[k - 1], actions[k - 1], i);
      if i < |states[k - 1].subs| { NothingDropped(states, actions, k - 1, i); }
    }
  }

  // ----- What every run guarantees

  /** The accepted events up to the n-th that a subscriber was there for: all that left the channel after it subscribed. */
  function Since(s: State, sub: Subscriber, n: nat): seq<Event>
    requires n <= |s.accepted|
  {
    if sub.since <= n then s.accepted[sub.since..n] else []
  }

  /** Each subscriber has received an in-order subsequence of the events it wants and was there for, and the events it did
      not receive are those its full queue dropped. */
  lemma InOrderDelivery(states: seq<State>, actions: seq<Action>, k: nat, i: nat)
    requires Run(states, actions) && k < |states| && i < |states[k].subs|
    ensures var s, sub := states[k], states[k].subs[i];
            var wanted := Wanted(sub.interest, Since(s, sub, |s.accepted|));
            Subsequence(sub.Received(), wanted) && |sub.Received()| + sub.dropped <= |wanted| &&
            sub.dropped == TimesFull(states, actions, k, i) &&
            (HadRoom(states, k, i) ==> sub.Received() <= wanted)
  {
    DropsAreFullQueues(states, actions, k, i);
    if HadRoom(states, k, i) { NothingDropped(states, actions, k, i); }
    hide TimesFull, HadRoom;
    RunInv(states, actions, k);
    var s, sub := states[k], states[k].subs[i];
    assert OrderInv(s, i);
    var events, n := Since(s, sub, |s.accepted|), Settled(s, i) - sub.since;
    assert events[..n] == s.accepted[sub.since..Settled(s, i)];
    WantedPrefix(sub.interest, events, n);
    SubsequenceOfLonger(sub.interest, sub.Received(), events, n);
  }

  lemma {:induction false} WantedPrefix(interest: Interest, events: seq<Event>, n: nat)
    requires n <= |events|
    ensures Wanted(interest, events[..n]) <= Wanted(interest, events)
    decreases |events|
  {
    if n < |events| {
      WantedPrefix(interest, events[..|events| - 1], n);
      assert events[..|events| - 1][..n] == events[..n];
    } else {
      assert events[..n] == events;
    }
  }

  lemma {:induction false} SubsequenceOfLonger(interest: Interest, xs: seq<Event>, events: seq<Event>, n: nat)
    requires n <= |events| && Subsequence(xs, Wanted(interest, events[..n]))
    ensures Subsequence(xs, Wanted(interest, events))
    decreases |events|
  {
    if n < |events| {
      var init, last := events[..|events| - 1], events[|events| - 1];
      assert init[..n] == events[..n] && events == init + [last];
      SubsequenceOfLonger(interest, xs, init, n);
      WantedGrows(interest, init, last);
    } else {
      assert events[..n] == events;
    }
  }

  /** No event is sent on a closed queue, and a queue is closed at most once; when the dispatcher has stopped, exactly those
      it found have been. */
  lemma NoSendAfterClose(states: seq<State>, actions: seq<Action>, k: nat)
    requires Run(states, actions) && k < |actions|
    ensures actions[k] == Deliver ==> states[k].subs[states[k].pc.recipients[0]].closes == 0
    ensures forall i :: 0 <= i < |states[k].subs| ==> states[k].subs[i].closes <= 1
    ensures states[k].pc.Stopped? ==>
              forall i :: 0 <= i < |states[k].subs| ==> states[k].subs[i].closes == if i < states[k].closing then 1 else 0
  {
    RunInv(states, actions, k);
    var s := states[k];
    forall i | 0 <= i < |s.subs|
      ensures s.subs[i].closes == if (s.pc.Stopped? && i < s.closing) || (s.pc.Closing? && i < s.pc.next) then 1 else 0
    {
      assert ClosesInv(s, i);
    }
  }

  /** When Stop returns, a subscriber whose queue never filled has handled every event it wants that was accepted before
      Stop was called, in order; in general exactly the dropped ones are missing. */
  lemma StopDrains(states: seq<State>, actions: seq<Action>, k: nat, i: nat)
    requires Run(states, actions) && k < |states| && i < |states[k].subs| && StopReturns(states[k])
    ensures var s, sub := states[k], states[k].subs[i];
            s.acceptedAtStop <= |s.accepted| &&
            var all, due := Wanted(sub.interest, Since(s, sub, |s.accepted|)), Wanted(sub.interest, Since(s, sub, s.acceptedAtStop));
            Subsequence(sub.handled, all) && |sub.handled| + TimesFull(states, actions, k, i) >= |due| &&
            (HadRoom(states, k, i) ==> due <= sub.handled <= all)
  {
    if HadRoom(states, k, i) { NothingDropped(states, actions, k, i); }
    hide TimesFull, HadRoom;
    RunInv(states, actions, k);
    var s, sub := states[k], states[k].subs[i];
    InOrderDelivery(states, actions, k, i);
    assert OrderInv(s, i) && ClosesInv(s, i) && sub.exited;
    assert sub.Received() == sub.handled;
    if sub.since <= s.acceptedAtStop {
      var events, n := s.accepted[sub.since..s.consumed], s.acceptedAtStop - sub.since;
      assert events[..n] == s.accepted[sub.since..s.acceptedAtStop];
      WantedPrefix(sub.interest, events, n);
    }
  }

  lemma {:induction false} WantedMember(interest: Interest, events: seq<Event>, e: Event)
    ensures e in Wanted(interest, events) <==> e in events && interest.Wants(e)
  {
    if events != [] {
      WantedMember(interest, events[..|events| - 1], e);
      assert events == events[..|events| - 1] + [events[|events| - 1]];
    }
  }

  /** What is accepted stays accepted, subscribers stay who they are, and Stop counts whatever came before it. */
  lemma {:induction false} RunKeeps(states: seq<State>, actions: seq<Action>, j: nat, k: nat, i: nat)
    requires Run(states, actions) && j <= k < |states| && i < |states[j].subs|
    ensures states[j].accepted <= states[k].accepted && i < |states[k].subs|
    ensures states[k].subs[i].interest == states[j].subs[i].interest && states[k].subs[i].since == states[j].subs[i].since
    ensures states[k].done && !states[j].done ==> states[k].acceptedAtStop >= |states[j].accepted|
    decreases k - j
  {
    if j < k {
      RunKeeps(states, actions, j, k - 1, i);
      StepKeeps(states[k - 1], actions[k - 1]);
      hide Run;
    }
  }

  lemma StepKeeps(s: State, a: Action)
    requires Enabled(s, a)
    ensures s.accepted <= Do(s, a).accepted && |s.subs| <= |Do(s, a).subs|
    ensures forall i :: 0 <= i < |s.subs| ==>
              Do(s, a).subs[i].interest == s.subs[i].interest && Do(s, a).subs[i].since == s.subs[i].since
    ensures if s.done then Do(s, a).done && Do(s, a).acceptedAtStop == s.acceptedAtStop
            else Do(s, a).done ==> Do(s, a).acceptedAtStop == |s.accepted|
    ensures a == Stop ==> Do(s, a).done
  {
    hide OfKind, Recipients;
  }

  /** An event published before Stop, while the channel had room, has been handled by everybody who was there, wanted it and
      never had a full queue, when Stop returns. */
  lemma PublishedIsHandled(states: seq<State>, actions: seq<Action>, j: nat, k: nat, i: nat)
    requires Run(states, actions) && j < k < |states| && actions[j].Publish? && |states[j].ch| < states[j].cap && !states[j].done
    requires i < |states[j].subs| && states[j].subs[i].interest.Wants(actions[j].event)
    requires i < |states[k].subs| && HadRoom(states, k, i) && StopReturns(states[k])
    ensures actions[j].event in states[k].subs[i].handled
  {
    var s, n, e := states[k], |states[j].accepted|, actions[j].event;
    PublishOutcome(states[j], e);
    assert states[j + 1].accepted[n] == e;
    RunInv(states, actions, j);
    RunKeeps(states, actions, j + 1, k, i);
    StopDrains(states, actions, k, i);
    var sub := s.subs[i];
    hide Run, HadRoom, Inv, Do, Enabled, StopReturns;
    var due := Since(s, sub, s.acceptedAtStop);
    assert s.accepted[n] == e;
    assert due[n - sub.since] == e;
    WantedMember(sub.interest, due, e);
  }

  /** The same while the bus is running: once the dispatcher and the subscriber are idle, it has handled all it wants. */
  lemma IdleMeansHandled(states: seq<State>, actions: seq<Action>, k: nat, i: nat)
    requires Run(states, actions) && k < |states| && i < |states[k].subs| && HadRoom(states, k, i)
    requires states[k].pc.Looping? && states[k].ch == [] && states[k].subs[i].queue == [] && states[k].subs[i].handling.None?
    ensures states[k].subs[i].handled == Wanted(states[k].subs[i].interest, Since(states[k], states[k].subs[i], |states[k].accepted|))
  {
    RunInv(states, actions, k);
    NothingDropped(states, actions, k, i);
    var s, sub := states[k], states[k].subs[i];
    assert OrderInv(s, i);
    assert sub.Received() == sub.handled;
  }

  // ----- Stop does return

  /** Steps that are not subscribing, publishing or stopping. */
  predicate Internal(a: Action) {
    !a.Subscribe? && !a.Publish? && !a.Stop?
  }

  function SubscriberWork(sub: Subscriber): nat {
    2 * |sub.queue| + (if sub.handling.Some? then 1 else 0) + if sub.exited then 0 else 1
  }

  function TotalWork(subs: seq<Subscriber>): nat {
    if subs == [] then 0 else TotalWork(subs[..|subs| - 1]) + SubscriberWork(subs[|subs| - 1])
  }

  function DispatchWork(s: State): int {
    match s.pc
    case Looping => |s.subs| + 3
    case Routing(_, r, draining) => 3 * |r| + 1 + if draining then |s.subs| + 2 else |s.subs| + 3
    case Draining => |s.subs| + 2
    case Closing(n) => s.closing - n + 1
    case Stopped => 0
  }

  function ChannelWork(events: nat, each: nat): nat {
    if events == 0 then 0 else each + ChannelWork(events - 1, each)
  }

  /** Steps left until everything has come to rest. */
  function Work(s: State): int {
    ChannelWork(|s.ch|, 3 * |s.subs| + 2) + DispatchWork(s) + TotalWork(s.subs)
  }

  lemma {:induction false} WorkOfUpdate(subs: seq<Subscriber>, i: nat, sub: Subscriber)
    requires i < |subs|
    ensures TotalWork(subs[i := sub]) == TotalWork(subs) - SubscriberWork(subs[i]) + SubscriberWork(sub)
    decreases |subs|
  {
    var init := subs[..|subs| - 1];
    if i < |subs| - 1 {
      assert subs[i := sub][..|subs| - 1] == init[i := sub];
      WorkOfUpdate(init, i, sub);
    } else {
      assert subs[i := sub][..|subs| - 1] == init;
    }
  }

  lemma {:induction false} FewRecipients(subs: seq<Subscriber>, e: Event, from: nat)
    requires from <= |subs|
    ensures |OfKind(subs, Only(e.kind), from)| + |OfKind(subs, All, from)| <= |subs| - from
    decreases |subs| - from
  {
    if from < |subs| { FewRecipients(subs, e, from + 1); }
  }

  /** Every internal step brings the bus closer to rest. */
  lemma InternalStepsEnd(s: State, a: Action)
    requires Inv(s) && Enabled(s, a) && Internal(a)
    ensures 0 <= Work(Do(s, a)) < Work(s)
  {
    ChannelStep(s, a);
    match a {
      case Take => TakeWork(s);
      case Deliver => SubscriberStepWork(s, a, s.pc.recipients[0]);
      case CloseNext =>
        if s.pc.next < s.closing { SubscriberStepWork(s, a, s.pc.next); }
      case Receive(i) => SubscriberStepWork(s, a, i);
      case Handle(i) => SubscriberStepWork(s, a, i);
      case Exit(i) => SubscriberStepWork(s, a, i);
      case _ =>
    }
  }

  lemma TakeWork(s: State)
    requires Enabled(s, Take)
    ensures 0 <= Work(Do(s, Take)) < Work(s)
  {
    FewRecipients(s.subs, s.ch[0], 0);
    hide OfKind, TotalWork;
  }

  lemma SubscriberStepWork(s: State, a: Action, i: nat)
    requires Inv(s) && Enabled(s, a) && i < |s.subs|
    requires (a == Deliver && i == s.pc.recipients[0]) || (a == CloseNext && s.pc.next == i < s.closing) ||
             a == Receive(i) || a == Handle(i) || a == Exit(i)
    ensures 0 <= Work(Do(s, a)) < Work(s)
  {
    hide OfKind, TotalWork, ChannelWork, OrderInv, Recipients;
    var t := Do(s, a);
    assert t.subs == s.subs[i := t.subs[i]];
    WorkOfUpdate(s.subs, i, t.subs[i]);
  }

  /** Once publishers are quiet, only so many steps are left. */
  lemma {:induction false} ShutdownIsBounded(states: seq<State>, actions: seq<Action>, from: nat)
    requires Run(states, actions) && from <= |actions|
    requires forall k :: from <= k < |actions| ==> Internal(actions[k])
    ensures |actions| - from <= Work(states[from])
    decreases |actions| - from
  {
    RunInv(states, actions, from);
    if from < |actions| {
      InternalStepsEnd(states[from], actions[from]);
      ShutdownIsBounded(states, actions, from + 1);
    } else {
    }
  }

  /** Subscribed when the dispatcher had already begun to close the queues it knew. */
  predicate TooLate(s: State, i: nat) { (s.pc.Closing? || s.pc.Stopped?) && s.closing <= i }

  /** Until Stop returns, some internal step can be taken, unless everybody but those who subscribed too late has returned. */
  lemma NeverStuck(s: State) returns (a: Action)
    requires Inv(s) && s.done && !(s.pc.Stopped? && forall i :: 0 <= i < |s.subs| ==> s.subs[i].exited || TooLate(s, i))
    ensures Internal(a) && Enabled(s, a)
  {
    match s.pc {
      case Looping => a := SeeDone;
      case Routing(_, r, _) =>
        assert r != [] ==> r[0] in r;
        a := if r == [] then Routed else Deliver;
      case Draining => a := if s.ch == [] then DrainEnd else Take;
      case Closing(_) => a := CloseNext;
      case Stopped =>
        var i :| 0 <= i < |s.subs| && !s.subs[i].exited && !TooLate(s, i);
        assert ClosesInv(s, i);
        a := if s.subs[i].handling.Some? then Handle(i) else if s.subs[i].queue != [] then Receive(i) else Exit(i);
    }
  }

  /** Somebody who subscribed too late is never told to end: a Stop that has not returned by then never does. */
  lemma {:induction false} LateSubscriberHangsStop(states: seq<State>, actions: seq<Action>, j: nat, k: nat, i: nat)
    requires Run(states, actions) && j <= k < |states| && i < |states[j].subs| && TooLate(states[j], i)
    ensures i < |states[k].subs| && TooLate(states[k], i) && !StopReturns(states[k])
    decreases k - j
  {
    RunInv(states, actions, k);
    if j < k {
      LateSubscriberHangsStop(states, actions, j, k - 1, i);
      SubscribersKept(states[k - 1], actions[k - 1]);
    }
    assert ClosesInv(states[k], i);
    hide OrderInv, ChannelInv;
  }

  /** Such a run: Stop is called, the dispatcher finds nothing to drain, and only then somebody subscribes. */
  lemma SubscribingDuringShutdown()
    ensures exists states: seq<State>, actions: seq<Action> ::
              Run(states, actions) && |states| == 5 && |states[4].subs| == 1 && TooLate(states[4], 0)
  {
    var s0 := State(1, [], false, Looping, [], [], 0, 0, 0);
    var s1 := Do(s0, Stop);
    var s2 := Do(s1, SeeDone);
    var s3 := Do(s2, DrainEnd);
    var states, actions := [s0, s1, s2, s3, Do(s3, Subscribe(All))], [Stop, SeeDone, DrainEnd, Subscribe(All)];
    assert Run(states, actions);
    assert |states[4].subs| == 1 && TooLate(states[4], 0);
  }
}
