/**
 The fields of the event bus and the steps that update them (backend/internal/eventbus/bus.go), each proved to be the step of
 the state machine of EventBus.
 */
module EventBusInPlace {
  import opened Wrappers
  import opened EventBus

  class Bus {
    const cap: nat
    var handlers: map<nat, seq<nat>>
    var wildcard: seq<nat>
    var subs: seq<Subscriber>
    var ch: seq<Event>
    var done: bool
    var pc: Pc
    ghost var accepted: seq<Event>
    var consumed: nat
    ghost var acceptedAtStop: nat
    var closing: nat

    ghost function Snapshot(): State
      reads this
    {
      State(cap, ch, done, pc, subs, accepted, consumed, acceptedAtStop, closing)
    }

    /** The registration tables list the subscribers of each interest in the order they subscribed. */
    ghost predicate Valid()
      reads this
    {
      Tables(handlers, wildcard, subs)
    }

    constructor (bufSize: nat)
      ensures Valid() && Init(Snapshot()) && cap == bufSize && subs == []
    {
      cap, handlers, wildcard, subs := bufSize, map[], [], [];
      ch, done, pc := [], false, Looping;
      accepted, consumed, acceptedAtStop, closing := [], 0, 0, 0;
    }

    method AddSubscriber(interest: Interest) returns (s: nat)
      modifies this`subs
      ensures s == |old(subs)| && subs == old(subs) + [Fresh(interest, consumed)]
    {
      s := |subs|;
      subs := subs + [Fresh(interest, consumed)];
    }

    /** At any time, also after Start. */
    method Subscribe(kind: nat)
      requires Valid()
      modifies this
      ensures Valid() && Snapshot() == Do(old(Snapshot()), Action.Subscribe(Only(kind)))
    {
      hide Tables, OfKind;
      OneSubscriber(handlers, wildcard, subs, Fresh(Only(kind), consumed));
      var s := AddSubscriber(Only(kind));
      handlers := handlers[kind := (if kind in handlers then handlers[kind] else []) + [s]];
    }

    method SubscribeAll()
      requires Valid()
      modifies this
      ensures Valid() && Snapshot() == Do(old(Snapshot()), Action.Subscribe(All))
    {
      hide Tables, OfKind;
      OneSubscriber(handlers, wildcard, subs, Fresh(All, consumed));
      var s := AddSubscriber(All);
      wildcard := wildcard + [s];
    }

    /** Non-blocking: a full buffer drops the event. */
    method Publish(event: Event)
      requires Valid()
      modifies this
      ensures Valid() && Snapshot() == Do(old(Snapshot()), Action.Publish(event))
      ensures old(|ch|) < cap ==> ch == old(ch) + [event] && accepted == old(accepted) + [event]
      ensures old(|ch|) >= cap ==> ch == old(ch) && accepted == old(accepted)
    {
      if |ch| < cap {
        ch, accepted := ch + [event], accepted + [event];
      }
    }

    method StopOnce()
      requires Valid()
      modifies this
      ensures Valid() && Snapshot() == Do(old(Snapshot()), Action.Stop)
    {
      if !done {
        done, acceptedAtStop := true, |accepted|;
      }
    }

    /** One event off the channel, while looping or draining, and the queues it goes to. */
    method Take()
      requires Valid() && Enabled(Snapshot(), Action.Take)
      modifies this
      ensures Valid() && Snapshot() == Do(old(Snapshot()), Action.Take)
    {
      RecipientsAre(handlers, wildcard, subs, ch[0]);
      hide Tables, Recipients, OfKind;
      var event := ch[0];
      var typed := if event.kind in handlers then handlers[event.kind] else [];
      pc := Routing(event, typed + wildcard, pc.Draining?);
      ch, consumed := ch[1..], consumed + 1;
    }

    method Advance()
      requires Valid() && (Enabled(Snapshot(), SeeDone) || Enabled(Snapshot(), DrainEnd) || Enabled(Snapshot(), Routed))
      modifies this
      ensures Valid()
      ensures Snapshot() == Do(old(Snapshot()), if old(pc).Looping? then SeeDone else if old(pc).Draining? then DrainEnd else Routed)
    {
      match pc {
        case Looping => pc := Draining;
        case Draining => pc, closing := Closing(0), |subs|;
        case Routing(_, _, draining) => pc := if draining then Draining else Looping;
      }
    }

    /** Non-blocking: only a subscriber whose queue is full loses the event. */
    method Deliver()
      requires Valid() && Enabled(Snapshot(), Action.Deliver)
      modifies this
      ensures Valid() && Snapshot() == Do(old(Snapshot()), Action.Deliver)
      ensures var i := old(pc).recipients[0];
              if |old(subs)[i].queue| < cap then
                subs[i].queue == old(subs)[i].queue + [old(pc).event] && subs[i].dropped == old(subs)[i].dropped
              else subs[i].queue == old(subs)[i].queue && subs[i].dropped == old(subs)[i].dropped + 1
    {
      hide Tables, Recipients, OfKind;
      var s := pc.recipients[0];
      var sub := subs[s];
      if |sub.queue| < cap {
        sub := sub.(queue := sub.queue + [pc.event]);
      } else {
        sub := sub.(dropped := sub.dropped + 1);
      }
      SameInterest(handlers, wildcard, subs, s, sub);
      subs, pc := subs[s := sub], pc.(recipients := pc.recipients[1..]);
    }

    method CloseNext()
      requires Valid() && Enabled(Snapshot(), Action.CloseNext)
      modifies this
      ensures Valid() && Snapshot() == Do(old(Snapshot()), Action.CloseNext)
    {
      hide Tables, Recipients, OfKind;
      if pc.next < closing && pc.next < |subs| {
        var sub := subs[pc.next].(closes := subs[pc.next].closes + 1);
        SameInterest(handlers, wildcard, subs, pc.next, sub);
        subs, pc := subs[pc.next := sub], Closing(pc.next + 1);
      } else {
        pc := Stopped;
      }
    }

    /** A subscriber's loop: the next event off its queue, the handler's return, or the end of the closed queue. */
    method Receive(i: nat)
      requires Valid() && Enabled(Snapshot(), Action.Receive(i))
      modifies this
      ensures Valid() && Snapshot() == Do(old(Snapshot()), Action.Receive(i))
    {
      hide Tables, Recipients, OfKind;
      var sub := subs[i].(queue := subs[i].queue[1..], handling := Some(subs[i].queue[0]));
      SameInterest(handlers, wildcard, subs, i, sub);
      subs := subs[i := sub];
    }

    method HandlerReturns(i: nat)
      requires Valid() && Enabled(Snapshot(), Action.Handle(i))
      modifies this
      ensures Valid() && Snapshot() == Do(old(Snapshot()), Action.Handle(i))
    {
      hide Tables, Recipients, OfKind;
      var sub := subs[i].(handling := None, handled := subs[i].handled + [subs[i].handling.value]);
      SameInterest(handlers, wildcard, subs, i, sub);
      subs := subs[i := sub];
    }

    method ExitLoop(i: nat)
      requires Valid() && Enabled(Snapshot(), Action.Exit(i))
      modifies this
      ensures Valid() && Snapshot() == Do(old(Snapshot()), Action.Exit(i))
    {
      hide Tables, Recipients, OfKind;
      SameInterest(handlers, wildcard, subs, i, subs[i].(exited := true));
      subs := subs[i := subs[i].(exited := true)];
    }
  }

  // ----- The registration tables

  ghost predicate Tables(handlers: map<nat, seq<nat>>, wildcard: seq<nat>, subs: seq<Subscriber>) {
    wildcard == OfKind(subs, All, 0) &&
    forall kind: nat :: (if kind in handlers then handlers[kind] else []) == OfKind(subs, Only(kind), 0)
  }

  lemma RecipientsAre(handlers: map<nat, seq<nat>>, wildcard: seq<nat>, subs: seq<Subscriber>, e: Event)
    requires Tables(handlers, wildcard, subs)
    ensures (if e.kind in handlers then handlers[e.kind] else []) + wildcard == Recipients(subs, e)
  {
    assert OfKind(subs, Only(e.kind), 0) + OfKind(subs, All, 0) == Recipients(subs, e);
  }

  lemma {:induction false} OfKindAppended(subs: seq<Subscriber>, s: Subscriber, interest: Interest, from: nat)
    requires from <= |subs|
    ensures OfKind(subs + [s], interest, from) == OfKind(subs, interest, from) + if s.interest == interest then [|subs|] else []
    decreases |subs| - from
  {
    if from < |subs| { OfKindAppended(subs, s, interest, from + 1); }
  }

  lemma {:induction false} OfKindUpdated(subs: seq<Subscriber>, i: nat, s: Subscriber, interest: Interest, from: nat)
    requires i < |subs| && s.interest == subs[i].interest && from <= |subs|
    ensures OfKind(subs[i := s], interest, from) == OfKind(subs, interest, from)
    decreases |subs| - from
  {
    if from < |subs| { OfKindUpdated(subs, i, s, interest, from + 1); }
  }

  lemma OneSubscriber(handlers: map<nat, seq<nat>>, wildcard: seq<nat>, subs: seq<Subscriber>, s: Subscriber)
    requires Tables(handlers, wildcard, subs)
    ensures s.interest.All? ==> Tables(handlers, wildcard + [|subs|], subs + [s])
    ensures s.interest.Only? ==>
              var kind := s.interest.kind;
              Tables(handlers[kind := (if kind in handlers then handlers[kind] else []) + [|subs|]], wildcard, subs + [s])
  {
    forall interest ensures OfKind(subs + [s], interest, 0) == OfKind(subs, interest, 0) + if s.interest == interest then [|subs|] else [] {
      OfKindAppended(subs, s, interest, 0);
    }
    hide OfKind;
  }

  lemma SameInterest(handlers: map<nat, seq<nat>>, wildcard: seq<nat>, subs: seq<Subscriber>, i: nat, s: Subscriber)
    requires Tables(handlers, wildcard, subs) && i < |subs| && s.interest == subs[i].interest
    ensures Tables(handlers, wildcard, subs[i := s])
  {
    forall interest ensures OfKind(subs[i := s], interest, 0) == OfKind(subs, interest, 0) {
      OfKindUpdated(subs, i, s, interest, 0);
    }
    hide OfKind;
  }
}
