/**
 The dashboard's event bus: an event reaches the emitting process's listeners at once and
 every other process through pub/sub, which also hands the emitter its own message back.
 */
module EventBus {

  datatype Message = Message(origin: int, event: nat)

  /** One process: its wiring and what its local listeners were given. */
  class Process {
    const origin: int
    var wired: bool
    var subscribing: bool
    var heard: seq<nat>

    constructor (origin: int)
      ensures this.origin == origin && !wired && !subscribing && heard == []
    {
      this.origin, wired, subscribing, heard := origin, false, false, [];
    }

    /** Wires once; a second call asks for no second subscription. */
    method InitEventBus() returns (subscribe: bool)
      modifies this`wired, this`subscribing
      ensures wired && (subscribe <==> !old(wired)) && subscribing == (old(subscribing) || subscribe)
    {
      if wired { return false; }
      wired, subscribing := true, true;
      return true;
    }

    /** Local listeners first; a message for the channel if the bus is wired and no listener throws. */
    method Emit(event: nat, throws: bool) returns (published: seq<Message>)
      modifies this`heard
      ensures heard == old(heard) + [event]
      ensures published == if wired && !throws then [Message(origin, event)] else []
    {
      heard := heard + [event];
      published := [];
      if throws { return; }
      if wired { published := [Message(origin, event)]; }
    }

    /** Its own messages come back and are dropped. */
    method OnMessage(m: Message)
      modifies this`heard
      ensures heard == old(heard) + if m.origin == origin then [] else [m.event]
    {
      if m.origin == origin { return; }
      heard := heard + [m.event];
    }
  }

  // ------------------------------------------------------------ every interleaving

  /** An emission: who, and, once it was published, who was subscribed at that moment. */
  datatype Emission = Emission(origin: int, audience: set<int>)

  datatype Envelope = Envelope(to: int, m: Message)

  datatype Receipt = Receipt(process: int, event: nat)

  /** `outbox` holds messages handed to the publisher that Redis has not published yet. */
  datatype State = State(wired: set<int>, subscribed: set<int>, emitted: seq<Emission>,
                         outbox: set<nat>, inFlight: multiset<Envelope>, received: multiset<Receipt>)

  datatype Action =
    | Wire(process: int)
    | Subscribe(process: int)  // the subscription takes effect later
    | Emit(process: int, throws: bool)  // a listener may throw, to the emitter
    | Publish(event: nat)      // and so does the publication,
    | FailPublish(event: nat)  // or it fails, which is only logged
    | Deliver(e: Envelope)

  /** One copy for each subscriber. */
  function Copies(audience: set<int>, m: Message): multiset<Envelope> {
    multiset(set q | q in audience :: Envelope(q, m))
  }

  function Apply(s: State, a: Action): State {
    match a
    case Wire(p) => s.(wired := s.wired + {p})
    case Subscribe(p) => if p in s.wired then s.(subscribed := s.subscribed + {p}) else s
    case Emit(p, throws) =>
      var event := |s.emitted|;
      s.(emitted := s.emitted + [Emission(p, {})],
         received := s.received + multiset{Receipt(p, event)},
         outbox := if p in s.wired && !throws then s.outbox + {event} else s.outbox)
    case Publish(event) =>
      if event !in s.outbox || event >= |s.emitted| then s
      else
        var p := s.emitted[event].origin;
        s.(outbox := s.outbox - {event},
           emitted := s.emitted[event := Emission(p, s.subscribed)],
           inFlight := s.inFlight + Copies(s.subscribed, Message(p, event)))
    case FailPublish(event) => s.(outbox := s.outbox - {event})
    case Deliver(e) =>
      if e !in s.inFlight then s
      else s.(inFlight := s.inFlight - multiset{e},
              received := if e.m.origin == e.to then s.received else s.received + multiset{Receipt(e.to, e.m.event)})
  }

  function After(actions: seq<Action>): State
    decreases |actions|
  {
    if actions == [] then State({}, {}, [], {}, multiset{}, multiset{})
    else Apply(After(actions[..|actions| - 1]), actions[|actions| - 1])
  }

  /** How often the process is to hear the event, once what was published is delivered. */
  function Due(s: State, q: int, event: nat): nat {
    if event < |s.emitted| && (q == s.emitted[event].origin || q in s.emitted[event].audience) then 1 else 0
  }

  /** Copies under way that will be heard. */
  function Coming(s: State, q: int, event: nat): nat {
    if event < |s.emitted| && s.emitted[event].origin != q then s.inFlight[Envelope(q, Message(s.emitted[event].origin, event))] else 0
  }

  predicate Conserved(s: State, q: int, event: nat) {
    s.received[Receipt(q, event)] + Coming(s, q, event) == Due(s, q, event)
  }

  /** Nothing in flight is forged or from the future, and what waits to be published has no audience yet. */
  predicate Genuine(s: State) {
    && (forall e :: e in s.inFlight ==> e.m.event < |s.emitted| && s.emitted[e.m.event].origin == e.m.origin)
    && (forall event :: event in s.outbox ==> event < |s.emitted| && s.emitted[event].audience == {})
  }

  lemma CopiesOf(audience: set<int>, m: Message, e: Envelope)
    ensures Copies(audience, m)[e] == if e.m == m && e.to in audience then 1 else 0
  {
  }

  lemma EmitConserves(s: State, p: int, throws: bool, q: int, event: nat)
    requires Genuine(s) && Conserved(s, q, event)
    ensures Conserved(Apply(s, Emit(p, throws)), q, event)
  {
  }

  lemma PublishConserves(s: State, published: nat, q: int, event: nat)
    requires Genuine(s) && Conserved(s, q, event) && published in s.outbox
    ensures Conserved(Apply(s, Publish(published)), q, event)
  {
    var m := Message(s.emitted[published].origin, published);
    if event < |s.emitted| { CopiesOf(s.subscribed, m, Envelope(q, Message(s.emitted[event].origin, event))); }
  }

  lemma DeliverConserves(s: State, e: Envelope, q: int, event: nat)
    requires Genuine(s) && Conserved(s, q, event)
    ensures Conserved(Apply(s, Deliver(e)), q, event)
  {
  }

  lemma PublishKeepsGenuine(s: State, event: nat)
    requires Genuine(s) && event in s.outbox
    ensures Genuine(Apply(s, Publish(event)))
  {
    var m := Message(s.emitted[event].origin, event);
    forall e | e in Apply(s, Publish(event)).inFlight
      ensures e.m.event < |s.emitted| && s.emitted[e.m.event].origin == e.m.origin
    {
      CopiesOf(s.subscribed, m, e);
    }
  }

  lemma KeepsGenuine(s: State, a: Action)
    requires Genuine(s)
    ensures Genuine(Apply(s, a))
  {
    if a.Publish? && a.event in s.outbox { PublishKeepsGenuine(s, a.event); }
  }

  /** Heard and still to be heard add up to what is due, whatever the order of things. */
  lemma {:induction false} AlwaysConserved(actions: seq<Action>, q: int, event: nat)
    ensures Genuine(After(actions)) && Conserved(After(actions), q, event)
    decreases |actions|
  {
    if actions != [] {
      var s, a := After(actions[..|actions| - 1]), actions[|actions| - 1];
      AlwaysConserved(actions[..|actions| - 1], q, event);
      KeepsGenuine(s, a);
      match a {
        case Emit(p, throws) => EmitConserves(s, p, throws, q, event);
        case Publish(published) => if published in s.outbox { PublishConserves(s, published, q, event); }
        case Deliver(e) => DeliverConserves(s, e, q, event);
        case _ =>
      }
    }
  }

  /** In every run no process hears an event twice. */
  lemma NeverTwice(actions: seq<Action>, q: int, event: nat)
    ensures After(actions).received[Receipt(q, event)] <= 1
  {
    AlwaysConserved(actions, q, event);
  }

  /**
   Once the channels have drained, a process has heard an emitted event exactly once if it
   emitted it, or was subscribed at the moment it was published; otherwise never.
   */
  lemma DrainedExactlyOnceIff(actions: seq<Action>, q: int, event: nat)
    requires After(actions).inFlight == multiset{} && event < |After(actions).emitted|
    ensures var s := After(actions);
            s.received[Receipt(q, event)] == (if q == s.emitted[event].origin || q in s.emitted[event].audience then 1 else 0)
  {
    AlwaysConserved(actions, q, event);
  }

  /** A process that subscribes after the emission and before the publication still hears the event. */
  lemma LateSubscriberHears(s: State, p: int, q: int)
    requires Genuine(s) && p in s.wired && q in s.wired && p != q
    ensures var event := |s.emitted|;
            var t := Apply(Apply(Apply(s, Emit(p, false)), Subscribe(q)), Publish(event));
            q in t.emitted[event].audience && Envelope(q, Message(p, event)) in t.inFlight
  {
    var event := |s.emitted|;
    CopiesOf(s.subscribed + {q}, Message(p, event), Envelope(q, Message(p, event)));
  }

  /** Without the origin check the emitter would hear its own event again: its copy does come back. */
  lemma OwnCopyComesBack(s: State, p: int, event: nat)
    requires Genuine(s) && p in s.subscribed && event in s.outbox && s.emitted[event].origin == p
    ensures Envelope(p, Message(p, event)) in Apply(s, Publish(event)).inFlight
  {
    CopiesOf(s.subscribed, Message(p, event), Envelope(p, Message(p, event)));
  }

  // ------------------------------------------------------------ who is the audience

  /** Published or never to be: the event is out of the outbox, with this audience. */
  predicate IsClosed(s: State, event: nat, audience: set<int>) {
    event < |s.emitted| && event !in s.outbox && s.emitted[event].audience == audience
  }

  lemma {:induction false} StaysClosed(actions: seq<Action>, n: nat, event: nat, audience: set<int>)
    requires n <= |actions| && IsClosed(After(actions[..n]), event, audience)
    ensures IsClosed(After(actions), event, audience)
    decreases |actions|
  {
    if n < |actions| {
      assert actions[..|actions| - 1][..n] == actions[..n];
      StaysClosed(actions[..|actions| - 1], n, event, audience);
    } else {
      assert actions[..n] == actions;
    }
  }

  /** The audience of an event, at the end of any run, is whoever was subscribed when it was published. */
  lemma AudienceWasSubscribed(actions: seq<Action>, n: nat, event: nat)
    requires n < |actions| && actions[n] == Publish(event) && event in After(actions[..n]).outbox
    ensures event < |After(actions).emitted| && After(actions).emitted[event].audience == After(actions[..n]).subscribed
  {
    AlwaysConserved(actions[..n], 0, event);
    assert actions[..n + 1][..n] == actions[..n];
    StaysClosed(actions, n + 1, event, After(actions[..n]).subscribed);
  }

  /** What a listener's exception or a missing wiring keeps from the channel, only the emitter ever hears. */
  lemma UnpublishedStaysLocal(actions: seq<Action>, n: nat, p: int, throws: bool, q: int)
    requires n < |actions| && actions[n] == Emit(p, throws) && (throws || p !in After(actions[..n]).wired)
    ensures var event := |After(actions[..n]).emitted|;
            q != p ==> After(actions).received[Receipt(q, event)] == 0
  {
    var s, event := After(actions[..n]), |After(actions[..n]).emitted|;
    AlwaysConserved(actions[..n], q, event);
    assert actions[..n + 1][..n] == actions[..n];
    StaysClosed(actions, n + 1, event, {});
    OriginStays(actions, n + 1, event, p);
    AlwaysConserved(actions, q, event);
  }

  lemma {:induction false} OriginStays(actions: seq<Action>, n: nat, event: nat, p: int)
    requires n <= |actions| && event < |After(actions[..n]).emitted| && After(actions[..n]).emitted[event].origin == p
    ensures event < |After(actions).emitted| && After(actions).emitted[event].origin == p
    decreases |actions|
  {
    if n < |actions| {
      assert actions[..|actions| - 1][..n] == actions[..n];
      OriginStays(actions[..|actions| - 1], n, event, p);
    } else {
      assert actions[..n] == actions;
    }
  }
}
