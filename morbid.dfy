/**
 * The director's in-process STOMP broker: queues deliver each message to one subscriber
 * in turn and buffer messages nobody is subscribed to; topics deliver each message to
 * every subscriber; the factory creates and deletes destinations by name and keeps the
 * destinations each connection subscribed to.
 *
 * A connection is known by its protocol id; every frame the broker writes to a
 * connection is appended, with that id, to one shared outbox.
 */
module Morbid {
  import opened Wrappers
  import opened Text

  type ProtoId = nat
  type Headers = map<string, string>

  datatype Message = Message(headers: Headers, body: string)
  datatype Frame = Frame(cmd: string, headers: Headers, body: string)
  datatype Delivery = Delivery(to: ProtoId, frame: Frame)

  /** The transports of all connections: every `sendFrame`, in the order it happened. */
  class Outbox {
    var sent: seq<Delivery>

    constructor ()
      ensures sent == []
    {
      sent := [];
    }
  }

  // ---------------------------------------------------------------------------------
  // Lists without repeats

  /** `if x not in s: s.append(x)`. */
  function Added<T(==)>(s: seq<T>, x: T): (r: seq<T>)
    ensures x in r && (x in s ==> r == s) && (x !in s ==> r == s + [x])
  {
    if x in s then s else s + [x]
  }

  /** `if x in s: s.remove(x)`: the first occurrence goes, the rest keep their order. */
  function Removed<T(==)>(s: seq<T>, x: T): (r: seq<T>)
    decreases |s|
  {
    if |s| == 0 then []
    else if s[0] == x then s[1..]
    else [s[0]] + Removed(s[1..], x)
  }

  predicate NoRepeats<T(==)>(s: seq<T>)
  {
    forall i, j :: 0 <= i < j < |s| ==> s[i] != s[j]
  }

  /** Adding never creates a repeat: a list kept with Added holds each element once. */
  lemma AddedNoRepeats<T>(s: seq<T>, x: T)
    requires NoRepeats(s)
    ensures NoRepeats(Added(s, x))
  {
  }

  /** Removing an absent element changes nothing. */
  lemma {:induction false} RemovedAbsent<T>(s: seq<T>, x: T)
    requires x !in s
    ensures Removed(s, x) == s
    decreases |s|
  {
    if |s| > 0 {
      RemovedAbsent(s[1..], x);
    }
  }

  /**
   * Removing a present element from a list without repeats takes exactly that element
   * out: one fewer, the element gone, every other element kept.
   */
  lemma {:induction false} RemovedPresent<T>(s: seq<T>, x: T)
    requires NoRepeats(s) && x in s
    ensures |Removed(s, x)| == |s| - 1 && x !in Removed(s, x) && NoRepeats(Removed(s, x))
    ensures forall y :: y != x ==> (y in Removed(s, x) <==> y in s)
    decreases |s|
  {
    if s[0] != x {
      RemovedPresent(s[1..], x);
      assert Removed(s, x) == [s[0]] + Removed(s[1..], x);
      assert s[0] !in s[1..] by {
        forall j | 0 <= j < |s[1..]|
          ensures s[1..][j] != s[0]
        {
          assert s[1..][j] == s[j + 1];
        }
      }
    } else {
      assert Removed(s, x) == s[1..];
      assert x !in s[1..] by {
        forall j | 0 <= j < |s[1..]|
          ensures s[1..][j] != x
        {
          assert s[1..][j] == s[j + 1];
        }
      }
    }
  }

  // ---------------------------------------------------------------------------------
  // Message ids

  /** `name + '_' + str(n)`. */
  function MessageId(name: string, n: nat): string
  {
    name + "_" + NatToString(n)
  }

  /** Distinct counts give distinct message ids on one destination. */
  lemma MessageIdInjective(name: string, m: nat, n: nat)
    requires MessageId(name, m) == MessageId(name, n)
    ensures m == n
  {
    assert MessageId(name, m)[|name| + 1..] == NatToString(m);
    assert MessageId(name, n)[|name| + 1..] == NatToString(n);
    DigitsOfNat(m);
    DigitsOfNat(n);
  }

  /** `headers.update({'destination': name, 'message-id': id})`. */
  function Stamped(h: Headers, name: string, n: nat): Headers
  {
    h["destination" := name]["message-id" := MessageId(name, n)]
  }

  /**
   * Stamping sets the destination and the message id and keeps every other header the
   * sender gave; the ids of two different sends on one destination differ.
   */
  lemma StampedFacts(h: Headers, name: string, m: nat, n: nat)
    ensures Stamped(h, name, n).Keys == h.Keys + {"destination", "message-id"}
    ensures Stamped(h, name, n)["destination"] == name && Stamped(h, name, n)["message-id"] == MessageId(name, n)
    ensures forall k :: k in h && k != "destination" && k != "message-id" ==> Stamped(h, name, n)[k] == h[k]
    ensures m != n ==> Stamped(h, name, m)["message-id"] != Stamped(h, name, n)["message-id"]
  {
    if m != n && MessageId(name, m) == MessageId(name, n) {
      MessageIdInjective(name, m, n);
    }
  }

  /** The MESSAGE frame a destination sends for the n-th message it delivers. */
  function MessageFrame(name: string, n: nat, m: Message): Frame
  {
    Frame("MESSAGE", Stamped(m.headers, name, n), m.body)
  }

  // ---------------------------------------------------------------------------------
  // Queue

  datatype QueueState = QueueState(id: nat, subscribers: seq<ProtoId>, messages: seq<Message>)

  /**
   * `Queue.send`: without subscribers the message is buffered; otherwise the head
   * subscriber gets it, stamped with the next id, and moves to the back.
   */
  function QueueSend(name: string, q: QueueState, m: Message): (r: (QueueState, seq<Delivery>))
    ensures |q.subscribers| > 0 ==> |r.0.subscribers| == |q.subscribers| && r.0.messages == q.messages
  {
    if |q.subscribers| == 0 then (q.(messages := q.messages + [m]), [])
    else
      var target := q.subscribers[0];
      (QueueState(q.id + 1, q.subscribers[1..] + [target], q.messages),
       [Delivery(target, MessageFrame(name, q.id + 1, m))])
  }

  /** The drain loop of `Queue.subscribe`: send the buffered messages, oldest first. */
  function Drain(name: string, q: QueueState): (r: (QueueState, seq<Delivery>))
    requires |q.subscribers| > 0
    decreases |q.messages|
  {
    if |q.messages| == 0 then (q, [])
    else
      var (q1, d1) := QueueSend(name, q.(messages := q.messages[1..]), q.messages[0]);
      var (q2, d2) := Drain(name, q1);
      (q2, d1 + d2)
  }

  /** `Queue.subscribe`: add the subscriber unless present, then drain the buffer. */
  function QueueSubscribe(name: string, q: QueueState, p: ProtoId): (QueueState, seq<Delivery>)
  {
    Drain(name, q.(subscribers := Added(q.subscribers, p)))
  }

  /** Subscribing to a new, empty queue delivers nothing. */
  lemma QueueSubscribeEmpty(name: string, p: ProtoId)
    ensures QueueSubscribe(name, QueueState(0, [], []), p) == (QueueState(0, [p], []), [])
  {
    assert Added([], p) == [p];
  }

  /** A send to a queue without subscribers buffers the message and delivers nothing. */
  lemma QueueSendBuffers(name: string, q: QueueState, m: Message)
    requires |q.subscribers| == 0
    ensures QueueSend(name, q, m).0.messages == q.messages + [m] && QueueSend(name, q, m).1 == []
    ensures QueueSend(name, q, m).0.id == q.id
  {
  }

  /** Sending the messages of a list in turn. */
  function SendAll(name: string, q: QueueState, ms: seq<Message>): (r: (QueueState, seq<Delivery>))
    decreases |ms|
  {
    if |ms| == 0 then (q, [])
    else
      var (q1, d1) := QueueSend(name, q, ms[0]);
      var (q2, d2) := SendAll(name, q1, ms[1..]);
      (q2, d1 + d2)
  }

  /**
   * Up to one message per subscriber, sent in turn, leave the queue with its list rotated
   * by that many, its id advanced by that many and its buffer untouched.
   */
  lemma {:induction false} RoundRobinRotates(name: string, q: QueueState, ms: seq<Message>)
    requires 0 < |q.subscribers| && |ms| <= |q.subscribers|
    ensures SendAll(name, q, ms).0 == QueueState(q.id + |ms|, q.subscribers[|ms|..] + q.subscribers[..|ms|], q.messages)
    decreases |ms|
  {
    var s := q.subscribers;
    if |ms| == 0 {
      assert s[0..] + s[..0] == s;
    } else {
      var s1 := s[1..] + [s[0]];
      assert QueueSend(name, q, ms[0]).0 == QueueState(q.id + 1, s1, q.messages);
      RoundRobinRotates(name, QueueSend(name, q, ms[0]).0, ms[1..]);
      RotateOnce(s, |ms|);
    }
  }

  /** Rotating by one and then by k - 1 is rotating by k. */
  lemma RotateOnce<T>(s: seq<T>, k: nat)
    requires 0 < k <= |s|
    ensures var s1 := s[1..] + [s[0]]; s1[k - 1..] + s1[..k - 1] == s[k..] + s[..k]
  {
    var s1 := s[1..] + [s[0]];
    assert s1[..k - 1] == s[1..k];
    assert s[..k] == [s[0]] + s[1..k];
    assert s1[k - 1..] == s[k..] + [s[0]];
  }

  /**
   * Round robin: up to one message per subscriber, sent in turn, go one each to the
   * subscribers in list order, with consecutive ids.
   */
  lemma {:induction false} RoundRobin(name: string, q: QueueState, ms: seq<Message>)
    requires 0 < |q.subscribers| && |ms| <= |q.subscribers|
    ensures |SendAll(name, q, ms).1| == |ms|
    ensures forall j :: 0 <= j < |ms| ==>
      SendAll(name, q, ms).1[j] == Delivery(q.subscribers[j], MessageFrame(name, q.id + j + 1, ms[j]))
    decreases |ms|
  {
    var s := q.subscribers;
    if |ms| > 0 {
      var step := QueueSend(name, q, ms[0]);
      var s1 := s[1..] + [s[0]];
      assert step.0 == QueueState(q.id + 1, s1, q.messages);
      var rest := SendAll(name, step.0, ms[1..]);
      assert SendAll(name, q, ms).1 == step.1 + rest.1;
      RoundRobin(name, step.0, ms[1..]);
      forall j | 0 < j < |ms|
        ensures (step.1 + rest.1)[j] == Delivery(s[j], MessageFrame(name, q.id + j + 1, ms[j]))
      {
        assert (step.1 + rest.1)[j] == rest.1[j - 1];
        assert ms[1..][j - 1] == ms[j] && s1[j - 1] == s[j];
      }
    }
  }

  /** A full round leaves the subscriber list as it was. */
  lemma RoundRobinCycle(name: string, q: QueueState, ms: seq<Message>)
    requires 0 < |q.subscribers| && |ms| == |q.subscribers|
    ensures SendAll(name, q, ms).0.subscribers == q.subscribers
    ensures |SendAll(name, q, ms).1| == |ms|
    ensures forall j :: 0 <= j < |ms| ==> SendAll(name, q, ms).1[j].to == q.subscribers[j]
  {
    RoundRobin(name, q, ms);
    RoundRobinRotates(name, q, ms);
    assert q.subscribers[|ms|..] + q.subscribers[..|ms|] == q.subscribers;
  }

  /**
   * Draining is first in, first out: every buffered message is delivered, in buffer
   * order, with consecutive ids, and the buffer ends empty.
   */
  lemma {:induction false} DrainInOrder(name: string, q: QueueState)
    requires 0 < |q.subscribers|
    ensures var (q2, ds) := Drain(name, q);
      && |ds| == |q.messages| && q2.messages == [] && q2.id == q.id + |q.messages|
      && |q2.subscribers| == |q.subscribers|
      && forall j :: 0 <= j < |ds| ==> ds[j].frame == MessageFrame(name, q.id + j + 1, q.messages[j])
    decreases |q.messages|
  {
    if |q.messages| > 0 {
      var (q1, d1) := QueueSend(name, q.(messages := q.messages[1..]), q.messages[0]);
      DrainInOrder(name, q1);
      var ds := Drain(name, q).1;
      forall j | 0 <= j < |ds|
        ensures ds[j].frame == MessageFrame(name, q.id + j + 1, q.messages[j])
      {
        if j > 0 {
          assert ds[j] == Drain(name, q1).1[j - 1];
        }
      }
    }
  }

  /** One turn of the drain loop: the first buffered message is sent, then the rest are drained. */
  lemma DrainStep(name: string, q: QueueState, p: ProtoId)
    requires |q.subscribers| > 0 && |q.messages| > 0 && p in q.subscribers
    ensures var step := QueueSend(name, q.(messages := q.messages[1..]), q.messages[0]);
      && |step.0.subscribers| > 0 && p in step.0.subscribers && |step.0.messages| < |q.messages|
      && Drain(name, q) == (Drain(name, step.0).0, step.1 + Drain(name, step.0).1)
  {
  }

  class Queue {
    const name: string
    var id: nat
    var subscribers: seq<ProtoId>
    var messages: seq<Message>

    function State(): QueueState
      reads this
    {
      QueueState(id, subscribers, messages)
    }

    constructor (name: string)
      ensures this.name == name && State() == QueueState(0, [], [])
    {
      this.name := name;
      id, subscribers, messages := 0, [], [];
    }

    /** `subscribe`: as QueueSubscribe; the buffered messages go out through the outbox. */
    method Subscribe(p: ProtoId, wire: Outbox)
      modifies this, wire
      ensures State() == QueueSubscribe(name, old(State()), p).0
      ensures wire.sent == old(wire.sent) + QueueSubscribe(name, old(State()), p).1
    {
      if p !in subscribers {
        subscribers := subscribers + [p];
      }
      DrainBuffer(wire);
    }

    /** The drain loop of `subscribe`: as Drain. */
    method DrainBuffer(wire: Outbox)
      requires |subscribers| > 0
      modifies this, wire
      ensures State() == Drain(name, old(State())).0
      ensures wire.sent == old(wire.sent) + Drain(name, old(State())).1
    {
      ghost var goal := Drain(name, State());
      ghost var q := State();
      ghost var out: seq<Delivery> := [];
      while |messages| > 0
        invariant q == State() && |q.subscribers| > 0
        invariant wire.sent == old(wire.sent) + out
        invariant Drain(name, q).0 == goal.0 && out + Drain(name, q).1 == goal.1
        decreases |messages|
      {
        ghost var step := QueueSend(name, q.(messages := q.messages[1..]), q.messages[0]);
        DrainStep(name, q, q.subscribers[0]);
        assert out + Drain(name, q).1 == (out + step.1) + Drain(name, step.0).1;
        var message := messages[0];
        messages := messages[1..];
        Send(message.headers, message.body, wire);
        out, q := out + step.1, step.0;
      }
      assert Drain(name, q) == (q, []);
    }

    /** `unsubscribe`: the subscriber leaves if present; nothing else changes. */
    method Unsubscribe(p: ProtoId)
      modifies this
      ensures State() == old(State()).(subscribers := Removed(old(subscribers), p))
    {
      if p in subscribers {
        subscribers := Removed(subscribers, p);
      } else {
        RemovedAbsent(subscribers, p);
      }
    }

    /** `send`: as QueueSend; a delivery goes out through the outbox. */
    method Send(headers: Headers, body: string, wire: Outbox)
      modifies this, wire
      ensures State() == QueueSend(name, old(State()), Message(headers, body)).0
      ensures wire.sent == old(wire.sent) + QueueSend(name, old(State()), Message(headers, body)).1
    {
      if |subscribers| == 0 {
        messages := messages + [Message(headers, body)];
      } else {
        var target := subscribers[0];
        subscribers := subscribers[1..];
        id := id + 1;
        var stamped := Stamped(headers, name, id);
        wire.sent := wire.sent + [Delivery(target, Frame("MESSAGE", stamped, body))];
        subscribers := subscribers + [target];
      }
    }

    /** `empty`: no subscribers and no buffered messages. */
    method Empty() returns (b: bool)
      ensures b <==> |subscribers| == 0 && |messages| == 0
    {
      return !(|subscribers| > 0 || |messages| > 0);
    }
  }

  // ---------------------------------------------------------------------------------
  // Topic

  /** The same frame to each subscriber, in list order. */
  function Broadcast(subscribers: seq<ProtoId>, f: Frame): (ds: seq<Delivery>)
    ensures |ds| == |subscribers|
  {
    seq(|subscribers|, i requires 0 <= i < |subscribers| => Delivery(subscribers[i], f))
  }

  /**
   * A broadcast reaches every subscriber with the same frame, in list order; on a list
   * without repeats each subscriber gets it exactly once.
   */
  lemma BroadcastReachesAll(subscribers: seq<ProtoId>, f: Frame)
    ensures forall j :: 0 <= j < |subscribers| ==> Broadcast(subscribers, f)[j] == Delivery(subscribers[j], f)
    ensures NoRepeats(subscribers) ==> forall i, j :: 0 <= i < j < |subscribers| ==> Broadcast(subscribers, f)[i].to != Broadcast(subscribers, f)[j].to
    ensures forall p :: p !in subscribers ==> forall j :: 0 <= j < |subscribers| ==> Broadcast(subscribers, f)[j].to != p
  {
  }

  class Topic {
    const name: string
    var id: nat
    var subscribers: seq<ProtoId>

    constructor (name: string)
      ensures this.name == name && id == 0 && subscribers == []
    {
      this.name := name;
      id, subscribers := 0, [];
    }

    /** `subscribe`: add the subscriber unless present. */
    method Subscribe(p: ProtoId)
      modifies this
      ensures id == old(id) && subscribers == Added(old(subscribers), p)
    {
      if p !in subscribers {
        subscribers := subscribers + [p];
      }
    }

    /** `unsubscribe`: the subscriber leaves if present. */
    method Unsubscribe(p: ProtoId)
      modifies this
      ensures id == old(id) && subscribers == Removed(old(subscribers), p)
    {
      if p in subscribers {
        subscribers := Removed(subscribers, p);
      } else {
        RemovedAbsent(subscribers, p);
      }
    }

    /**
     * `send`: the id advances whether or not anyone is subscribed; every subscriber gets
     * the message stamped with it, in list order.
     */
    method Send(headers: Headers, body: string, wire: Outbox)
      modifies this, wire
      ensures id == old(id) + 1 && subscribers == old(subscribers)
      ensures wire.sent == old(wire.sent) + Broadcast(subscribers, MessageFrame(name, id, Message(headers, body)))
    {
      id := id + 1;
      var stamped := Stamped(headers, name, id);
      var f := Frame("MESSAGE", stamped, body);
      var targets := subscribers;
      for i := 0 to |targets|
        modifies wire
        invariant wire.sent == old(wire.sent) + Broadcast(targets[..i], f)
      {
        assert Broadcast(targets[..i + 1], f) == Broadcast(targets[..i], f) + [Delivery(targets[i], f)];
        wire.sent := wire.sent + [Delivery(targets[i], f)];
      }
      assert targets[..|targets|] == targets;
    }

    /** `empty`: no subscribers. */
    method Empty() returns (b: bool)
      ensures b <==> |subscribers| == 0
    {
      return !(|subscribers| > 0);
    }
  }

  // ---------------------------------------------------------------------------------
  // The factory

  /** A destination the factory holds: a queue or a topic. */
  datatype Dest = QueueDest(q: Queue) | TopicDest(t: Topic)
  {
    function Obj(): object
    {
      match this
      case QueueDest(q) => q
      case TopicDest(t) => t
    }

    function Name(): string
    {
      match this
      case QueueDest(q) => q.name
      case TopicDest(t) => t.name
    }

    function Subscribers(): seq<ProtoId>
      reads Obj()
    {
      match this
      case QueueDest(q) => q.subscribers
      case TopicDest(t) => t.subscribers
    }

    /** `empty()`: a queue with neither subscribers nor buffered messages, a topic without subscribers. */
    predicate IsEmpty()
      reads Obj()
    {
      match this
      case QueueDest(q) => |q.subscribers| == 0 && |q.messages| == 0
      case TopicDest(t) => |t.subscribers| == 0
    }
  }

  /** Two different destinations are two different objects. */
  lemma ObjDistinct(a: Dest, b: Dest)
    requires a != b
    ensures a.Obj() != b.Obj()
  {
  }

  /** A list naming no destination twice names no queue or topic object twice. */
  lemma ObjsDistinct(ds: seq<Dest>)
    requires NoRepeats(ds)
    ensures forall j, k :: 0 <= j < |ds| && 0 <= k < |ds| && j != k ==> ds[j].Obj() != ds[k].Obj()
  {
    forall j, k | 0 <= j < |ds| && 0 <= k < |ds| && j != k
      ensures ds[j].Obj() != ds[k].Obj()
    {
      ObjDistinct(ds[j], ds[k]);
    }
  }

  const QueuePrefix: string := "/queue/"

  /** One destination's `subscribe`. */
  method SubscribeDest(d: Dest, p: ProtoId, wire: Outbox)
    modifies d.Obj(), wire
    ensures d.QueueDest? ==>
      d.q.State() == QueueSubscribe(d.q.name, old(d.q.State()), p).0
      && wire.sent == old(wire.sent) + QueueSubscribe(d.q.name, old(d.q.State()), p).1
    ensures d.TopicDest? ==> d.t.subscribers == Added(old(d.t.subscribers), p) && d.t.id == old(d.t.id) && wire.sent == old(wire.sent)
  {
    match d
    case QueueDest(q) => q.Subscribe(p, wire);
    case TopicDest(t) => t.Subscribe(p);
  }

  /** One destination's `unsubscribe`. */
  method UnsubscribeDest(d: Dest, p: ProtoId)
    modifies d.Obj()
    ensures d.Subscribers() == Removed(old(d.Subscribers()), p)
    ensures d.QueueDest? ==> d.q.messages == old(d.q.messages) && d.q.id == old(d.q.id)
    ensures d.TopicDest? ==> d.t.id == old(d.t.id)
  {
    match d
    case QueueDest(q) => q.Unsubscribe(p);
    case TopicDest(t) => t.Unsubscribe(p);
  }

  /** `unsubscribe` from each destination of a list that names no destination twice. */
  method UnsubscribeAll(usersub: seq<Dest>, p: ProtoId)
    requires NoRepeats(usersub)
    modifies set d | d in usersub :: d.Obj()
    ensures forall d :: d in usersub ==>
      d.Subscribers() == Removed(old(d.Subscribers()), p) && (d.QueueDest? ==> d.q.messages == old(d.q.messages))
  {
    ObjsDistinct(usersub);
    for i := 0 to |usersub|
      invariant forall k :: 0 <= k < i ==> usersub[k].Subscribers() == Removed(old(usersub[k].Subscribers()), p)
      invariant forall k :: 0 <= k < i ==> usersub[k].QueueDest? ==> usersub[k].q.messages == old(usersub[k].q.messages)
      invariant forall k :: i <= k < |usersub| ==> unchanged(usersub[k].Obj())
    {
      UnsubscribeDest(usersub[i], p);
    }
  }

  class StompFactory {
    var destinations: map<string, Dest>
    var subscriptions: map<ProtoId, seq<Dest>>
    var id: nat

    /** Each destination is filed under its own name; no connection lists a destination twice. */
    ghost predicate Valid()
      reads this
    {
      && (forall n :: n in destinations ==> destinations[n].Name() == n)
      && (forall q :: q in subscriptions ==> NoRepeats(subscriptions[q]))
    }

    constructor ()
      ensures Valid() && destinations == map[] && subscriptions == map[] && id == 0
    {
      destinations, subscriptions, id := map[], map[], 0;
    }

    /** `connected`: the connection starts with no subscriptions. */
    method Connected(p: ProtoId)
      requires Valid()
      modifies this
      ensures Valid()
      ensures destinations == old(destinations) && subscriptions == old(subscriptions)[p := []] && id == old(id)
    {
      subscriptions := subscriptions[p := []];
    }

    /**
     * `subscribe`: create the destination if it is missing (a queue for a '/queue/' name,
     * a topic otherwise), subscribe the connection to it, and record it once in the
     * connection's list; a connection that never connected raises KeyError after the
     * destination has been subscribed to.
     */
    method Subscribe(p: ProtoId, name: string, wire: Outbox) returns (st: Status)
      requires Valid()
      modifies this, wire, if name in destinations then {destinations[name].Obj()} else {}
      ensures Valid() && id == old(id) && name in destinations
      ensures name in old(destinations) ==> destinations == old(destinations)
      ensures name !in old(destinations) ==>
        && destinations.Keys == old(destinations).Keys + {name}
        && (forall n :: n in old(destinations) ==> destinations[n] == old(destinations[n]))
        && fresh(destinations[name].Obj())
        && (destinations[name].QueueDest? <==> StartsWith(name, QueuePrefix))
        && destinations[name].Subscribers() == [p]
        && wire.sent == old(wire.sent)
        && (destinations[name].QueueDest? ==> destinations[name].q.State() == QueueState(0, [p], []))
        && (destinations[name].TopicDest? ==> destinations[name].t.id == 0)
      ensures name in old(destinations) && destinations[name].QueueDest? ==>
        var q := destinations[name].q;
        q.State() == QueueSubscribe(name, old(q.State()), p).0
        && wire.sent == old(wire.sent) + QueueSubscribe(name, old(q.State()), p).1
      ensures name in old(destinations) && destinations[name].TopicDest? ==>
        var t := destinations[name].t;
        t.subscribers == Added(old(t.subscribers), p) && t.id == old(t.id) && wire.sent == old(wire.sent)
      ensures p !in old(subscriptions) ==> st == Some(KeyError) && subscriptions == old(subscriptions)
      ensures p in old(subscriptions) ==>
        st.None? && subscriptions == old(subscriptions)[p := Added(old(subscriptions[p]), destinations[name])]
    {
      var dest := Resolve(name);
      if dest.QueueDest? {
        QueueSubscribeEmpty(name, p);
      }
      SubscribeDest(dest, p, wire);
      st := Record(p, dest);
    }

    /**
     * The lookup part of `subscribe`: the destination filed under the name, created (a
     * queue for a '/queue/' name, a topic otherwise) and filed when missing.
     */
    method Resolve(name: string) returns (dest: Dest)
      requires Valid()
      modifies this`destinations
      ensures Valid() && name in destinations && dest == destinations[name] && dest.Name() == name
      ensures name in old(destinations) ==> destinations == old(destinations)
      ensures name !in old(destinations) ==>
        && destinations == old(destinations)[name := dest]
        && fresh(dest.Obj())
        && (dest.QueueDest? <==> StartsWith(name, QueuePrefix))
        && (dest.QueueDest? ==> dest.q.State() == QueueState(0, [], []))
        && (dest.TopicDest? ==> dest.t.id == 0 && dest.t.subscribers == [])
    {
      if name in destinations {
        return destinations[name];
      }
      if StartsWith(name, QueuePrefix) {
        var q := new Queue(name);
        dest := QueueDest(q);
      } else {
        var t := new Topic(name);
        dest := TopicDest(t);
      }
      destinations := destinations[name := dest];
    }

    /** The bookkeeping part of `subscribe`: the destination joins the connection's list once; KeyError for an unknown connection. */
    method Record(p: ProtoId, dest: Dest) returns (st: Status)
      requires Valid()
      modifies this`subscriptions
      ensures Valid()
      ensures p !in old(subscriptions) ==> st == Some(KeyError) && subscriptions == old(subscriptions)
      ensures p in old(subscriptions) ==> st.None? && subscriptions == old(subscriptions)[p := Added(old(subscriptions[p]), dest)]
    {
      if p !in subscriptions {
        return Some(KeyError);
      }
      var usersub := subscriptions[p];
      AddedNoRepeats(usersub, dest);
      if dest !in usersub {
        usersub := usersub + [dest];
      }
      subscriptions := subscriptions[p := usersub];
      return None;
    }

    /**
     * `unsubscribe`: the connection leaves the named destination, which is deleted once
     * it is empty, and the destination leaves the connection's list; an unknown name
     * changes no destination.
     */
    method Unsubscribe(p: ProtoId, name: string) returns (st: Status)
      requires Valid()
      modifies this, if name in destinations then {destinations[name].Obj()} else {}
      ensures Valid() && id == old(id)
      ensures name !in old(destinations) ==> destinations == old(destinations)
      ensures name in old(destinations) ==>
        var d := old(destinations[name]);
        && d.Subscribers() == Removed(old(d.Subscribers()), p)
        && (d.QueueDest? ==> d.q.messages == old(d.q.messages) && d.q.id == old(d.q.id))
        && destinations == (if d.IsEmpty() then old(destinations) - {name} else old(destinations))
      ensures p !in old(subscriptions) ==> st == Some(KeyError) && subscriptions == old(subscriptions)
      ensures p in old(subscriptions) ==> st.None? && subscriptions == old(subscriptions)[p :=
        if name in old(destinations) then Removed(old(subscriptions[p]), old(destinations[name])) else old(subscriptions[p])]
    {
      var found := name in destinations;
      var dest: Dest;
      if found {
        dest := destinations[name];
        UnsubscribeDest(dest, p);
        var empty;
        match dest {
          case QueueDest(q) => empty := q.Empty();
          case TopicDest(t) => empty := t.Empty();
        }
        if empty {
          destinations := destinations - {name};
        }
      }
      if p !in subscriptions {
        return Some(KeyError);
      }
      var usersub := subscriptions[p];
      if found && dest in usersub {
        RemovedPresent(usersub, dest);
        usersub := Removed(usersub, dest);
      } else if found {
        RemovedAbsent(usersub, dest);
      }
      subscriptions := subscriptions[p := usersub];
      return None;
    }

    /**
     * `disconnected`: the connection leaves every destination in its list, none of which
     * is deleted, and its list is dropped; KeyError for a connection that never connected.
     */
    method Disconnected(p: ProtoId) returns (st: Status)
      requires Valid()
      modifies this, if p in subscriptions then set d | d in subscriptions[p] :: d.Obj() else {}
      ensures Valid() && destinations == old(destinations) && id == old(id)
      ensures p !in old(subscriptions) ==> st == Some(KeyError) && subscriptions == old(subscriptions)
      ensures p in old(subscriptions) ==> st.None? && subscriptions == old(subscriptions) - {p}
      ensures p in old(subscriptions) ==> forall d :: d in old(subscriptions[p]) ==>
        d.Subscribers() == Removed(old(d.Subscribers()), p) && (d.QueueDest? ==> d.q.messages == old(d.q.messages))
    {
      if p !in subscriptions {
        return Some(KeyError);
      }
      UnsubscribeAll(subscriptions[p], p);
      subscriptions := subscriptions - {p};
      return None;
    }

    /**
     * `send`: to the named destination; a missing '/queue/' name first gets a new queue,
     * which buffers the message; a missing topic name drops it.
     */
    method Send(name: string, body: string, headers: Headers, wire: Outbox)
      requires Valid()
      modifies this, wire, if name in destinations then {destinations[name].Obj()} else {}
      ensures Valid() && subscriptions == old(subscriptions) && id == old(id)
      ensures name in old(destinations) ==> destinations == old(destinations)
      ensures name in old(destinations) && destinations[name].QueueDest? ==>
        var q := destinations[name].q;
        q.State() == QueueSend(name, old(q.State()), Message(headers, body)).0
        && wire.sent == old(wire.sent) + QueueSend(name, old(q.State()), Message(headers, body)).1
      ensures name in old(destinations) && destinations[name].TopicDest? ==>
        var t := destinations[name].t;
        t.id == old(t.id) + 1 && t.subscribers == old(t.subscribers)
        && wire.sent == old(wire.sent) + Broadcast(t.subscribers, MessageFrame(name, t.id, Message(headers, body)))
      ensures name !in old(destinations) && StartsWith(name, QueuePrefix) ==>
        && destinations.Keys == old(destinations).Keys + {name}
        && (forall n :: n in old(destinations) ==> destinations[n] == old(destinations[n]))
        && destinations[name].QueueDest? && fresh(destinations[name].q)
        && destinations[name].q.State() == QueueState(0, [], [Message(headers, body)])
        && wire.sent == old(wire.sent)
      ensures name !in old(destinations) && !StartsWith(name, QueuePrefix) ==>
        destinations == old(destinations) && wire.sent == old(wire.sent)
    {
      if name !in destinations {
        if !StartsWith(name, QueuePrefix) {
          return;
        }
        var q := new Queue(name);
        destinations := destinations[name := QueueDest(q)];
      }
      match destinations[name]
      case QueueDest(q) => q.Send(headers, body, wire);
      case TopicDest(t) => t.Send(headers, body, wire);
    }
  }
}
