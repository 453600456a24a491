/** The in-memory topic broker of intake/pubsub.go as a pure state machine.
    A subscriber's channel is a `Queue`: the messages sent into it, in order,
    and whether it is still open. Channel capacity, blocking sends and the
    read/write lock are not modelled; every transition is atomic. */
module PubSub {

  newtype Byte = x: int | 0 <= x < 256

  type Topic = string

  /** One request body, already inflated. */
  type Message = seq<Byte>

  /** A subscriber channel: everything ever sent into it, and its open bit. */
  datatype Queue = Queue(msgs: seq<Message>, open: bool)

  /** The broker: topic -> subscriber channels in subscription order, plus
      the `closed` flag. */
  datatype Broker = Broker(subscribers: map<Topic, seq<Queue>>, closed: bool)

  /** What `Subscribe` hands back: the topic and the position of the new
      channel in that topic's list. */
  datatype Handle = Handle(topic: Topic, index: nat)

  /** Reading a missing key of a Go map yields the nil slice. */
  function Subscribers(b: Broker, t: Topic): seq<Queue> {
    if t in b.subscribers then b.subscribers[t] else []
  }

  predicate ValidHandle(b: Broker, h: Handle) {
    h.index < |Subscribers(b, h.topic)|
  }

  function QueueOf(b: Broker, h: Handle): Queue
    requires ValidHandle(b, h)
  {
    Subscribers(b, h.topic)[h.index]
  }

  /** NewPubsub: an empty registry, not closed. */
  function NewPubsub(): (b: Broker)
    ensures !b.closed
    ensures forall t :: Subscribers(b, t) == []
  {
    Broker(map[], false)
  }

  /** Subscribe appends one fresh, empty, open channel to the end of the
      topic's list. It does not look at `closed`. */
  function Subscribe(b: Broker, t: Topic): (r: (Broker, Handle))
    ensures r.1 == Handle(t, |Subscribers(b, t)|)
    ensures Subscribers(r.0, t) == Subscribers(b, t) + [Queue([], true)]
    ensures ValidHandle(r.0, r.1) && QueueOf(r.0, r.1) == Queue([], true)
    ensures forall u :: u != t ==> Subscribers(r.0, u) == Subscribers(b, u)
    ensures r.0.closed == b.closed
  {
    var qs := Subscribers(b, t);
    (b.(subscribers := b.subscribers[t := qs + [Queue([], true)]]), Handle(t, |qs|))
  }

  /** The effect of one `ch <- msg` on every channel of a list. */
  function SendAll(qs: seq<Queue>, m: Message): (r: seq<Queue>)
    ensures |r| == |qs|
    ensures forall i :: 0 <= i < |qs| ==> r[i].msgs == qs[i].msgs + [m] && r[i].open == qs[i].open
  {
    if |qs| == 0 then [] else [qs[0].(msgs := qs[0].msgs + [m])] + SendAll(qs[1..], m)
  }

  /** Publish is a no-op on a closed broker and on a topic without
      subscribers; otherwise it appends `m` once to every channel of `t`. */
  function Publish(b: Broker, t: Topic, m: Message): (r: Broker)
    ensures b.closed ==> r == b
    ensures Subscribers(b, t) == [] ==> r == b
    ensures r.closed == b.closed
    ensures forall u :: u != t ==> Subscribers(r, u) == Subscribers(b, u)
    ensures |Subscribers(r, t)| == |Subscribers(b, t)|
    ensures !b.closed ==> forall i :: 0 <= i < |Subscribers(b, t)| ==>
      Subscribers(r, t)[i] == Subscribers(b, t)[i].(msgs := Subscribers(b, t)[i].msgs + [m])
  {
    if b.closed || t !in b.subscribers then b
    else b.(subscribers := b.subscribers[t := SendAll(b.subscribers[t], m)])
  }

  function CloseAll(qs: seq<Queue>): (r: seq<Queue>)
    ensures |r| == |qs|
    ensures forall i :: 0 <= i < |qs| ==> r[i] == Queue(qs[i].msgs, false)
  {
    if |qs| == 0 then [] else [Queue(qs[0].msgs, false)] + CloseAll(qs[1..])
  }

  /** Close is a no-op on a closed broker; otherwise it sets `closed` and
      closes every channel that exists at that moment, keeping what was
      already sent into it. */
  function Close(b: Broker): (r: Broker)
    ensures b.closed ==> r == b
    ensures r.closed
    ensures r.subscribers.Keys == b.subscribers.Keys
    ensures forall t :: |Subscribers(r, t)| == |Subscribers(b, t)|
    ensures !b.closed ==> forall t, i :: 0 <= i < |Subscribers(b, t)| ==>
      Subscribers(r, t)[i] == Queue(Subscribers(b, t)[i].msgs, false)
  {
    if b.closed then b
    else Broker(map t | t in b.subscribers :: CloseAll(b.subscribers[t]), true)
  }

  /** One call on the broker, as issued by the gateway or a plugin. */
  datatype Op = Sub(topic: Topic) | Pub(topic: Topic, msg: Message) | Shut

  function Step(b: Broker, op: Op): Broker {
    match op
    case Sub(t) => Subscribe(b, t).0
    case Pub(t, m) => Publish(b, t, m)
    case Shut => Close(b)
  }

  function Run(b: Broker, ops: seq<Op>): Broker
    decreases |ops|
  {
    if |ops| == 0 then b else Run(Step(b, ops[0]), ops[1..])
  }

  /** The messages a channel that is open before `ops` receives: those
      published to its topic before the first `Close`. */
  function Delivered(ops: seq<Op>, t: Topic): seq<Message>
    decreases |ops|
  {
    if |ops| == 0 then []
    else match ops[0]
      case Sub(_) => Delivered(ops[1..], t)
      case Pub(u, m) => (if u == t then [m] else []) + Delivered(ops[1..], t)
      case Shut => []
  }

  /** While the broker is open, every channel is open. Go panics on a send to
      a closed channel and on closing a closed channel; this invariant is
      what rules both out. */
  ghost predicate Inv(b: Broker) {
    !b.closed ==> forall t, i :: 0 <= i < |Subscribers(b, t)| ==> Subscribers(b, t)[i].open
  }

  /** Publish would send into a closed channel. */
  predicate SendsOnClosedChannel(b: Broker, t: Topic) {
    !b.closed && exists i :: 0 <= i < |Subscribers(b, t)| && !Subscribers(b, t)[i].open
  }

  /** Close would close an already closed channel. */
  predicate ClosesClosedChannel(b: Broker) {
    !b.closed && exists t, i | t in b.subscribers && 0 <= i < |b.subscribers[t]| :: !b.subscribers[t][i].open
  }

  lemma StepKeepsInv(b: Broker, op: Op)
    requires Inv(b)
    ensures Inv(Step(b, op))
  {
    match op
    case Sub(t) =>
      var r := Step(b, op);
      if !r.closed {
        forall u, i | 0 <= i < |Subscribers(r, u)|
          ensures Subscribers(r, u)[i].open
        {
          if u == t && i == |Subscribers(b, t)| {
            assert Subscribers(r, u)[i] == Queue([], true);
          } else if u == t {
            assert Subscribers(r, t)[..|Subscribers(b, t)|][i] == Subscribers(b, t)[i];
          }
        }
      }
    case Pub(t, m) =>
    case Shut =>
  }

  /** Every state reachable from `NewPubsub` keeps the invariant, so no
      sequence of calls makes `Publish` or `Close` panic. */
  lemma {:induction false} RunKeepsInv(b: Broker, ops: seq<Op>)
    requires Inv(b)
    ensures Inv(Run(b, ops))
    decreases |ops|
  {
    if |ops| > 0 {
      StepKeepsInv(b, ops[0]);
      RunKeepsInv(Step(b, ops[0]), ops[1..]);
    }
  }

  lemma ReachableNeverPanics(ops: seq<Op>, t: Topic)
    ensures !SendsOnClosedChannel(Run(NewPubsub(), ops), t)
    ensures !ClosesClosedChannel(Run(NewPubsub(), ops))
  {
    var r := Run(NewPubsub(), ops);
    RunKeepsInv(NewPubsub(), ops);
    if !r.closed {
      forall u, i | u in r.subscribers && 0 <= i < |r.subscribers[u]|
        ensures r.subscribers[u][i].open
      {
        assert Subscribers(r, u) == r.subscribers[u];
      }
    }
  }

  /** Close is idempotent. */
  lemma CloseIdempotent(b: Broker)
    ensures Close(Close(b)) == Close(b)
  {
  }

  /** Once closed, Publish delivers nothing to anybody. */
  lemma PublishAfterCloseDeliversNothing(b: Broker, t: Topic, m: Message)
    ensures Publish(Close(b), t, m) == Close(b)
  {
  }

  /** FIFO fan-out: a channel open before `ops` ends up with exactly the
      messages published to its topic until the first `Close`, in publish
      order, after what it already held. Later subscriptions do not disturb
      it. */
  lemma {:induction false} FifoDelivery(b: Broker, h: Handle, ops: seq<Op>)
    requires !b.closed && ValidHandle(b, h)
    ensures ValidHandle(Run(b, ops), h)
    ensures QueueOf(Run(b, ops), h).msgs == QueueOf(b, h).msgs + Delivered(ops, h.topic)
    decreases |ops|
  {
    if |ops| > 0 {
      var b' := Step(b, ops[0]);
      match ops[0]
      case Sub(u) =>
        SubscribeKeepsQueue(b, h, u);
        FifoDelivery(b', h, ops[1..]);
      case Pub(u, m) =>
        PublishExtendsQueue(b, h, u, m);
        FifoDelivery(b', h, ops[1..]);
      case Shut =>
        ClosedFreezesMessages(b', h, ops[1..]);
    }
  }

  /** A subscription leaves every existing channel as it was. */
  lemma SubscribeKeepsQueue(b: Broker, h: Handle, u: Topic)
    requires ValidHandle(b, h)
    ensures ValidHandle(Subscribe(b, u).0, h) && QueueOf(Subscribe(b, u).0, h) == QueueOf(b, h)
  {
    var b' := Subscribe(b, u).0;
    if u == h.topic {
      assert Subscribers(b', u)[..|Subscribers(b, u)|][h.index] == Subscribers(b, u)[h.index];
    }
  }

  /** On an open broker a publish to a channel's topic appends to it, and a
      publish elsewhere leaves it alone. */
  lemma PublishExtendsQueue(b: Broker, h: Handle, u: Topic, m: Message)
    requires !b.closed && ValidHandle(b, h)
    ensures ValidHandle(Publish(b, u, m), h)
    ensures QueueOf(Publish(b, u, m), h).msgs == QueueOf(b, h).msgs + (if u == h.topic then [m] else [])
    ensures !Publish(b, u, m).closed
  {
  }

  /** After the broker is closed, no channel receives anything more and no
      channel changes its open bit: a channel subscribed after `Close`
      stays open for ever. */
  lemma {:induction false} ClosedFreezesMessages(b: Broker, h: Handle, ops: seq<Op>)
    requires b.closed && ValidHandle(b, h)
    ensures ValidHandle(Run(b, ops), h)
    ensures QueueOf(Run(b, ops), h) == QueueOf(b, h)
    decreases |ops|
  {
    if |ops| > 0 {
      var b' := Step(b, ops[0]);
      assert QueueOf(b', h) == QueueOf(b, h) by {
        if ops[0].Sub? && ops[0].topic == h.topic {
          assert Subscribers(b', h.topic)[..|Subscribers(b, h.topic)|][h.index]
              == Subscribers(b, h.topic)[h.index];
        }
      }
      ClosedFreezesMessages(b', h, ops[1..]);
    }
  }

  /** A subscription taken after `Close` is open, empty, and stays so
      whatever happens next. */
  lemma SubscribeAfterClose(b: Broker, t: Topic, ops: seq<Op>)
    requires b.closed
    ensures var (b', h) := Subscribe(b, t);
      ValidHandle(Run(b', ops), h) && QueueOf(Run(b', ops), h) == Queue([], true)
  {
    var (b', h) := Subscribe(b, t);
    ClosedFreezesMessages(b', h, ops);
  }
}
