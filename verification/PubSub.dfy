/** The in-process publish/subscribe client (pubsub/local_pubsub.go): a table of subscriptions per
    topic, and one bounded channel per subscription that drops its oldest message when full. */
module PubSub {

  /** A channel is named by its subscription. */
  datatype Channel = Channel(topic: string, buffer: seq<string>, open: bool)

  /** `wedged`: a call has panicked with the client's lock held; every later call then waits for ever. */
  datatype State = State(bufferLength: int, topics: set<string>, subscriptions: map<string, set<nat>>,
                         channels: map<nat, Channel>, nextId: nat, closed: bool, wedged: bool)

  datatype Op =
    | CreateTopic(topic: string) | RemoveTopic(topic: string)
    | Subscribe(topic: string) | Unsubscribe(topic: string, id: nat)
    | Publish(topic: string, data: string)
    | Close
      /** A subscriber takes the next message from its channel. */
    | Receive(id: nat)

  function Initial(bufferLength: int): State {
    State(bufferLength, {}, map[], map[], 0, false, false)
  }

  function WithTopic(s: State, topic: string): State {
    if topic in s.topics then s else s.(topics := s.topics + {topic}, subscriptions := s.subscriptions[topic := {}])
  }

  function SubscribersOf(s: State, topic: string): set<nat> {
    if topic in s.subscriptions then s.subscriptions[topic] else {}
  }

  function ClosedOnes(channels: map<nat, Channel>, ids: set<nat>): map<nat, Channel> {
    map id | id in channels :: if id in ids then channels[id].(open := false) else channels[id]
  }

  function Pushed(c: Channel, bufferLength: int, data: string): Channel {
    c.(buffer := (if |c.buffer| == bufferLength && c.buffer != [] then c.buffer[1..] else c.buffer) + [data])
  }

  function PushedOnes(channels: map<nat, Channel>, ids: set<nat>, bufferLength: int, data: string): map<nat, Channel> {
    map id | id in channels :: if id in ids then Pushed(channels[id], bufferLength, data) else channels[id]
  }

  function Registered(s: State): set<nat> {
    set topic, id | topic in s.subscriptions && id in s.subscriptions[topic] :: id
  }

  function Next(s: State, op: Op): State {
    if op.Receive? then
      if op.id in s.channels && s.channels[op.id].buffer != [] then
        s.(channels := s.channels[op.id := s.channels[op.id].(buffer := s.channels[op.id].buffer[1..])])
      else s
    else if s.closed || s.wedged then s
    else
      match op
      case CreateTopic(topic) => WithTopic(s, topic)
      case RemoveTopic(topic) =>
        if topic !in s.topics then s
        else s.(channels := ClosedOnes(s.channels, SubscribersOf(s, topic)), subscriptions := s.subscriptions - {topic})
      case Subscribe(topic) =>
        var t := WithTopic(s, topic).(nextId := s.nextId + 1);
        if topic !in t.subscriptions then t.(wedged := true)
        else t.(channels := t.channels[s.nextId := Channel(topic, [], true)],
            subscriptions := t.subscriptions[topic := t.subscriptions[topic] + {s.nextId}])
      case Unsubscribe(topic, id) =>
        if topic !in s.topics || id !in SubscribersOf(s, topic) then s
        else s.(channels := ClosedOnes(s.channels, {id}),
            subscriptions := s.subscriptions[topic := s.subscriptions[topic] - {id}])
      case Publish(topic, data) =>
        var t := WithTopic(s, topic);
        t.(channels := PushedOnes(t.channels, SubscribersOf(t, topic), t.bufferLength, data))
      case Close =>
        s.(closed := true, channels := ClosedOnes(s.channels, Registered(s)), topics := {}, subscriptions := map[])
  }

  // ------------------------------------------------------------------
  // Lifecycle
  // ------------------------------------------------------------------

  /** A channel is open exactly while its subscription is registered, under its own topic. */
  ghost predicate Lifecycle(s: State) {
    && s.bufferLength > 0
    && s.subscriptions.Keys <= s.topics
    && (forall id :: id in s.channels ==> id < s.nextId && |s.channels[id].buffer| <= s.bufferLength)
    && (forall topic, id :: topic in s.subscriptions && id in s.subscriptions[topic] ==>
          id in s.channels && s.channels[id].open && s.channels[id].topic == topic)
    && (forall id :: id in s.channels && s.channels[id].open ==> id in SubscribersOf(s, s.channels[id].topic))
  }

  lemma NextKeepsLifecycle(s: State, op: Op)
    requires Lifecycle(s)
    ensures Lifecycle(Next(s, op))
  {
    match op
    case RemoveTopic(topic) => RemoveKeepsLifecycle(s, topic);
    case Close => CloseKeepsLifecycle(s);
    case Subscribe(topic) => SubscribeKeepsLifecycle(s, topic);
    case Unsubscribe(topic, id) => UnsubscribeKeepsLifecycle(s, topic, id);
    case CreateTopic(topic) => WithTopicKeepsLifecycle(s, topic);
    case Publish(topic, data) => PublishKeepsLifecycle(s, topic, data);
    case Receive(id) => ReceiveKeepsLifecycle(s, id);
  }

  lemma PublishKeepsLifecycle(s: State, topic: string, data: string)
    requires Lifecycle(s)
    ensures Lifecycle(Next(s, Publish(topic, data)))
  {
    var t := WithTopic(s, topic);
    WithTopicKeepsLifecycle(s, topic);
    hide WithTopic;
    if !s.closed && !s.wedged {
      var s' := Next(s, Publish(topic, data));
      assert forall id :: id in s'.channels <==> id in t.channels;
      assert forall id :: id in s'.channels ==>
               s'.channels[id].open == t.channels[id].open && s'.channels[id].topic == t.channels[id].topic;
    }
  }

  lemma ReceiveKeepsLifecycle(s: State, id: nat)
    requires Lifecycle(s)
    ensures Lifecycle(Next(s, Receive(id)))
  {
    var s' := Next(s, Receive(id));
    assert s'.channels.Keys == s.channels.Keys;
    forall k | k in s.channels
      ensures s'.channels[k].open == s.channels[k].open && s'.channels[k].topic == s.channels[k].topic
      ensures |s'.channels[k].buffer| <= |s.channels[k].buffer|
    {
    }
    hide Next;
  }

  lemma SubscribeKeepsLifecycle(s: State, topic: string)
    requires Lifecycle(s)
    ensures Lifecycle(Next(s, Subscribe(topic)))
  {
    WithTopicKeepsLifecycle(s, topic);
    var t, s' := WithTopic(s, topic), Next(s, Subscribe(topic));
    if !s.closed && !s.wedged && topic in t.subscriptions {
      var n := s.nextId;
      assert s'.subscriptions[topic] == t.subscriptions[topic] + {n} && s'.channels[n].open &&
               s'.channels[n].topic == topic;
      forall other, id | other in s'.subscriptions && id in s'.subscriptions[other]
        ensures id in s'.channels && s'.channels[id].open && s'.channels[id].topic == other
      {
        assert (other == topic && id == n) || (id in t.subscriptions[other] && id in t.channels && id != n);
      }
      forall id | id in s'.channels && s'.channels[id].open ensures id in SubscribersOf(s', s'.channels[id].topic) {
        assert id != n ==> id in t.channels && t.channels[id].open && id in SubscribersOf(t, t.channels[id].topic);
      }
    }
  }

  lemma WithTopicKeepsLifecycle(s: State, topic: string)
    requires Lifecycle(s)
    ensures Lifecycle(WithTopic(s, topic))
  {
  }

  lemma UnsubscribeKeepsLifecycle(s: State, topic: string, id: nat)
    requires Lifecycle(s)
    ensures Lifecycle(Next(s, Unsubscribe(topic, id)))
  {
  }

  lemma RemoveKeepsLifecycle(s: State, topic: string)
    requires Lifecycle(s)
    ensures Lifecycle(Next(s, RemoveTopic(topic)))
  {
    var s' := Next(s, RemoveTopic(topic));
    forall id | id in s'.channels && s'.channels[id].open ensures id in SubscribersOf(s', s'.channels[id].topic) {
      assert s.channels[id].open && id in SubscribersOf(s, s.channels[id].topic);
    }
  }

  lemma CloseKeepsLifecycle(s: State)
    requires Lifecycle(s)
    ensures Lifecycle(Next(s, Close))
  {
    forall id | id in s.channels && s.channels[id].open ensures id in Registered(s) {
      assert s.channels[id].topic in s.subscriptions && id in s.subscriptions[s.channels[id].topic];
    }
  }

  // ------------------------------------------------------------------
  // Delivery
  // ------------------------------------------------------------------

  /** What was published on a subscription's topic since it subscribed, and what its subscriber
      received, with the positions of these messages among the published ones. */
  datatype Record = Record(published: seq<string>, received: seq<string>, positions: seq<nat>)

  /** The records, and the topics that were removed. */
  datatype Journal = Journal(records: map<nat, Record>, removed: set<string>)

  function NextJournal(s: State, j: Journal, op: Op): Journal {
    if op.Receive? then
      if op.id in s.channels && s.channels[op.id].buffer != [] && op.id in j.records then
        var r := j.records[op.id];
        var position :=
          if |r.published| >= |s.channels[op.id].buffer| then |r.published| - |s.channels[op.id].buffer| else 0;
        j.(records := j.records[op.id := r.(received := r.received + [s.channels[op.id].buffer[0]],
            positions := r.positions + [position])])
      else j
    else if s.closed || s.wedged then j
    else
      match op
      case Subscribe(topic) =>
        if topic in j.removed then j else j.(records := j.records[s.nextId := Record([], [], [])])
      case RemoveTopic(topic) => if topic in s.topics then j.(removed := j.removed + {topic}) else j
      case Publish(topic, data) =>
        j.(records := map id | id in j.records ::
             if id in s.channels && s.channels[id].open &&
                 s.channels[id].topic == topic then
                 j.records[id].(published := j.records[id].published + [data])
               else j.records[id])
      case Close => j.(removed := {})
      case _ => j
  }

  /** One subscription: the channel is a suffix of what was published, the received messages are
      earlier ones in order, and of the last `bufferLength` messages none is missing. */
  ghost predicate Delivered(c: Channel, r: Record, bufferLength: int) {
    var n := |r.published|;
    && |c.buffer| <= bufferLength && |c.buffer| <= n && c.buffer == r.published[n - |c.buffer|..]
    && |r.received| == |r.positions|
    && (forall i :: 0 <= i < |r.positions| ==>
          r.positions[i] < n - |c.buffer| && r.received[i] == r.published[r.positions[i]])
    && (forall i, k :: 0 <= i < k < |r.positions| ==> r.positions[i] < r.positions[k])
    && (forall p: nat :: n - bufferLength <= p < n - |c.buffer| ==> p in r.positions)
  }

  ghost predicate Delivery(s: State, j: Journal) {
    && s.channels.Keys == j.records.Keys
    && j.removed == s.topics - s.subscriptions.Keys
    && forall id :: id in s.channels ==> Delivered(s.channels[id], j.records[id], s.bufferLength)
  }

  lemma PublishDelivers(c: Channel, r: Record, bufferLength: int, data: string)
    requires Delivered(c, r, bufferLength) && bufferLength > 0
    ensures Delivered(Pushed(c, bufferLength, data), r.(published := r.published + [data]), bufferLength)
  {
    var n := |r.published|;
    var published := r.published + [data];
    if |c.buffer| == bufferLength {
      assert published[n + 1 - bufferLength..] == r.published[n - bufferLength..][1..] + [data];
    } else {
      assert published[n - |c.buffer|..] == r.published[n - |c.buffer|..] + [data];
    }
  }

  lemma ReceiveDelivers(c: Channel, r: Record, bufferLength: int)
    requires Delivered(c, r, bufferLength) && c.buffer != []
    ensures var position := |r.published| - |c.buffer|;
            Delivered(c.(buffer := c.buffer[1..]),
                r.(received := r.received + [c.buffer[0]], positions := r.positions + [position]), bufferLength)
  {
    var position: nat := |r.published| - |c.buffer|;
    var positions := r.positions + [position];
    assert c.buffer[1..] == r.published[position + 1..];
    assert positions[|r.positions|] == position;
    forall p: nat | |r.published| - bufferLength <= p < position + 1 ensures p in positions {
      if p < position {
        assert p in r.positions;
      }
    }
  }

  lemma NextDelivers(s: State, j: Journal, op: Op)
    requires Lifecycle(s) && Delivery(s, j)
    ensures Delivery(Next(s, op), NextJournal(s, j, op))
  {
    hide Delivered;
    match op
    case Receive(id) =>
      if id in s.channels && s.channels[id].buffer != [] {
        ReceiveDelivers(s.channels[id], j.records[id], s.bufferLength);
        DeliveredBounds(s.channels[id], j.records[id], s.bufferLength);
      }
    case Publish(topic, data) =>
      if !s.closed && !s.wedged {
        PublishKeepsDelivery(s, j, topic, data);
      }
    case Subscribe(topic) =>
      DeliveredAtFirst(topic, s.bufferLength);
    case RemoveTopic(topic) => CloseDeliversNothing(s, j, SubscribersOf(s, topic));
    case Unsubscribe(topic, id) => CloseDeliversNothing(s, j, {id});
    case Close => CloseDeliversNothing(s, j, Registered(s));
    case CreateTopic(topic) =>
  }

  lemma DeliveredAtFirst(topic: string, bufferLength: int)
    requires bufferLength > 0
    ensures Delivered(Channel(topic, [], true), Record([], [], []), bufferLength)
  {
  }

  lemma DeliveredBounds(c: Channel, r: Record, bufferLength: int)
    requires Delivered(c, r, bufferLength)
    ensures |c.buffer| <= |r.published|
  {
  }

  lemma CloseDeliversNothing(s: State, j: Journal, ids: set<nat>)
    requires Delivery(s, j)
    ensures forall id :: id in s.channels ==> Delivered(ClosedOnes(s.channels, ids)[id], j.records[id], s.bufferLength)
  {
    forall id | id in s.channels ensures Delivered(ClosedOnes(s.channels, ids)[id], j.records[id], s.bufferLength) {
      assert Delivered(s.channels[id], j.records[id], s.bufferLength);
    }
  }

  lemma PublishKeepsDelivery(s: State, j: Journal, topic: string, data: string)
    requires Lifecycle(s) && Delivery(s, j) && !s.closed && !s.wedged
    ensures Delivery(Next(s, Publish(topic, data)), NextJournal(s, j, Publish(topic, data)))
  {
    hide Delivered, Pushed;
    var t := WithTopic(s, topic);
    forall id | id in s.channels
      ensures id in SubscribersOf(t, topic) <==> s.channels[id].open && s.channels[id].topic == topic
      ensures Delivered(Pushed(s.channels[id], s.bufferLength, data),
                j.records[id].(published := j.records[id].published + [data]), s.bufferLength)
    {
      PublishDelivers(s.channels[id], j.records[id], s.bufferLength, data);
    }
  }

  // ------------------------------------------------------------------
  // Whole runs
  // ------------------------------------------------------------------

  function Run(s: State, ops: seq<Op>): State
    decreases |ops|
  {
    if ops == [] then s else Run(Next(s, ops[0]), ops[1..])
  }

  function RunJournal(s: State, j: Journal, ops: seq<Op>): Journal
    decreases |ops|
  {
    if ops == [] then j else RunJournal(Next(s, ops[0]), NextJournal(s, j, ops[0]), ops[1..])
  }

  lemma {:induction false} RunKeeps(s: State, j: Journal, ops: seq<Op>)
    requires Lifecycle(s) && Delivery(s, j)
    ensures Lifecycle(Run(s, ops)) && Delivery(Run(s, ops), RunJournal(s, j, ops))
    decreases |ops|
  {
    hide Lifecycle, Delivery, Next, NextJournal;
    if ops != [] {
      NextKeepsLifecycle(s, ops[0]);
      NextDelivers(s, j, ops[0]);
      RunKeeps(Next(s, ops[0]), NextJournal(s, j, ops[0]), ops[1..]);
    }
  }

  /** Over every run of a new client, whatever its calls: channels and deliveries are as promised. */
  lemma EveryRunDelivers(bufferLength: int, ops: seq<Op>)
    requires bufferLength > 0
    ensures var s, j := Run(Initial(bufferLength), ops), RunJournal(Initial(bufferLength), Journal(map[], {}), ops);
            Lifecycle(s) && Delivery(s, j)
  {
    RunKeeps(Initial(bufferLength), Journal(map[], {}), ops);
  }

  /** Subscribing blocks the client for ever exactly when the topic was removed before: it stays in
      the topic set without a table, and no call gives it one. */
  lemma SubscribeWedgesIffRemoved(bufferLength: int, ops: seq<Op>, topic: string)
    requires bufferLength > 0
    ensures var s, j := Run(Initial(bufferLength), ops), RunJournal(Initial(bufferLength), Journal(map[], {}), ops);
            !s.closed && !s.wedged ==> (Next(s, Subscribe(topic)).wedged <==> topic in j.removed)
  {
    EveryRunDelivers(bufferLength, ops);
  }

  /** Closed for good: never open or registered again, and what its subscriber can still receive is the
      rest of what was waiting. */
  ghost predicate Ended(s: State, id: nat, waiting: seq<string>) {
    && id in s.channels && !s.channels[id].open
    && (forall topic :: topic in s.subscriptions ==> id !in s.subscriptions[topic])
    && IsTail(s.channels[id].buffer, waiting)
  }

  ghost predicate IsTail(rest: seq<string>, all: seq<string>) {
    exists k: nat :: k <= |all| && rest == all[k..]
  }

  lemma TailShrinks(rest: seq<string>, all: seq<string>)
    requires IsTail(rest, all) && rest != []
    ensures IsTail(rest[1..], all)
  {
    var k: nat :| k <= |all| && rest == all[k..];
    assert rest[1..] == all[k + 1..];
  }

  /** A step leaves a closed channel as it is, but for what its subscriber takes. */
  lemma ClosedChannelStays(s: State, op: Op, id: nat)
    requires Lifecycle(s) && id in s.channels && !s.channels[id].open
    ensures var s', c := Next(s, op), s.channels[id];
            id in s'.channels &&
            s'.channels[id] == if op == Receive(id) && c.buffer != [] then c.(buffer := c.buffer[1..]) else c
  {
    assert forall topic :: topic in s.subscriptions ==> id !in s.subscriptions[topic];
    assert id < s.nextId && id !in Registered(s);
    hide Lifecycle;
    match op
    case Receive(_) =>
    case CreateTopic(_) =>
    case RemoveTopic(_) =>
    case Subscribe(_) =>
    case Unsubscribe(_, _) =>
    case Publish(_, _) =>
    case Close =>
  }

  lemma UnregisteredStays(s: State, op: Op, id: nat)
    requires id < s.nextId && forall topic :: topic in s.subscriptions ==> id !in s.subscriptions[topic]
    ensures forall topic :: topic in Next(s, op).subscriptions ==> id !in Next(s, op).subscriptions[topic]
  {
  }

  lemma NextKeepsEnded(s: State, op: Op, id: nat, waiting: seq<string>)
    requires Lifecycle(s) && Ended(s, id, waiting)
    ensures Ended(Next(s, op), id, waiting)
  {
    var c := s.channels[id];
    ClosedChannelStays(s, op, id);
    UnregisteredStays(s, op, id);
    hide Next, Lifecycle, IsTail;
    if c.buffer != [] {
      TailShrinks(c.buffer, waiting);
    }
  }

  lemma {:induction false} RunKeepsEnded(s: State, ops: seq<Op>, id: nat, waiting: seq<string>)
    requires Lifecycle(s) && Ended(s, id, waiting)
    ensures Ended(Run(s, ops), id, waiting)
    decreases |ops|
  {
    hide Lifecycle, Next, Ended;
    if ops != [] {
      NextKeepsLifecycle(s, ops[0]);
      NextKeepsEnded(s, ops[0], id, waiting);
      RunKeepsEnded(Next(s, ops[0]), ops[1..], id, waiting);
    }
  }

  /** Unsubscribing, removing the topic and closing the client end a subscription for good: over every
      run that follows, its subscriber receives nothing that was published later. */
  lemma EndedForGood(s: State, op: Op, ops: seq<Op>, topic: string, id: nat)
    requires Lifecycle(s) && !s.closed && !s.wedged && topic in s.subscriptions && id in s.subscriptions[topic]
    requires op == Unsubscribe(topic, id) || op == RemoveTopic(topic) || op == Close
    ensures Ended(Run(Next(s, op), ops), id, s.channels[id].buffer)
  {
    var s', waiting := Next(s, op), s.channels[id].buffer;
    assert id in Registered(s) && waiting[0..] == waiting;
    forall other | other in s'.subscriptions ensures id !in s'.subscriptions[other] {
      assert id in s.subscriptions[other] ==> s.channels[id].topic == other;
    }
    assert s'.channels[id].buffer == waiting[0..];
    NextKeepsLifecycle(s, op);
    RunKeepsEnded(s', ops, id, waiting);
  }

  // ------------------------------------------------------------------
  // The client
  // ------------------------------------------------------------------

  class LocalPubSub {
    const bufferLength: int
    var topics: set<string>
    var subscriptions: map<string, set<nat>>
    var channels: map<nat, Channel>
    var nextId: nat
    var closed: bool
    var wedged: bool

    ghost function Abs(): State reads this {
      State(bufferLength, topics, subscriptions, channels, nextId, closed, wedged)
    }

    constructor (bufferLength: int)
      requires bufferLength > 0
      ensures Abs() == Initial(bufferLength) && Lifecycle(Abs())
    {
      this.bufferLength := bufferLength;
      topics, subscriptions, channels, nextId, closed, wedged := {}, map[], map[], 0, false, false;
    }

    /** Closing a closed channel would panic. */
    method CloseChannels(ids: set<nat>)
      requires forall id :: id in ids ==> id in channels && channels[id].open
      modifies this`channels
      ensures channels == ClosedOnes(old(channels), ids)
    {
      var remaining := ids;
      while remaining != {}
        invariant remaining <= ids && channels == ClosedOnes(old(channels), ids - remaining)
      {
        var id :| id in remaining;
        assert channels[id].open;
        channels := channels[id := channels[id].(open := false)];
        remaining := remaining - {id};
      }
      assert ids - {} == ids;
    }

    method AddTopic(topic: string)
      modifies this`topics, this`subscriptions
      ensures Abs() == WithTopic(old(Abs()), topic)
    {
      if topic !in topics {
        topics, subscriptions := topics + {topic}, subscriptions[topic := {}];
      }
    }

    method CreateTopic(topic: string) returns (ok: bool)
      requires Lifecycle(Abs()) && !wedged
      modifies this
      ensures Abs() == Next(old(Abs()), Op.CreateTopic(topic)) && Lifecycle(Abs()) && (ok <==> !old(closed))
      ensures ok ==> topics == old(topics) + {topic} && channels == old(channels)
      ensures subscriptions ==
                if ok && topic !in old(topics) then old(subscriptions)[topic := {}] else old(subscriptions)
    {
      NextKeepsLifecycle(Abs(), Op.CreateTopic(topic));
      if closed {
        return false;
      }
      AddTopic(topic);
      return true;
    }

    method RemoveTopic(topic: string) returns (ok: bool)
      requires Lifecycle(Abs()) && !wedged
      modifies this
      ensures Abs() == Next(old(Abs()), Op.RemoveTopic(topic)) && Lifecycle(Abs()) && (ok <==> !old(closed))
      ensures topics == old(topics) && (ok ==> subscriptions == old(subscriptions) - {topic})
      ensures forall id :: id in old(channels) ==>
                id in channels &&
                channels[id] == old(channels[id]).(open := old(channels[id]).open &&
                                                         (ok ==> old(channels[id]).topic != topic))
    {
      NextKeepsLifecycle(Abs(), Op.RemoveTopic(topic));
      if closed {
        return false;
      }
      if topic !in topics {
        return true;
      }
      CloseChannels(if topic in subscriptions then subscriptions[topic] else {});
      subscriptions := subscriptions - {topic};
      return true;
    }

    /** Without a table for the topic the call panics with the lock held, and there is no answer. */
    method Subscribe(topic: string) returns (ok: bool, id: nat)
      requires Lifecycle(Abs()) && !wedged
      modifies this
      ensures Abs() == Next(old(Abs()), Op.Subscribe(topic)) && Lifecycle(Abs())
      ensures ok <==> !old(closed) && (topic in old(topics) ==> topic in old(subscriptions))
      ensures ok ==>
                id !in old(channels) && id in channels && channels[id] == Channel(topic, [], true) &&
                id in subscriptions[topic]
    {
      NextKeepsLifecycle(Abs(), Op.Subscribe(topic));
      if closed {
        return false, 0;
      }
      AddTopic(topic);
      id, nextId := nextId, nextId + 1;
      if topic !in subscriptions {
        wedged := true;
        return false, id;
      }
      channels := channels[id := Channel(topic, [], true)];
      subscriptions := subscriptions[topic := subscriptions[topic] + {id}];
      return true, id;
    }

    method Unsubscribe(topic: string, id: nat) returns (ok: bool)
      requires Lifecycle(Abs()) && !wedged
      modifies this
      ensures Abs() == Next(old(Abs()), Op.Unsubscribe(topic, id)) && Lifecycle(Abs()) && (ok <==> !old(closed))
      ensures ok && topic in subscriptions ==> id !in subscriptions[topic]
      ensures if ok && topic in old(subscriptions) && id in old(subscriptions)[topic] then
                && subscriptions == old(subscriptions)[topic := old(subscriptions)[topic] - {id}]
                && channels == old(channels)[id := old(channels)[id].(open := false)]
              else subscriptions == old(subscriptions) && channels == old(channels)
    {
      NextKeepsLifecycle(Abs(), Op.Unsubscribe(topic, id));
      if closed {
        return false;
      }
      if topic !in topics || topic !in subscriptions || id !in subscriptions[topic] {
        return true;
      }
      CloseChannels({id});
      subscriptions := subscriptions[topic := subscriptions[topic] - {id}];
      return true;
    }

    /** Sending to a closed channel would panic, and to a full one would block. */
    method Send(id: nat, data: string)
      requires id in channels && channels[id].open && |channels[id].buffer| < bufferLength
      modifies this`channels
      ensures channels == old(channels)[id := old(channels[id]).(buffer := old(channels[id]).buffer + [data])]
    {
      channels := channels[id := channels[id].(buffer := channels[id].buffer + [data])];
    }

    method Publish(topic: string, data: string) returns (ok: bool)
      requires Lifecycle(Abs()) && !wedged
      modifies this
      ensures Abs() == Next(old(Abs()), Op.Publish(topic, data)) && Lifecycle(Abs()) && (ok <==> !old(closed))
      // Exactly the open channels of the topic get the message, at the end; a full one loses its first.
      ensures forall id :: id in old(channels) ==>
                var c := old(channels)[id];
                && id in channels
                && channels[id] ==
                     if ok && c.open && c.topic == topic then
                       c.(buffer := (if |c.buffer| == bufferLength then c.buffer[1..] else c.buffer) + [data])
                     else c
    {
      NextKeepsLifecycle(Abs(), Op.Publish(topic, data));
      if closed {
        return false;
      }
      AddTopic(topic);
      PublishTo(if topic in subscriptions then subscriptions[topic] else {}, data);
      return true;
    }

    /** The loop over the subscriptions, in any order. */
    method PublishTo(ids: set<nat>, data: string)
      requires bufferLength > 0
      requires forall id :: id in ids ==> id in channels && channels[id].open && |channels[id].buffer| <= bufferLength
      modifies this`channels
      ensures channels == PushedOnes(old(channels), ids, bufferLength, data)
    {
      var remaining := ids;
      while remaining != {}
        invariant remaining <= ids && channels == PushedOnes(old(channels), ids - remaining, bufferLength, data)
      {
        var id :| id in remaining;
        assert channels[id] == old(channels)[id];
        if |channels[id].buffer| == bufferLength {
          channels := channels[id := channels[id].(buffer := channels[id].buffer[1..])];
        }
        Send(id, data);
        remaining := remaining - {id};
      }
      assert ids - {} == ids;
    }

    method CloseClient()
      requires Lifecycle(Abs()) && !wedged
      modifies this
      ensures Abs() == Next(old(Abs()), Op.Close) && Lifecycle(Abs()) && closed
      ensures !old(closed) ==>
                topics == {} && subscriptions == map[] && forall id :: id in channels ==> !channels[id].open
      ensures channels.Keys == old(channels).Keys
      ensures forall id :: id in channels ==> channels[id].buffer == old(channels)[id].buffer
    {
      NextKeepsLifecycle(Abs(), Op.Close);
      if closed {
        return;
      }
      closed := true;
      CloseChannels(set topic, id | topic in subscriptions && id in subscriptions[topic] :: id);
      topics, subscriptions := {}, map[];
    }

    /** A subscriber takes a message; None when the channel is empty. */
    method Receive(id: nat) returns (got: bool, message: string)
      requires id in channels
      modifies this`channels
      ensures Abs() == Next(old(Abs()), Op.Receive(id))
      ensures got <==> old(channels[id]).buffer != []
      ensures got ==> message == old(channels[id]).buffer[0]
    {
      if channels[id].buffer == [] {
        return false, "";
      }
      message := channels[id].buffer[0];
      channels := channels[id := channels[id].(buffer := channels[id].buffer[1..])];
      return true, message;
    }
  }
}
