/** The publish/subscribe registry: a map from topic to the list of its
    consumers, in subscription order. Consumers are opaque callbacks; the
    model names each by an identifier and records every delivery, with
    whether the consumer accepted the payload or threw. */
module Observer {
  import opened Wrappers

  type ConsumerId = nat

  /** What `subscribe` returns: closing it unsubscribes this consumer from
      this topic. */
  datatype Handle = Handle(topic: string, consumer: ConsumerId)

  /** One call of a consumer: who, on which topic, with what, and whether
      the call returned normally. */
  datatype Delivery<P> = Delivery(consumer: ConsumerId, topic: string, payload: P, accepted: bool)

  /** `getOrDefault(topic, empty)`: the consumers of a topic. */
  function Listeners(subscribers: map<string, seq<ConsumerId>>, topic: string): seq<ConsumerId> {
    if topic in subscribers then subscribers[topic] else []
  }

  /** Index of the first occurrence of c, or -1 (`List.indexOf`). */
  function FirstIndex(s: seq<ConsumerId>, c: ConsumerId): (i: int)
    ensures -1 <= i < |s|
    ensures i == -1 <==> c !in s
    ensures 0 <= i ==> s[i] == c && c !in s[..i]
  {
    if |s| == 0 then -1
    else if s[0] == c then 0
    else
      var j := FirstIndex(s[1..], c);
      assert s == [s[0]] + s[1..];
      if j < 0 then -1
      else assert s[..j + 1] == [s[0]] + s[1..][..j]; j + 1
  }

  /** The list without the first occurrence of c (`List.remove(Object)`). */
  function RemoveFirst(s: seq<ConsumerId>, c: ConsumerId): seq<ConsumerId> {
    var i := FirstIndex(s, c);
    if i < 0 then s else s[..i] + s[i + 1..]
  }

  /** Removing takes exactly one copy of c out of the list when there is
      one, keeps the order of the rest, and otherwise changes nothing. */
  lemma RemoveFirstCount(s: seq<ConsumerId>, c: ConsumerId)
    ensures multiset(RemoveFirst(s, c)) == multiset(s) - multiset{c}
    ensures c !in s ==> RemoveFirst(s, c) == s
    ensures c in s ==> |RemoveFirst(s, c)| == |s| - 1
  {
    var i := FirstIndex(s, c);
    if i >= 0 {
      TakeOut(s, i);
    }
  }

  lemma TakeOut(s: seq<ConsumerId>, i: nat)
    requires i < |s|
    ensures multiset(s[..i] + s[i + 1..]) == multiset(s) - multiset{s[i]}
  {
    var a, b := s[..i], s[i + 1..];
    assert s == a + [s[i]] + b;
    assert multiset(s) == multiset(a) + multiset{s[i]} + multiset(b);
  }

  /** The registry after `subscribe(topic, c)`: c is appended to the
      topic's list, which is created when the topic has none. */
  function Subscribed(subscribers: map<string, seq<ConsumerId>>, topic: string, c: ConsumerId): map<string, seq<ConsumerId>> {
    subscribers[topic := Listeners(subscribers, topic) + [c]]
  }

  /** The registry after closing h: the first occurrence of its consumer
      leaves its topic's list; a topic without a list stays absent. */
  function Closed(subscribers: map<string, seq<ConsumerId>>, h: Handle): map<string, seq<ConsumerId>> {
    if h.topic in subscribers then subscribers[h.topic := RemoveFirst(subscribers[h.topic], h.consumer)]
    else subscribers
  }

  /** The calls `publish` makes: each listener once, in order. */
  function Fanout<P>(listeners: seq<ConsumerId>, topic: string, payload: P, throws: ConsumerId -> bool): (d: seq<Delivery<P>>)
    ensures |d| == |listeners|
  {
    seq(|listeners|, i requires 0 <= i < |listeners| => Delivery(listeners[i], topic, payload, !throws(listeners[i])))
  }

  function Receivers<P>(d: seq<Delivery<P>>): seq<ConsumerId> {
    seq(|d|, i requires 0 <= i < |d| => d[i].consumer)
  }

  /** Every listener receives the payload exactly once, in subscription
      order, whichever of them throw. */
  lemma FanoutReachesAll<P>(listeners: seq<ConsumerId>, topic: string, payload: P, throws: ConsumerId -> bool)
    ensures Receivers(Fanout(listeners, topic, payload, throws)) == listeners
    ensures forall k :: 0 <= k < |listeners| ==>
              Fanout(listeners, topic, payload, throws)[k].payload == payload
              && Fanout(listeners, topic, payload, throws)[k].topic == topic
  {
  }

  class EventBus<P> {
    var subscribers: map<string, seq<ConsumerId>>
    /** Every consumer call so far, in order. */
    var deliveries: seq<Delivery<P>>

    constructor ()
      ensures subscribers == map[] && deliveries == []
    {
      subscribers := map[];
      deliveries := [];
    }

    /** `subscribe`: a missing topic or consumer is rejected; otherwise the
        consumer is appended to the topic's list, which is created when the
        topic has none. */
    method Subscribe(topic: Option<string>, consumer: Option<ConsumerId>) returns (r: Result<Handle>)
      modifies this
      ensures topic.None? || consumer.None? ==> r == Err(NullPointer) && subscribers == old(subscribers)
      ensures topic.Some? && consumer.Some? ==>
                r == Ok(Handle(topic.value, consumer.value))
                && subscribers == Subscribed(old(subscribers), topic.value, consumer.value)
      ensures deliveries == old(deliveries)
    {
      if topic.None? || consumer.None? {
        return Err(NullPointer);
      }
      var t := topic.value;
      var list := if t in subscribers then subscribers[t] else [];
      subscribers := subscribers[t := list + [consumer.value]];
      return Ok(Handle(t, consumer.value));
    }

    /** Closing a handle (the lambda `subscribe` returns). */
    method Close(h: Handle)
      modifies this
      ensures subscribers == Closed(old(subscribers), h)
      ensures deliveries == old(deliveries)
    {
      if h.topic in subscribers {
        subscribers := subscribers[h.topic := RemoveFirst(subscribers[h.topic], h.consumer)];
      }
    }

    /** `publish`: nothing for a topic without a list; otherwise each
        consumer of the topic is called in turn, and one that throws does
        not stop the others. `throws` says which consumers throw. */
    method Publish(topic: string, payload: P, throws: ConsumerId -> bool)
      modifies this
      ensures subscribers == old(subscribers)
      ensures deliveries == old(deliveries) + Fanout(Listeners(subscribers, topic), topic, payload, throws)
    {
      if topic !in subscribers {
        return;
      }
      var consumers := subscribers[topic];
      var i := 0;
      while i < |consumers|
        invariant i <= |consumers| && subscribers == old(subscribers)
        invariant deliveries == old(deliveries) + Fanout(consumers[..i], topic, payload, throws)
      {
        var accepted := !throws(consumers[i]);
        deliveries := deliveries + [Delivery(consumers[i], topic, payload, accepted)];
        i := i + 1;
      }
      assert consumers[..i] == consumers;
    }
  }

  /** Closing a handle changes only its own topic, where it removes one
      occurrence of its consumer; a consumer no longer on the topic leaves
      the registry as it was, so a repeated close is harmless. */
  lemma CloseEffect(subscribers: map<string, seq<ConsumerId>>, h: Handle, other: string)
    ensures other != h.topic ==> Listeners(Closed(subscribers, h), other) == Listeners(subscribers, other)
    ensures multiset(Listeners(Closed(subscribers, h), h.topic)) == multiset(Listeners(subscribers, h.topic)) - multiset{h.consumer}
    ensures h.consumer !in Listeners(subscribers, h.topic) ==> Closed(subscribers, h) == subscribers
  {
    RemoveFirstCount(Listeners(subscribers, h.topic), h.consumer);
  }

  /** Subscribing a consumer that is not yet on the topic and closing its
      handle gives every topic its old listeners back. */
  lemma SubscribeThenClose(subscribers: map<string, seq<ConsumerId>>, topic: string, c: ConsumerId, other: string)
    requires c !in Listeners(subscribers, topic)
    ensures Listeners(Closed(Subscribed(subscribers, topic, c), Handle(topic, c)), other) == Listeners(subscribers, other)
  {
    var l := Listeners(subscribers, topic);
    assert (l + [c])[..|l|] == l;
    assert FirstIndex(l + [c], c) == |l|;
  }
}
