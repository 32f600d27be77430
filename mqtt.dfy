/** The MQTT connection-liveness manager (src/mqtt.cpp): the module-level
    state mqLast, mqPing, mqTopic and mqTopicLen, the tick supervisor, the
    connect and message handlers, and topic-root management. Transport calls
    are recorded, in order, in an action log; the clock, Wi-Fi status and the
    transport's connected() status are inputs to each step. */
module Mqtt {
  import opened Liveness
  import opened Topics

  /** A call into the transport. */
  datatype Action =
    | Disconnect
    | Connect
    | Subscribe(topic: string, qos: nat)
    | Unsubscribe(topic: string)
    | Publish(topic: string, qos: nat, retain: bool)

  /** The transport calls a tick issues in the branch it takes, under a root:
      a reconnect is always disconnect-then-connect, a heartbeat is one QoS 0,
      non-retained publish on the heartbeat topic, and nothing else issues
      anything. */
  function Issued(b: Branch, root: string): (acts: seq<Action>)
  {
    match b
    case Retry | Dead => [Disconnect, Connect]
    case SendPing => [Publish(PingTopic(root), 0, false)]
    case _ => []
  }

  class ConnectionManager {
    var last: U32               // mqLast
    var ping: U32               // mqPing
    var topic: string           // mqTopic
    var topicLen: int           // mqTopicLen
    var actions: seq<Action>    // transport calls issued so far

    /** mqTopicLen is strlen(mqTopic), and mqTopic fits its 65-byte buffer. */
    ghost predicate Valid()
      reads this
    {
      topicLen == |topic| && |topic| <= MaxTopicLen
    }

    /** The state at program start: every timer 0, no root, no calls yet. */
    constructor ()
      ensures Valid()
      ensures last == 0 && ping == 0 && topic == [] && actions == []
    {
      last, ping := 0, 0;
      topic, topicLen := [], 0;
      actions := [];
    }

    /** mqttSubPing: subscribe to our own heartbeat topic at QoS 0. */
    method SubPing()
      requires Valid()
      modifies this`actions
      ensures Valid()
      ensures actions == old(actions) + [Subscribe(PingTopic(topic), 0)]
      ensures Fits(PingTopic(topic), SubscribeBufferSize)
    {
      PingTopicFitsSubscribeBuffer(topic);
      actions := actions + [Subscribe(topic + PingSuffix, 0)];
    }

    /** onMqttConnect: a fresh connection counts as a sign of life, and the
        heartbeat subscription is (re)established. */
    method OnConnect(now: U32)
      requires Valid()
      modifies this`last, this`actions
      ensures Valid()
      ensures last == now
      ensures actions == old(actions) + [Subscribe(PingTopic(topic), 0)]
    {
      last := now;
      SubPing();
    }

    /** onMqttMessage: only the echo of our own heartbeat counts as a sign of
        life; every other message leaves the state alone. */
    method OnMessage(t: string, now: U32)
      requires Valid()
      modifies this`last
      ensures Valid()
      ensures last == if t == PingTopic(topic) then now else old(last)
    {
      PingTopicMatchesIff(t, topic);
      if PingTopicMatches(t, topic, topicLen) {
        last := now;
      }
    }

    /** mqttSetTopic: drop the old heartbeat subscription if a root was set,
        store the new root truncated to 64 characters, and subscribe under it
        if the transport is connected. */
    method SetTopic(t: string, connected: bool)
      requires Valid()
      modifies this`topic, this`topicLen, this`actions
      ensures Valid()
      ensures topic == t[..Min(|t|, MaxTopicLen)]
      ensures actions == old(actions)
                         + (if old(topicLen) != 0 then [Unsubscribe(PingTopic(old(topic)))] else [])
                         + (if connected then [Subscribe(PingTopic(topic), 0)] else [])
    {
      if topicLen != 0 {
        // the old heartbeat topic is built in a 75-byte buffer, which holds it
        assert Fits(PingTopic(topic), SubscribeBufferSize) by { PingTopicFitsSubscribeBuffer(topic); }
        actions := actions + [Unsubscribe(topic + PingSuffix)];
      }
      // strncpy copies at most 65 characters, then the last byte is forced to NUL
      var copied := if |t| < TopicBufferSize then t else t[..TopicBufferSize];
      topic := if |copied| < TopicBufferSize then copied else copied[..TopicBufferSize - 1];
      topicLen := |topic|;
      if connected {
        SubPing();
      }
    }

    /** The topic part of mqttSetup: only while no root is set, copy the
        identity, turn every '-' into '/', and make that the root. */
    method Setup(ident: string, connected: bool)
      requires Valid()
      requires |ident| <= MaxIdentLen
      modifies this`topic, this`topicLen, this`actions
      ensures Valid()
      ensures old(topicLen) == 0 ==>
                topic == Slashed(ident)
                && actions == old(actions) + (if connected then [Subscribe(PingTopic(topic), 0)] else [])
      ensures old(topicLen) != 0 ==> topic == old(topic) && actions == old(actions)
    {
      if topicLen == 0 {
        var buf := new char[|ident|](i requires 0 <= i < |ident| => ident[i]);
        ReplaceDashes(buf);
        SetTopic(buf[..], connected);
      }
    }

    /** mqttLoop: one tick of the supervisor. The new timers and the calls
        issued are those of the branch the priority chain selects. */
    method Loop(now: U32, wifi: bool, connected: bool)
      requires Valid()
      modifies this`last, this`ping, this`actions
      ensures Valid()
      ensures var before, o := Timers(old(last), old(ping)), Observation(now, wifi, connected);
              Timers(last, ping) == Advance(before, o)
              && actions == old(actions) + Issued(Decide(before, o), topic)
      // Wi-Fi down: no call, no change
      ensures !wifi ==> last == old(last) && ping == old(ping) && actions == old(actions)
      // disconnected: disconnect-then-connect exactly when the retry floor has passed
      ensures wifi && !connected ==>
                ping == old(ping)
                && if Elapsed(now, old(last)) > RetryInterval
                   then last == now && actions == old(actions) + [Disconnect, Connect]
                   else last == old(last) && actions == old(actions)
      // connected but dead: disconnect-then-connect, mqPing kept, nothing published
      ensures wifi && connected && Elapsed(now, old(last)) > MqTimeout ==>
                last == now && ping == old(ping) && actions == old(actions) + [Disconnect, Connect]
      // connected and alive: a heartbeat exactly when both timers are past half the timeout
      ensures wifi && connected && Elapsed(now, old(last)) <= MqTimeout ==>
                last == old(last)
                && if Elapsed(now, old(last)) > HalfTimeout && Elapsed(now, old(ping)) > HalfTimeout
                   then ping == now && actions == old(actions) + [Publish(PingTopic(topic), 0, false)]
                   else ping == old(ping) && actions == old(actions)
    {
      if !wifi {
        return;
      }
      if !connected {
        if Elapsed(now, last) > RetryInterval {
          actions := actions + [Disconnect, Connect];
          last := now;
        }
      } else if Elapsed(now, last) > MqTimeout {
        actions := actions + [Disconnect, Connect];
        last := now;
      } else if Elapsed(now, last) > MqTimeout / 2 && Elapsed(now, ping) > MqTimeout / 2 {
        // The source builds this topic in a 47-byte buffer, which overflows for
        // roots over 41 characters (PublishBufferOverflow); the model publishes
        // the whole heartbeat topic, as a buffer the size of the subscribe
        // path's would hold it.
        assert Fits(PingTopic(topic), SubscribeBufferSize) by { PingTopicFitsSubscribeBuffer(topic); }
        actions := actions + [Publish(topic + PingSuffix, 0, false)];
        ping := now;
      }
    }
  }

  /** A device with identity "device-123" and no root yet gets the root
      "device/123"; a second setup leaves that root alone. */
  method DerivedRootScenario()
  {
    var m := new ConnectionManager();
    m.Setup("device-123", false);
    SlashedExample();
    assert m.topic == "device/123" && m.actions == [];
    m.Setup("other-7", true);
    assert m.topic == "device/123" && m.actions == [];
  }

  /** The root "device/123": a first attempt once the retry floor has passed,
      the subscription on connect, a heartbeat half a timeout later, a
      foreign message that changes nothing, and the heartbeat's echo. */
  method HeartbeatScenario()
  {
    var m := new ConnectionManager();
    m.SetTopic("device/123", false);
    assert m.topic == "device/123" && m.actions == [];
    assert PingTopic(m.topic) == "device/123/ping";
    m.Loop(5000, true, false);
    assert m.actions == [];
    m.Loop(10001, true, false);
    assert m.actions == [Disconnect, Connect];
    m.OnConnect(10500);
    assert m.actions == [Disconnect, Connect, Subscribe("device/123/ping", 0)];
    m.Loop(41501, true, true);
    assert m.actions == [Disconnect, Connect, Subscribe("device/123/ping", 0),
                         Publish("device/123/ping", 0, false)];
    m.Loop(42000, true, true);
    assert |m.actions| == 4;
    m.OnMessage("device/123/other", 42100);
    assert m.last == 10500;
    m.OnMessage("device/123/ping", 42200);
    assert m.last == 42200;
  }
}
