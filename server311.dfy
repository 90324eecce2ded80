/**
 * The connection-side objects of the MQTT 3.1.1 server package
 * (`mqtt311/server`): the connection registry `ConnManager`, the topic
 * registry `TopicManager` and the connection `Conn`. They refer to one
 * another, so they share one module. What the goroutines and the socket do
 * with the bytes is outside the model: every effect that leaves the process
 * (a packet queued for a client, a channel or socket closed, a context
 * cancelled) is appended to one shared `Trace`.
 */
module Server311 {
  import opened Bytes
  import opened RemainingLength
  import opened FixedHeader
  import opened Proto311
  import opened Pack311
  import opened Connect311
  import opened ConnectFlags

  /** Client ids, topic names and keys are Go strings. */
  type Id = seq<byte>

  /** The observable effects of the server. */
  datatype Event =
    | Sent(to: Conn, bytes: seq<byte>)       // `sendByte`: queued on the connection's write channel
    | Wrote(to: Conn, bytes: seq<byte>)      // written straight to the socket (the CONNACK)
    | Routed(on: Conn, connect: Connect)     // the CONNECT request handed to the router
    | Stopped(conn: Conn)                    // `stop`: the connection's context is cancelled
    | ClosedWriter(conn: Conn)
    | ClosedLive(conn: Conn)
    | ClosedSocket(conn: Conn)

  class Trace {
    var events: seq<Event>

    constructor ()
      ensures events == []
    {
      events := [];
    }

    method Record(e: Event)
      modifies this
      ensures events == old(events) + [e]
    {
      events := events + [e];
    }
  }

  predicate NoDup<T(==)>(s: seq<T>)
  {
    forall i, j :: 0 <= i < j < |s| ==> s[i] != s[j]
  }

  /** One `Sent` per id, in order, each to the connection registered under it. */
  function Sends(ids: seq<Id>, conns: map<Id, Conn>, bytes: seq<byte>): (r: seq<Event>)
    requires forall i :: 0 <= i < |ids| ==> ids[i] in conns
    ensures |r| == |ids| && forall i :: 0 <= i < |ids| ==> r[i] == Sent(conns[ids[i]], bytes)
  {
    if ids == [] then [] else Sends(ids[..|ids| - 1], conns, bytes) + [Sent(conns[ids[|ids| - 1]], bytes)]
  }

  /** One `Stopped` per id, in order. */
  function Stops(ids: seq<Id>, conns: map<Id, Conn>): (r: seq<Event>)
    requires forall i :: 0 <= i < |ids| ==> ids[i] in conns
    ensures |r| == |ids| && forall i :: 0 <= i < |ids| ==> r[i] == Stopped(conns[ids[i]])
  {
    if ids == [] then [] else Stops(ids[..|ids| - 1], conns) + [Stopped(conns[ids[|ids| - 1]])]
  }

  lemma SendsAppend(ids: seq<Id>, id: Id, conns: map<Id, Conn>, bytes: seq<byte>)
    requires forall i :: 0 <= i < |ids| ==> ids[i] in conns
    requires id in conns
    ensures Sends(ids + [id], conns, bytes) == Sends(ids, conns, bytes) + [Sent(conns[id], bytes)]
  {
    assert (ids + [id])[..|ids|] == ids;
  }

  /** The loop state of `clearConn`: the ids stopped so far are distinct and
   *  exactly the entries removed from `m`. */
  ghost predicate ClearedSoFar(order: seq<Id>, removed: set<Id>, m: map<Id, Conn>)
  {
    && NoDup(order) && removed <= m.Keys
    && (forall id :: id in order <==> id in removed)
  }

  lemma ClearedAdd(order: seq<Id>, removed: set<Id>, m: map<Id, Conn>, key: Id)
    requires ClearedSoFar(order, removed, m) && key in m && key !in removed
    ensures ClearedSoFar(order + [key], removed + {key}, m)
    ensures forall i :: 0 <= i < |order| ==> order[i] in m
  {
    assert key !in order;
    assert forall x :: x in order + [key] <==> x in order || x == key;
  }

  lemma ClearedAll(order: seq<Id>, removed: set<Id>, m: map<Id, Conn>)
    requires ClearedSoFar(order, removed, m) && m - removed == map[]
    ensures forall id :: id in order <==> id in m
  {
    forall id | id in m
      ensures id in removed
    {
      assert id !in m - removed;
    }
  }

  lemma StopsAppend(ids: seq<Id>, id: Id, conns: map<Id, Conn>)
    requires forall i :: 0 <= i < |ids| ==> ids[i] in conns
    requires id in conns
    ensures Stops(ids + [id], conns) == Stops(ids, conns) + [Stopped(conns[id])]
  {
    assert (ids + [id])[..|ids|] == ids;
  }

  /** The QoS 0 PUBLISH the server builds for a retained message or a will:
   *  flag 0x30, `TopicNameLength` the `uint16` truncation of the topic's
   *  length and `MsgLen` the `uint32` sum `1 + 1 + TopicNameLength + len(payload)`. */
  function ServerPublish(topic: seq<byte>, payload: seq<byte>): (p: Packet)
    ensures WellTyped(p) && p.Publish? && p.header.headerFlag == PUBLISH && p.qos == QoS0 && !p.retain
  {
    var tnl := |topic| % 0x1_0000;
    Publish(Header(PUBLISH, (2 + tnl + |payload|) % 0x1_0000_0000), tnl, topic, Pid(0, 0), payload, QoS0, false, 0)
  }

  /** Its bytes, as `packPUBLISH` writes them. */
  function PublishBytes(topic: seq<byte>, payload: seq<byte>): seq<byte>
  {
    PackPUBLISH(ServerPublish(topic, payload)).value
  }

  /** What a subscriber receives decodes to the topic and payload it was built
   *  from, at QoS 0 and without retain, and is exactly one frame. */
  lemma PublishBytesDecode(topic: seq<byte>, payload: seq<byte>)
    requires |topic| < 0xFFFC && 2 + |topic| + |payload| <= MaxLength
    ensures var bytes := PublishBytes(topic, payload);
      UnPackFixed(bytes).Ok? && UnPackFixed(bytes).value.1 == |bytes|
      && UnPackFixed(bytes).value.0.headerFlag == PUBLISH
      && var d := UnPackPUBLISH(UnPackFixed(bytes).value.0);
      d.Returns? && d.value.topicName == topic && d.value.payload == payload
      && d.value.qos == QoS0 && !d.value.retain
  {
    var p := ServerPublish(topic, payload);
    PublishRoundTrip(p);
    PackedFramesRead(p);
  }

  // ------------------------------------------------------------ ConnManager

  /** `ConnManager`: client id to connection. */
  class ConnManager {
    var connMap: map<Id, Conn>
    const trace: Trace

    /** Every registered connection reports to the same trace. */
    ghost predicate Valid()
      reads this
    {
      forall id :: id in connMap ==> connMap[id].trace == trace
    }

    constructor (trace: Trace)
      ensures Valid() && connMap == map[] && this.trace == trace
    {
      connMap := map[];
      this.trace := trace;
    }

    /** `addConn`: store under the connection's client id, replacing any earlier entry. */
    method AddConn(conn: Conn) returns (ok: bool)
      requires Valid() && conn.trace == trace
      modifies this
      ensures Valid() && ok
      ensures connMap == old(connMap)[conn.clientID := conn]
    {
      connMap := connMap[conn.clientID := conn];
      ok := true;
    }

    /** `getLen`. */
    method GetLen() returns (n: nat)
      ensures n == |connMap|
    {
      n := |connMap|;
    }

    /** `getConn`: the stored connection, or the "no such connection" error. */
    method GetConn(id: Id) returns (r: Option<Conn>)
      ensures id in connMap <==> r.Some?
      ensures r.Some? ==> r.value == connMap[id]
    {
      if id in connMap {
        r := Some(connMap[id]);
      } else {
        r := None;
      }
    }

    /** `getConnList`: every key once, in the map's iteration order. */
    method GetConnList() returns (list: seq<Id>)
      ensures NoDup(list) && (forall id :: id in list <==> id in connMap) && |list| == |connMap|
    {
      list := [];
      var rest := connMap.Keys;
      while rest != {}
        invariant rest <= connMap.Keys
        invariant NoDup(list)
        invariant forall id :: id in list <==> id in connMap && id !in rest
        invariant |list| + |rest| == |connMap|
        decreases |rest|
      {
        var id :| id in rest;
        list := list + [id];
        rest := rest - {id};
      }
    }

    /** `removeConn`: delete the one key; an absent key is no error. */
    method RemoveConn(id: Id)
      requires Valid()
      modifies this
      ensures Valid() && connMap == old(connMap) - {id}
    {
      connMap := connMap - {id};
    }

    /** `clearConn`: stop every connection and delete its entry. Returns the
     *  order in which the map was walked. */
    method ClearConn() returns (order: seq<Id>)
      requires Valid()
      modifies this, trace
      ensures Valid() && connMap == map[]
      ensures NoDup(order) && forall id :: id in order <==> id in old(connMap)
      ensures trace.events == old(trace.events) + Stops(order, old(connMap))
    {
      order := [];
      ghost var m := connMap;
      ghost var removed: set<Id> := {};
      ghost var before := trace.events;
      while connMap != map[]
        invariant Valid()
        invariant connMap == m - removed
        invariant ClearedSoFar(order, removed, m)
        invariant trace.events == before + Stops(order, m)
        decreases connMap.Keys
      {
        var key :| key in connMap;
        var conn := connMap[key];
        assert key in m && key !in removed && m[key] == conn && conn.trace == trace;
        conn.Stop();
        ClearedAdd(order, removed, m, key);
        StopsAppend(order, key, m);
        assert before + Stops(order, m) + [Stopped(conn)] == before + (Stops(order, m) + [Stopped(conn)]);
        assert (m - removed) - {key} == m - (removed + {key});
        order := order + [key];
        connMap := connMap - {key};
        removed := removed + {key};
      }
      ClearedAll(order, removed, m);
    }
  }

  // ------------------------------------------------------------ TopicManager

  /** The subscribers of a topic; an absent topic has none. */
  function Subscribers(m: map<Id, set<Id>>, top: Id): set<Id>
  {
    if top in m then m[top] else {}
  }

  /** The subscription map after `subTopic(top, client)`. */
  function Subscribed(m: map<Id, set<Id>>, top: Id, client: Id): map<Id, set<Id>>
  {
    m[top := Subscribers(m, top) + {client}]
  }

  /** The subscription map after `unSubTopic(top, client)`. */
  function Unsubscribed(m: map<Id, set<Id>>, top: Id, client: Id): map<Id, set<Id>>
  {
    if |Subscribers(m, top)| < 1 then m
    else if |m[top] - {client}| < 1 then m - {top}
    else m[top := m[top] - {client}]
  }

  /** No topic is kept with an empty subscriber set. */
  ghost predicate NoEmptyTopic(m: map<Id, set<Id>>)
  {
    forall t :: t in m ==> m[t] != {}
  }

  /** Subscribing adds the client to that topic alone, keeps every topic
   *  nonempty, and a second identical subscription changes nothing. */
  lemma SubscribeProperties(m: map<Id, set<Id>>, top: Id, client: Id)
    ensures var m' := Subscribed(m, top, client);
      && top in m' && client in m'[top] && m'[top] == Subscribers(m, top) + {client}
      && (forall t :: t != top ==> Subscribers(m', t) == Subscribers(m, t))
      && (NoEmptyTopic(m) ==> NoEmptyTopic(m'))
      && Subscribed(m', top, client) == m'
  {
    var m' := Subscribed(m, top, client);
    assert Subscribers(m', top) + {client} == m'[top];
  }

  /** Unsubscribing removes the client from that topic alone, drops the topic
   *  once nobody is left, and an unknown topic is left as it was. */
  lemma UnsubscribeProperties(m: map<Id, set<Id>>, top: Id, client: Id)
    ensures var m' := Unsubscribed(m, top, client);
      (client !in Subscribers(m', top))
    ensures var m' := Unsubscribed(m, top, client);
      && Subscribers(m', top) == Subscribers(m, top) - {client}
      && (forall t :: t != top ==> (t in m' <==> t in m))
      && (forall t :: t != top && t in m ==> m'[t] == m[t])
      && (NoEmptyTopic(m) ==> NoEmptyTopic(m'))
    ensures top !in m ==> Unsubscribed(m, top, client) == m
  {
  }

  /** Unsubscribing a client that was subscribed only by the matching
   *  subscription undoes it. */
  lemma SubscribeThenUnsubscribe(m: map<Id, set<Id>>, top: Id, client: Id)
    requires NoEmptyTopic(m) && client !in Subscribers(m, top)
    ensures Unsubscribed(Subscribed(m, top, client), top, client) == m
  {
    var m' := Subscribed(m, top, client);
    assert m'[top] - {client} == Subscribers(m, top);
    if top in m {
      assert m'[top := Subscribers(m, top)] == m;
    } else {
      assert m' - {top} == m;
    }
  }

  /** The PUBLISH `sendRetainMsg` queues, if any: only for a retained payload
   *  of at least one byte and a client with a registered connection. */
  function RetainEvents(retain: map<Id, seq<byte>>, conns: map<Id, Conn>, top: Id, client: Id): seq<Event>
  {
    if top in retain && |retain[top]| >= 1 && client in conns
    then [Sent(conns[client], PublishBytes(top, retain[top]))]
    else []
  }

  /** The retained-message map after `setRetainMsg(top, payload)`: the delete for an
   *  empty payload is followed by the assignment, so the topic stays mapped. */
  function Retained(retain: map<Id, seq<byte>>, top: Id, payload: seq<byte>): map<Id, seq<byte>>
  {
    var r := if |payload| < 1 then retain - {top} else retain;
    r[top := payload]
  }

  /** A nonempty retained payload is what a later lookup finds and what a new
   *  subscriber is sent; an empty one stays stored, so a lookup still finds
   *  it, and nothing is sent. */
  lemma RetainProperties(retain: map<Id, seq<byte>>, conns: map<Id, Conn>, top: Id, payload: seq<byte>, client: Id)
    ensures top in Retained(retain, top, payload) && Retained(retain, top, payload)[top] == payload
    ensures forall t :: t != top ==> (t in Retained(retain, top, payload) <==> t in retain)
    ensures |payload| >= 1 && client in conns ==>
      RetainEvents(Retained(retain, top, payload), conns, top, client) == [Sent(conns[client], PublishBytes(top, payload))]
    ensures |payload| == 0 ==> RetainEvents(Retained(retain, top, payload), conns, top, client) == []
  {
  }

  /** `TopicManager`: subscriptions, retained payloads, in-flight QoS 2
   *  identifiers and wills. */
  class TopicManager {
    var subMapM: map<Id, set<Id>>
    var retainMsg: map<Id, seq<byte>>
    var qos2ID: set<nat>
    var clientWill: map<Id, Will>
    const connMer: ConnManager
    const trace: Trace

    ghost predicate Valid()
      reads this
    {
      NoEmptyTopic(subMapM)
    }

    constructor (connMer: ConnManager, trace: Trace)
      ensures Valid() && subMapM == map[] && retainMsg == map[] && qos2ID == {} && clientWill == map[]
      ensures this.connMer == connMer && this.trace == trace
    {
      subMapM := map[];
      retainMsg := map[];
      qos2ID := {};
      clientWill := map[];
      this.connMer := connMer;
      this.trace := trace;
    }

    /** `subTopic`: add the client to the topic, then send it the retained
     *  message; `panicked` when that send meets a closed connection. */
    method SubTopic(top: Id, client: Id) returns (panicked: bool)
      requires Valid() && connMer.Valid() && connMer.trace == trace
      modifies this, trace
      ensures Valid()
      ensures subMapM == Subscribed(old(subMapM), top, client)
      ensures retainMsg == old(retainMsg) && qos2ID == old(qos2ID) && clientWill == old(clientWill)
      ensures panicked <==> RetainEvents(retainMsg, connMer.connMap, top, client) != [] && connMer.connMap[client].isClose
      ensures !panicked ==> trace.events == old(trace.events) + RetainEvents(retainMsg, connMer.connMap, top, client)
      ensures panicked ==> trace.events == old(trace.events)
    {
      if |Subscribers(subMapM, top)| < 1 {
        subMapM := subMapM[top := {}];
      }
      subMapM := subMapM[top := subMapM[top] + {client}];
      SubscribeProperties(old(subMapM), top, client);
      panicked := SendRetainMsg(top, client);
    }

    /** `unSubTopic`. */
    method UnSubTopic(top: Id, client: Id)
      requires Valid()
      modifies this
      ensures Valid()
      ensures subMapM == Unsubscribed(old(subMapM), top, client)
      ensures retainMsg == old(retainMsg) && qos2ID == old(qos2ID) && clientWill == old(clientWill)
    {
      UnsubscribeProperties(subMapM, top, client);
      if |Subscribers(subMapM, top)| < 1 {
        return;
      }
      subMapM := subMapM[top := subMapM[top] - {client}];
      if |subMapM[top]| < 1 {
        subMapM := subMapM - {top};
      }
    }

    /** `getTopSubList`: the slice is made with length `tlen` and then appended
     *  to, so `tlen` empty strings come before the `tlen` subscribers. */
    method GetTopSubList(top: Id) returns (sl: seq<Id>)
      ensures var subs := Subscribers(subMapM, top);
        && |sl| == 2 * |subs|
        && (forall i :: 0 <= i < |subs| ==> sl[i] == [])
        && NoDup(sl[|subs|..])
        && (forall c :: c in sl[|subs|..] <==> c in subs)
    {
      var tlen := |Subscribers(subMapM, top)|;
      if tlen < 1 {
        return [];
      }
      sl := seq(tlen, _ => []);
      var rest := subMapM[top];
      while rest != {}
        invariant rest <= subMapM[top]
        invariant |sl| >= tlen && forall i :: 0 <= i < tlen ==> sl[i] == []
        invariant NoDup(sl[tlen..])
        invariant forall c :: c in sl[tlen..] <==> c in subMapM[top] && c !in rest
        invariant |sl| - tlen + |rest| == tlen
        decreases |rest|
      {
        var cli :| cli in rest;
        assert (sl + [cli])[tlen..] == sl[tlen..] + [cli];
        sl := sl + [cli];
        rest := rest - {cli};
      }
    }

    /** `getTopList`: every topic once. */
    method GetTopList() returns (sl: seq<Id>)
      ensures NoDup(sl) && (forall t :: t in sl <==> t in subMapM) && |sl| == |subMapM|
    {
      sl := [];
      var rest := subMapM.Keys;
      while rest != {}
        invariant rest <= subMapM.Keys
        invariant NoDup(sl)
        invariant forall t :: t in sl <==> t in subMapM && t !in rest
        invariant |sl| + |rest| == |subMapM|
        decreases |rest|
      {
        var t :| t in rest;
        sl := sl + [t];
        rest := rest - {t};
      }
    }

    /** `setRetainMsg`. */
    method SetRetainMsg(top: Id, payload: seq<byte>)
      modifies this
      ensures retainMsg == Retained(old(retainMsg), top, payload)
      ensures subMapM == old(subMapM) && qos2ID == old(qos2ID) && clientWill == old(clientWill)
    {
      if |payload| < 1 {
        retainMsg := retainMsg - {top};
      }
      retainMsg := retainMsg[top := payload];
    }

    /** `getRetainMsg`: the stored payload, or an empty one and false. */
    method GetRetainMsg(top: Id) returns (payload: seq<byte>, ok: bool)
      ensures ok <==> top in retainMsg
      ensures payload == if ok then retainMsg[top] else []
    {
      if top in retainMsg {
        payload, ok := retainMsg[top], true;
      } else {
        payload, ok := [], false;
      }
    }

    /** `sendRetainMsg`: the retained payload of exactly `top`, as a QoS 0
     *  PUBLISH, to the client's registered connection; `panicked` when that
     *  connection is already closed. */
    method SendRetainMsg(top: Id, client: Id) returns (panicked: bool)
      requires connMer.Valid() && connMer.trace == trace
      modifies trace
      ensures panicked <==> RetainEvents(retainMsg, connMer.connMap, top, client) != [] && connMer.connMap[client].isClose
      ensures !panicked ==> trace.events == old(trace.events) + RetainEvents(retainMsg, connMer.connMap, top, client)
      ensures panicked ==> trace.events == old(trace.events)
    {
      panicked := false;
      var bys, ok := GetRetainMsg(top);
      if !ok || |bys| < 1 {
        return;
      }
      var by2 := PackPUBLISH(ServerPublish(top, bys)).value;
      var con := connMer.GetConn(client);
      if con.None? {
        return;
      }
      panicked := con.value.SendByte(by2);
    }

    /** `setQos2ID`. */
    method SetQos2ID(id: nat)
      modifies this
      ensures qos2ID == old(qos2ID) + {id}
      ensures subMapM == old(subMapM) && retainMsg == old(retainMsg) && clientWill == old(clientWill)
    {
      qos2ID := qos2ID + {id};
    }

    /** `getQos2ID`. */
    method GetQos2ID(id: nat) returns (ok: bool)
      ensures ok <==> id in qos2ID
    {
      ok := id in qos2ID;
    }

    /** `removeQos2ID`. */
    method RemoveQos2ID(id: nat)
      modifies this
      ensures qos2ID == old(qos2ID) - {id}
      ensures subMapM == old(subMapM) && retainMsg == old(retainMsg) && clientWill == old(clientWill)
    {
      qos2ID := qos2ID - {id};
    }

    /** `setClientWill`: one will per client, the last one set. */
    method SetClientWill(client: Id, w: Will)
      modifies this
      ensures clientWill == old(clientWill)[client := w]
      ensures subMapM == old(subMapM) && retainMsg == old(retainMsg) && qos2ID == old(qos2ID)
    {
      clientWill := clientWill[client := w];
    }

    /** `getClientWill`. */
    method GetClientWill(client: Id) returns (r: Option<Will>)
      ensures client in clientWill <==> r.Some?
      ensures r.Some? ==> r.value == clientWill[client]
    {
      if client in clientWill {
        r := Some(clientWill[client]);
      } else {
        r := None;
      }
    }

    /** `removeClientWill`. */
    method RemoveClientWill(client: Id)
      modifies this
      ensures clientWill == old(clientWill) - {client}
      ensures subMapM == old(subMapM) && retainMsg == old(retainMsg) && qos2ID == old(qos2ID)
    {
      clientWill := clientWill - {client};
    }

    /** `sendClientWill`: the client's will, as a QoS 0 PUBLISH, once to every
     *  subscriber of exactly the will topic that has a registered connection.
     *  Returns the subscribers sent to, in the order the set was walked, and
     *  whether a send met a closed connection and panicked. */
    method SendClientWill(client: Id) returns (sentTo: seq<Id>, panicked: bool)
      requires connMer.Valid() && connMer.trace == trace
      modifies trace
      ensures client !in clientWill ==> sentTo == [] && !panicked && trace.events == old(trace.events)
      ensures client in clientWill ==> var w := clientWill[client];
        && (panicked <==> !AllOpen(Subscribers(subMapM, w.willTopic), connMer.connMap))
        && NoDup(sentTo)
        && (forall id :: id in sentTo ==> id in Subscribers(subMapM, w.willTopic) && id in connMer.connMap)
        && (!panicked ==> forall id :: id in Subscribers(subMapM, w.willTopic) && id in connMer.connMap ==> id in sentTo)
        && trace.events == old(trace.events) + Sends(sentTo, connMer.connMap, PublishBytes(w.willTopic, w.willMessage))
    {
      sentTo, panicked := [], false;
      var will := GetClientWill(client);
      if will.None? {
        return;
      }
      assert client in clientWill;
      var w := will.value;
      var by2 := PackPUBLISH(ServerPublish(w.willTopic, w.willMessage)).value;
      sentTo, panicked := SendEach(connMer, Subscribers(subMapM, w.willTopic), by2);
      assert client in clientWill;
    }
  }

  /** Every id of `ids` with a registered connection has it open. */
  ghost predicate AllOpen(ids: set<Id>, conns: map<Id, Conn>)
    reads conns.Values
  {
    forall id :: id in ids && id in conns ==> !conns[id].isClose
  }

  /** The loop of `sendClientWill`: `bytes` once to every id of `subs` that
   *  has a registered connection, in the order the set is walked, until a
   *  send meets a closed connection and panics. */
  method SendEach(connMer: ConnManager, subs: set<Id>, bytes: seq<byte>) returns (sentTo: seq<Id>, panicked: bool)
    requires connMer.Valid()
    modifies connMer.trace
    ensures panicked <==> !AllOpen(subs, connMer.connMap)
    ensures NoDup(sentTo)
    ensures forall id :: id in sentTo ==> id in subs && id in connMer.connMap
    ensures !panicked ==> forall id :: id in subs && id in connMer.connMap ==> id in sentTo
    ensures forall i :: 0 <= i < |sentTo| ==> sentTo[i] in connMer.connMap
    ensures connMer.trace.events == old(connMer.trace.events) + Sends(sentTo, connMer.connMap, bytes)
  {
    sentTo, panicked := [], false;
    ghost var conns := connMer.connMap;
    ghost var before := connMer.trace.events;
    var rest := subs;
    while rest != {}
      invariant rest <= subs && connMer.connMap == conns
      invariant SentSoFar(sentTo, subs, conns, rest)
      invariant OpenSoFar(subs, conns, rest)
      invariant connMer.trace.events == before + Sends(sentTo, conns, bytes)
      decreases |rest|
    {
      var scli :| scli in rest;
      var stopped;
      sentTo, stopped := SendStep(connMer, subs, bytes, sentTo, rest, scli, conns, before);
      if stopped {
        return sentTo, true;
      }
      OpenStep(subs, conns, rest, scli);
      rest := rest - {scli};
    }
  }

  /** One pass of that loop: `bytes` to `scli` if it has a connection. */
  method SendStep(connMer: ConnManager, subs: set<Id>, bytes: seq<byte>, sentTo: seq<Id>, rest: set<Id>,
                  scli: Id, ghost conns: map<Id, Conn>, ghost before: seq<Event>) returns (sentTo': seq<Id>, panicked: bool)
    requires connMer.Valid() && connMer.connMap == conns && rest <= subs && scli in rest
    requires SentSoFar(sentTo, subs, conns, rest)
    requires connMer.trace.events == before + Sends(sentTo, conns, bytes)
    modifies connMer.trace
    ensures panicked <==> scli in conns && conns[scli].isClose
    ensures panicked ==> sentTo' == sentTo
    ensures !panicked ==> SentSoFar(sentTo', subs, conns, rest - {scli})
    ensures connMer.trace.events == before + Sends(sentTo', conns, bytes)
  {
    panicked := false;
    var con := connMer.GetConn(scli);
    if con.None? {
      SentSkip(sentTo, subs, conns, rest, scli);
      sentTo' := sentTo;
    } else {
      var c := con.value;
      panicked := c.SendByte(bytes);
      if panicked {
        return sentTo, true;
      }
      SentAdd(sentTo, subs, conns, rest, scli);
      SendsAppend(sentTo, scli, conns, bytes);
      sentTo' := sentTo + [scli];
    }
  }

  lemma OpenStep(subs: set<Id>, conns: map<Id, Conn>, rest: set<Id>, id: Id)
    requires OpenSoFar(subs, conns, rest) && (id in conns ==> !conns[id].isClose)
    ensures OpenSoFar(subs, conns, rest - {id})
  {
  }

  /** The ids of `subs` walked so far (those outside `rest`) have no closed
   *  connection. */
  ghost predicate OpenSoFar(subs: set<Id>, conns: map<Id, Conn>, rest: set<Id>)
    reads conns.Values
  {
    forall id :: id in subs && id in conns && id !in rest ==> !conns[id].isClose
  }

  /** The loop state of `sendClientWill`: the ids sent to so far are distinct,
   *  registered, and exactly the registered subscribers already walked. */
  ghost predicate SentSoFar(sentTo: seq<Id>, subs: set<Id>, conns: map<Id, Conn>, rest: set<Id>)
  {
    && NoDup(sentTo)
    && (forall i :: 0 <= i < |sentTo| ==> sentTo[i] in conns)
    && (forall id :: id in sentTo <==> id in subs && id in conns && id !in rest)
  }

  lemma SentSkip(sentTo: seq<Id>, subs: set<Id>, conns: map<Id, Conn>, rest: set<Id>, id: Id)
    requires SentSoFar(sentTo, subs, conns, rest) && id in rest && id !in conns
    ensures SentSoFar(sentTo, subs, conns, rest - {id})
  {
  }

  lemma SentAdd(sentTo: seq<Id>, subs: set<Id>, conns: map<Id, Conn>, rest: set<Id>, id: Id)
    requires SentSoFar(sentTo, subs, conns, rest) && rest <= subs && id in rest && id in conns
    ensures SentSoFar(sentTo + [id], subs, conns, rest - {id})
  {
    assert id !in sentTo;
    assert forall x :: x in sentTo + [id] <==> x in sentTo || x == id;
  }

  // ------------------------------------------------------------ Conn

  /** How `setClientID` ends. */
  datatype Setup =
    | AlreadySet            // a client id was already assigned
    | DecodePanicked        // decoding the CONNECT panicked
    | DecodeFailed          // decoding returned an error: nothing is answered
    | ConnackFailed         // writing the CONNACK failed
    | Refused(code: byte)   // the CONNACK carried a nonzero code
    | Registered

  /** The code the CONNACK carries: the decoder's, or, when that is 0, the verify hook's. */
  function FinalCode(d: ConnectResult, verify: Connect -> byte): byte
  {
    if d.code == 0 && d.packet.Some? then verify(d.packet.value) else d.code
  }

  /** The will `setClientID` stores for a CONNECT. */
  function WillOf(p: Connect): Will
  {
    Will(p.willTopic, p.willMessage, p.willRetain, p.willQos)
  }

  /** How `setClientID` ends on a connection without a client id, from the
   *  outcome of decoding its first packet. */
  function SetupOf(d: Run<ConnectResult>, verify: Connect -> byte, written: bool): Setup
    requires !d.Diverges?
  {
    if d.Panics? then DecodePanicked
    else if d.value.failed then DecodeFailed
    else if !written then ConnackFailed
    else if FinalCode(d.value, verify) != 0 then Refused(FinalCode(d.value, verify))
    else Registered
  }

  /** What `setClientID` does outside the connection once the CONNECT is
   *  decoded: hand an accepted one to the router, then write the CONNACK. */
  function SetupEvents(c: Conn, d: ConnectResult, verify: Connect -> byte, written: bool): seq<Event>
  {
    if d.failed then []
    else
      var code := FinalCode(d, verify);
      (if d.code == 0 && d.packet.Some? && code == 0 then [Routed(c, d.packet.value)] else [])
      + (if written then [Wrote(c, PackCONNACK(code))] else [])
  }

  /** A well-formed CONNECT without will or credentials is answered with the
   *  CONNACK code the reserved bit or the verify hook gives; only code 0
   *  reaches the router and registers the client. Without a successful
   *  write nothing is registered. */
  lemma ConnectSetsUp(c: Conn, flag: byte, keepAlive: nat, clientId: seq<byte>, rest: seq<byte>,
                      verify: Connect -> byte)
    requires keepAlive < 0x1_0000 && 1 <= |clientId| < 0xFFF0
    requires !Bit(flag, 2) && !Bit(flag, 6) && !Bit(flag, 7)
    ensures var d := UnPackCONNECT(EncodeConnect(flag, keepAlive, clientId) + rest);
      && d.Returns? && d.value.packet.Some? && d.value.packet.value.clientID == clientId
      && var p := d.value.packet.value;
      var code := if Bit(flag, 0) then RefusedProtocolVersion else verify(p);
      && SetupOf(d, verify, true) == (if code == 0 then Registered else Refused(code))
      && SetupEvents(c, d.value, verify, true) == (if code == 0 then [Routed(c, p)] else []) + [Wrote(c, [0x20, 2, 0, code])]
      && SetupOf(d, verify, false) == ConnackFailed
  {
    ConnectAccepted(flag, keepAlive, clientId, rest);
  }

  class Conn {
    var clientID: Id
    var isClose: bool
    var keyValue: map<Id, seq<byte>>
    /** The bytes still to arrive on the socket. */
    var input: seq<byte>
    const trace: Trace
    const connMer: ConnManager
    const topicMer: TopicManager

    /** The connection and the registries it talks to share one trace. */
    ghost predicate Valid()
      reads this, connMer, topicMer
    {
      && connMer.trace == trace && topicMer.trace == trace && topicMer.connMer == connMer
      && connMer.Valid() && topicMer.Valid()
    }

    constructor (input: seq<byte>, trace: Trace, connMer: ConnManager, topicMer: TopicManager)
      requires connMer.trace == trace && topicMer.trace == trace && topicMer.connMer == connMer
      requires connMer.Valid() && topicMer.Valid()
      ensures Valid() && clientID == [] && !isClose && keyValue == map[] && this.input == input
      ensures this.trace == trace && this.connMer == connMer && this.topicMer == topicMer
    {
      clientID := [];
      isClose := false;
      keyValue := map[];
      this.input := input;
      this.trace := trace;
      this.connMer := connMer;
      this.topicMer := topicMer;
    }

    /** `stop`: cancel the context. */
    method Stop()
      modifies trace
      ensures trace.events == old(trace.events) + [Stopped(this)]
    {
      trace.Record(Stopped(this));
    }

    /** `sendByte`: queue bytes on the write channel. `finalStop` closes that
     *  channel, and a Go send on a closed channel panics: then nothing is
     *  queued and `panicked` is set. */
    method SendByte(payload: seq<byte>) returns (panicked: bool)
      modifies trace
      ensures panicked <==> isClose
      ensures !isClose ==> trace.events == old(trace.events) + [Sent(this, payload)]
      ensures isClose ==> trace.events == old(trace.events)
    {
      if isClose {
        return true;
      }
      trace.Record(Sent(this, payload));
      panicked := false;
    }

    /** `setClientID`. The first packet is decoded with `unPackCONNECTProtocol`;
     *  `verify` is the router manager's connect hook and `written` whether the
     *  CONNACK write succeeds. */
    method SetClientID(verify: Connect -> byte, written: bool) returns (r: Setup)
      requires Valid()
      modifies this, trace, connMer, topicMer
      ensures Valid()
      ensures isClose == old(isClose) && keyValue == old(keyValue)
      ensures topicMer.subMapM == old(topicMer.subMapM) && topicMer.retainMsg == old(topicMer.retainMsg)
      ensures topicMer.qos2ID == old(topicMer.qos2ID)
      ensures old(clientID) != [] ==> r == AlreadySet
      ensures old(clientID) == [] ==> r == SetupOf(UnPackCONNECT(old(input)), verify, written)
      ensures r in {AlreadySet, DecodePanicked} ==> trace.events == old(trace.events) && input == old(input)
      ensures old(clientID) == [] && UnPackCONNECT(old(input)).Returns? ==>
        var d := UnPackCONNECT(old(input)).value;
        input == old(input)[d.used..] && trace.events == old(trace.events) + SetupEvents(this, d, verify, written)
      ensures r == Registered ==> var p := UnPackCONNECT(old(input)).value.packet.value;
        && clientID == p.clientID && clientID != []
        && connMer.connMap == old(connMer.connMap)[p.clientID := this]
        && topicMer.clientWill == (if p.willFlag then old(topicMer.clientWill)[p.clientID := WillOf(p)]
                                   else old(topicMer.clientWill))
      ensures r != Registered ==>
        clientID == old(clientID) && connMer.connMap == old(connMer.connMap) && topicMer.clientWill == old(topicMer.clientWill)
    {
      if clientID != [] {
        return AlreadySet;
      }
      var d := UnPackCONNECT(input);
      if d.Panics? {
        return DecodePanicked;
      }
      input := input[d.value.used..];
      r := Answer(d.value, verify, written);
    }

    /** The part of `setClientID` after a CONNECT decoded without panicking:
     *  verify it, answer it and, when the CONNACK carried code 0, register. */
    method Answer(d: ConnectResult, verify: Connect -> byte, written: bool) returns (r: Setup)
      requires Valid() && clientID == [] && (d.packet.None? ==> d.failed)
      modifies this, trace, connMer, topicMer
      ensures Valid()
      ensures isClose == old(isClose) && keyValue == old(keyValue) && input == old(input)
      ensures topicMer.subMapM == old(topicMer.subMapM) && topicMer.retainMsg == old(topicMer.retainMsg)
      ensures topicMer.qos2ID == old(topicMer.qos2ID)
      ensures r == SetupOf(Returns(d), verify, written)
      ensures trace.events == old(trace.events) + SetupEvents(this, d, verify, written)
      ensures r == Registered ==> var p := d.packet.value;
        && clientID == p.clientID
        && connMer.connMap == old(connMer.connMap)[p.clientID := this]
        && topicMer.clientWill == (if p.willFlag then old(topicMer.clientWill)[p.clientID := WillOf(p)]
                                   else old(topicMer.clientWill))
      ensures r != Registered ==>
        clientID == old(clientID) && connMer.connMap == old(connMer.connMap) && topicMer.clientWill == old(topicMer.clientWill)
    {
      if d.failed {
        return DecodeFailed;
      }
      var p := d.packet.value;
      var code := d.code;
      if code == 0 {
        code := verify(p);
        if code == 0 {
          trace.Record(Routed(this, p));
        }
      }
      if !written {
        return ConnackFailed;
      }
      trace.Record(Wrote(this, PackCONNACK(code)));
      if code != 0 {
        return Refused(code);
      }
      Register(p);
      r := Registered;
    }

    /** The end of `setClientID` once the CONNACK is written with code 0: take
     *  the client id, join the registry and store the will. */
    method Register(p: Connect)
      requires Valid()
      modifies this, connMer, topicMer
      ensures Valid()
      ensures clientID == p.clientID && isClose == old(isClose) && keyValue == old(keyValue) && input == old(input)
      ensures connMer.connMap == old(connMer.connMap)[p.clientID := this]
      ensures topicMer.clientWill == (if p.willFlag then old(topicMer.clientWill)[p.clientID := WillOf(p)]
                                      else old(topicMer.clientWill))
      ensures topicMer.subMapM == old(topicMer.subMapM) && topicMer.retainMsg == old(topicMer.retainMsg)
      ensures topicMer.qos2ID == old(topicMer.qos2ID)
    {
      clientID := p.clientID;
      var _ := connMer.AddConn(this);
      if p.willFlag {
        topicMer.SetClientWill(p.clientID, WillOf(p));
      }
    }

    /** `finalStop`: once only, close the write and live channels and the
     *  socket, send the will, remove it, and leave the registry. Returns the
     *  subscribers the will was sent to. When a will subscriber's connection
     *  is closed (this one among them, its write channel being closed just
     *  before), the send panics and the removals never run. */
    method FinalStop() returns (sentTo: seq<Id>, panicked: bool)
      requires Valid()
      modifies this, trace, connMer, topicMer
      ensures Valid() && isClose
      ensures clientID == old(clientID) && keyValue == old(keyValue) && input == old(input)
      ensures topicMer.subMapM == old(topicMer.subMapM) && topicMer.retainMsg == old(topicMer.retainMsg)
      ensures topicMer.qos2ID == old(topicMer.qos2ID)
      ensures old(isClose) ==>
        sentTo == [] && !panicked && trace.events == old(trace.events)
        && connMer.connMap == old(connMer.connMap) && topicMer.clientWill == old(topicMer.clientWill)
      ensures !old(isClose) ==>
        && var closes := [ClosedWriter(this), ClosedLive(this), ClosedSocket(this)];
        && (clientID !in old(topicMer.clientWill) ==> sentTo == [] && !panicked && trace.events == old(trace.events) + closes)
        && (clientID in old(topicMer.clientWill) ==> var w := old(topicMer.clientWill)[clientID];
              && (panicked <==> !AllOpen(Subscribers(topicMer.subMapM, w.willTopic), old(connMer.connMap)))
              && NoDup(sentTo)
              && (forall id :: id in sentTo ==> id in Subscribers(topicMer.subMapM, w.willTopic) && id in old(connMer.connMap))
              && (!panicked ==> forall id :: id in Subscribers(topicMer.subMapM, w.willTopic) && id in old(connMer.connMap) ==> id in sentTo)
              && trace.events == old(trace.events) + closes
                   + Sends(sentTo, old(connMer.connMap), PublishBytes(w.willTopic, w.willMessage)))
        && (!panicked ==> connMer.connMap == old(connMer.connMap) - {clientID}
                          && topicMer.clientWill == old(topicMer.clientWill) - {clientID})
        && (panicked ==> connMer.connMap == old(connMer.connMap) && topicMer.clientWill == old(topicMer.clientWill))
      /* A registered client subscribed to its own will topic: the will is sent
       * to its own closed write channel. */
      ensures (&& !old(isClose) && clientID in old(topicMer.clientWill)
               && clientID in Subscribers(topicMer.subMapM, old(topicMer.clientWill)[clientID].willTopic)
               && clientID in old(connMer.connMap) && old(connMer.connMap)[clientID] == this) ==> panicked
    {
      if isClose {
        return [], false;
      }
      isClose := true;
      trace.Record(ClosedWriter(this));
      trace.Record(ClosedLive(this));
      trace.Record(ClosedSocket(this));
      assert trace.events == old(trace.events) + [ClosedWriter(this), ClosedLive(this), ClosedSocket(this)];
      sentTo, panicked := ReleaseWill();
    }

    /** The part of `finalStop` after the closes: send the will, then remove
     *  it and leave the registry, unless the send panicked. */
    method ReleaseWill() returns (sentTo: seq<Id>, panicked: bool)
      requires Valid()
      modifies trace, connMer, topicMer
      ensures Valid()
      ensures topicMer.subMapM == old(topicMer.subMapM) && topicMer.retainMsg == old(topicMer.retainMsg)
      ensures topicMer.qos2ID == old(topicMer.qos2ID)
      ensures clientID !in old(topicMer.clientWill) ==> sentTo == [] && !panicked && trace.events == old(trace.events)
      ensures clientID in old(topicMer.clientWill) ==> var w := old(topicMer.clientWill)[clientID];
        && (panicked <==> !AllOpen(Subscribers(topicMer.subMapM, w.willTopic), old(connMer.connMap)))
        && NoDup(sentTo)
        && (forall id :: id in sentTo ==> id in Subscribers(topicMer.subMapM, w.willTopic) && id in old(connMer.connMap))
        && (!panicked ==> forall id :: id in Subscribers(topicMer.subMapM, w.willTopic) && id in old(connMer.connMap) ==> id in sentTo)
        && trace.events == old(trace.events) + Sends(sentTo, old(connMer.connMap), PublishBytes(w.willTopic, w.willMessage))
      ensures !panicked ==> connMer.connMap == old(connMer.connMap) - {clientID}
                            && topicMer.clientWill == old(topicMer.clientWill) - {clientID}
      ensures panicked ==> connMer.connMap == old(connMer.connMap) && topicMer.clientWill == old(topicMer.clientWill)
    {
      sentTo, panicked := topicMer.SendClientWill(clientID);
      if panicked {
        return;
      }
      topicMer.RemoveClientWill(clientID);
      connMer.RemoveConn(clientID);
    }

    /** `setKeyValue`. */
    method SetKeyValue(key: Id, value: seq<byte>)
      modifies this
      ensures keyValue == old(keyValue)[key := value]
      ensures clientID == old(clientID) && isClose == old(isClose) && input == old(input)
    {
      keyValue := keyValue[key := value];
    }

    /** `getKeyValue`: the value, or the "no such key" error. */
    method GetKeyValue(key: Id) returns (r: Option<seq<byte>>)
      ensures key in keyValue <==> r.Some?
      ensures r.Some? ==> r.value == keyValue[key]
    {
      if key in keyValue {
        r := Some(keyValue[key]);
      } else {
        r := None;
      }
    }

    /** `removeKeyValue`. */
    method RemoveKeyValue(key: Id)
      modifies this
      ensures keyValue == old(keyValue) - {key}
      ensures clientID == old(clientID) && isClose == old(isClose) && input == old(input)
    {
      keyValue := keyValue - {key};
    }
  }

  /** A client that registered a will and subscribed to its own will topic
   *  brings the server down when its connection is torn down: `finalStop`
   *  closes the write channel and then sends the will into it. */
  method FinalStopSelfWillPanics() returns (panicked: bool, registered: bool)
    ensures panicked && registered
  {
    var id: Id := [0x61];
    var w := Will([0x74], [0x6D], false, 0);
    var trace := new Trace();
    var connMer := new ConnManager(trace);
    var topicMer := new TopicManager(connMer, trace);
    var c := new Conn([], trace, connMer, topicMer);
    c.clientID := id;
    var _ := connMer.AddConn(c);
    topicMer.SetClientWill(id, w);
    var _ := topicMer.SubTopic(w.willTopic, id);
    var _, p := c.FinalStop();
    var after := connMer.GetConn(id);
    panicked, registered := p, after.Some?;
  }

  /** The key-value attributes: a value set is the value got back, a removed
   *  key is absent, and other keys keep their values. */
  lemma KeyValueProperties(kv: map<Id, seq<byte>>, k: Id, v: seq<byte>, other: Id)
    requires other != k
    ensures k in kv[k := v] && kv[k := v][k] == v
    ensures k !in kv - {k}
    ensures (other in kv[k := v] <==> other in kv) && (other in kv ==> kv[k := v][other] == kv[other])
    ensures (other in kv - {k} <==> other in kv) && (other in kv ==> (kv - {k})[other] == kv[other])
  {
  }
}
