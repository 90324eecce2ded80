/**
 * The default routers of the MQTT 3.1.1 demo (`mqtt311/demo/router`). Each
 * `Handle` receives the decoded packet and acts through the request: it
 * subscribes or unsubscribes topics, hands a PUBLISH to the worker pool,
 * stores a retained message, asks for the connection to stop, updates the set
 * of in-flight QoS 2 identifiers, and sends a reply. Here a handler returns
 * those effects, in program order, as a list of actions, and the handlers that
 * touch the QoS 2 set also return its new value.
 */
module Router311 {
  import opened Bytes
  import opened RemainingLength
  import opened FixedHeader
  import opened Proto311
  import opened Pack311
  import opened Connect311
  import opened ConnectFlags
  import opened Server311

  /** What a handler asks of the request. */
  datatype Action =
    | SubTopic(topic: seq<byte>)                           // `request.SubTopic`
    | UnSubTopic(topic: seq<byte>)                         // `request.UnSubTopic`
    | SendRES(reply: Packet)                               // `request.SendRES`
    | ConnStop                                             // `request.ConnStop`
    | MsgInPool(publish: Packet)                           // `request.MsgInPool`, started as a goroutine
    | SetRetainMsg(topic: seq<byte>, payload: seq<byte>)   // `request.SetRetainMsg`, started as a goroutine

  /** The QoS 2 identifier set after a handler, and what the handler did. */
  datatype Outcome = Outcome(qos2: set<nat>, actions: seq<Action>)

  /** The packets a list of actions sends, in order. */
  function Replies(actions: seq<Action>): (r: seq<Packet>)
    ensures |r| <= |actions|
  {
    if actions == [] then []
    else Replies(actions[..|actions| - 1])
         + (if actions[|actions| - 1].SendRES? then [actions[|actions| - 1].reply] else [])
  }

  lemma RepliesAppend(actions: seq<Action>, more: seq<Action>)
    ensures Replies(actions + more) == Replies(actions) + Replies(more)
    decreases |more|
  {
    if more != [] {
      assert (actions + more)[..|actions + more| - 1] == actions + more[..|more| - 1];
      RepliesAppend(actions, more[..|more| - 1]);
    } else {
      assert actions + more == actions;
    }
  }

  /** The acknowledgement packets the handlers build: the given type byte,
   *  `MsgLen` 2, the echoed identifier and the given `MsgId`. */
  function AckPacket(flag: byte, pid: Pid, msgId: nat): (p: Packet)
    requires flag in {PUBACK, PUBREC, PUBREL, PUBCOMP}
    ensures p.header == Header(flag, 2) && StructureFor(flag, p)
    ensures p.packetIdentifier == pid && p.msgId == msgId
  {
    if flag == PUBACK then Puback(Header(flag, 2), pid, msgId)
    else if flag == PUBREC then Pubrec(Header(flag, 2), pid, msgId)
    else if flag == PUBREL then Pubrel(Header(flag, 2), pid, msgId)
    else Pubcomp(Header(flag, 2), pid, msgId)
  }

  /** `CheckConn`: the demo's connect hook accepts every CONNECT. */
  function CheckConn(p: Connect): byte
  {
    ConnectionAccepted
  }

  /** With the demo's hook, a well-formed CONNECT without will, credentials or
   *  reserved bit is routed, answered with code 0 and registered. */
  lemma CheckConnRegisters(c: Conn, flag: byte, keepAlive: nat, clientId: seq<byte>, rest: seq<byte>)
    requires keepAlive < 0x1_0000 && 1 <= |clientId| < 0xFFF0
    requires !Bit(flag, 0) && !Bit(flag, 2) && !Bit(flag, 6) && !Bit(flag, 7)
    ensures var d := UnPackCONNECT(EncodeConnect(flag, keepAlive, clientId) + rest);
      && d.Returns? && d.value.packet.Some? && d.value.packet.value.clientID == clientId
      && SetupOf(d, CheckConn, true) == Registered
      && SetupEvents(c, d.value, CheckConn, true) == [Routed(c, d.value.packet.value), Wrote(c, [0x20, 2, 0, 0])]
  {
    ConnectSetsUp(c, flag, keepAlive, clientId, rest, CheckConn);
  }

  /** `CONNECTRouter`, `PUBACKRouter` and `PUBCOMPRouter` only log. */
  function HandleCONNECT(p: Connect): seq<Action>
  {
    []
  }

  function HandlePUBACK(sp: Packet): seq<Action>
    requires sp.Puback?
  {
    []
  }

  function HandlePUBCOMP(sp: Packet): seq<Action>
    requires sp.Pubcomp?
  {
    []
  }

  /** `DISCONNECTRouter`: stop the connection. */
  function HandleDISCONNECT(sp: Packet): seq<Action>
    requires sp.Disconnect?
  {
    [ConnStop]
  }

  /** `PINGREQRouter`: reply PINGRESP with `MsgLen` 0. */
  function HandlePINGREQ(sp: Packet): seq<Action>
    requires sp.Pingreq?
  {
    [SendRES(Pingresp(Header(PINGRESP, 0)))]
  }

  /** The handlers that only log take no action; DISCONNECT only stops the
   *  connection; PINGREQ only replies, and its reply is the two bytes
   *  `[0xD0, 0]`, which the server reads back as one whole frame. */
  lemma FixedHandlers(p: Connect, sp: Packet)
    ensures HandleCONNECT(p) == []
    ensures sp.Puback? ==> HandlePUBACK(sp) == []
    ensures sp.Pubcomp? ==> HandlePUBCOMP(sp) == []
    ensures sp.Disconnect? ==> Replies(HandleDISCONNECT(sp)) == [] && ConnStop in HandleDISCONNECT(sp)
    ensures sp.Pingreq? ==> (
      && ConnStop !in HandlePINGREQ(sp)
      && var replies := Replies(HandlePINGREQ(sp));
      && |replies| == 1 && WellTyped(replies[0]) && PackProto(replies[0]) == Ok([PINGRESP, 0])
      && UnPackFixed([PINGRESP, 0]) == Ok((Fixed(PINGRESP, 0, []), 2)))
  {
    if sp.Pingreq? {
      assert Replies(HandlePINGREQ(sp)) == [Pingresp(Header(PINGRESP, 0))];
      FrameRoundTrip(PINGRESP, [], []);
      assert Frame(PINGRESP, []) + [] == [PINGRESP, 0];
    }
  }

  /** The SUBACK of `SUBSCRIBERouter`: `MsgLen` the `uint32` of 2 + n, the
   *  echoed identifier, and n zero (success, QoS 0) return codes. */
  function SubackFor(sp: Packet): (p: Packet)
    requires sp.Subscribe?
    ensures p.Suback? && WellTyped(p) && p.packetIdentifier == sp.packetIdentifier
  {
    var n := |sp.topicFilterList|;
    Suback(Header(SUBACK, (2 + n) % 0x1_0000_0000), sp.packetIdentifier, Zeros(n), 0)
  }

  /** `SUBSCRIBERouter`: subscribe every filter in order, then reply SUBACK. */
  method HandleSUBSCRIBE(sp: Packet) returns (actions: seq<Action>)
    requires sp.Subscribe?
    ensures var fl := sp.topicFilterList;
      && |actions| == |fl| + 1
      && (forall i :: 0 <= i < |fl| ==> actions[i] == SubTopic(fl[i].filterName))
      && actions[|fl|] == SendRES(SubackFor(sp))
  {
    var fl := sp.topicFilterList;
    actions := [];
    for i := 0 to |fl|
      invariant |actions| == i
      invariant forall k :: 0 <= k < i ==> actions[k] == SubTopic(fl[k].filterName)
    {
      actions := actions + [SubTopic(fl[i].filterName)];
    }
    actions := actions + [SendRES(SubackFor(sp))];
  }

  /** The SUBACK frames as one packet whose length field counts the identifier
   *  and the codes: reading it back gives type 0x90 and `MsgLen` 2 + n, and
   *  its body is the identifier followed by n zeros. */
  lemma SubackFrames(sp: Packet)
    requires sp.Subscribe? && 2 + |sp.topicFilterList| <= MaxLength
    ensures var reply := SubackFor(sp);
      var pid := sp.packetIdentifier;
      && PackProto(reply) == Ok([SUBACK] + Code(2 + |sp.topicFilterList|) + [pid.msb, pid.lsb] + Zeros(|sp.topicFilterList|))
      && UnPackFixed(PackProto(reply).value)
         == Ok((Fixed(SUBACK, 2 + |sp.topicFilterList|, [pid.msb, pid.lsb] + Zeros(|sp.topicFilterList|)),
                |PackProto(reply).value|))
  {
    var reply := SubackFor(sp);
    var n := |sp.topicFilterList|;
    var pid := sp.packetIdentifier;
    assert reply.header.msgLen == 2 + n == BodyLength(reply);
    PackedFramesRead(reply);
    var bytes := PackProto(reply).value;
    assert bytes == [SUBACK] + Code(2 + n) + ([pid.msb, pid.lsb] + Zeros(n));
    assert bytes[|bytes| - (2 + n)..] == [pid.msb, pid.lsb] + Zeros(n);
  }

  /** The UNSUBACK of `UNSUBSCRIBERouter`: `MsgLen` 2 and the echoed identifier. */
  function UnsubackFor(sp: Packet): (p: Packet)
    requires sp.Unsubscribe?
    ensures p.Unsuback? && WellTyped(p) && p.packetIdentifier == sp.packetIdentifier
  {
    Unsuback(Header(UNSUBACK, 2), sp.packetIdentifier, 0)
  }

  /** `UNSUBSCRIBERouter`: unsubscribe every filter in order, then reply UNSUBACK. */
  method HandleUNSUBSCRIBE(sp: Packet) returns (actions: seq<Action>)
    requires sp.Unsubscribe?
    ensures var fl := sp.topicFilterList;
      && |actions| == |fl| + 1
      && (forall i :: 0 <= i < |fl| ==> actions[i] == UnSubTopic(fl[i].filterName))
      && actions[|fl|] == SendRES(UnsubackFor(sp))
  {
    var fl := sp.topicFilterList;
    actions := [];
    for i := 0 to |fl|
      invariant |actions| == i
      invariant forall k :: 0 <= k < i ==> actions[k] == UnSubTopic(fl[k].filterName)
    {
      actions := actions + [UnSubTopic(fl[i].filterName)];
    }
    actions := actions + [SendRES(UnsubackFor(sp))];
  }

  /** The UNSUBACK is the four bytes `[0xB0, 2, msb, lsb]`. */
  lemma UnsubackBytes(sp: Packet)
    requires sp.Unsubscribe?
    ensures PackProto(UnsubackFor(sp)) == Ok([UNSUBACK, 2, sp.packetIdentifier.msb, sp.packetIdentifier.lsb])
  {
    var pid := sp.packetIdentifier;
    CodeSmall(2);
    assert Head(UnsubackFor(sp).header) == [UNSUBACK, 2];
    assert [UNSUBACK, 2] + [pid.msb, pid.lsb] == [UNSUBACK, 2, pid.msb, pid.lsb];
  }

  /** `PUBLISHRouter`: hand the packet to the pool, store it when it is
   *  retained, then act on the QoS: PUBACK for 1; for 2, stop a connection
   *  that reuses an in-flight identifier, and in any case record the
   *  identifier and reply PUBREC; nothing for other levels. */
  function HandlePUBLISH(sp: Packet, qos2: set<nat>): (r: Outcome)
    requires sp.Publish?
    ensures |r.actions| >= 1 && r.actions[0] == MsgInPool(sp)
    ensures SetRetainMsg(sp.topicName, sp.payload) in r.actions <==> sp.retain
    ensures ConnStop in r.actions <==> sp.qos == QoS2 && sp.msgId in qos2
    ensures Replies(r.actions) == (if sp.qos == QoS1 then [AckPacket(PUBACK, sp.packetIdentifier, 0)]
                                   else if sp.qos == QoS2 then [AckPacket(PUBREC, sp.packetIdentifier, sp.msgId)]
                                   else [])
    ensures r.qos2 == (if sp.qos == QoS2 then qos2 + {sp.msgId} else qos2)
  {
    var pool := PoolActions(sp);
    if sp.qos == QoS1 then
      var reply := [SendRES(AckPacket(PUBACK, sp.packetIdentifier, 0))];
      AfterPool(sp, [], reply);
      Outcome(qos2, pool + [] + reply)
    else if sp.qos == QoS2 then
      var stop := if sp.msgId in qos2 then [ConnStop] else [];
      var reply := [SendRES(AckPacket(PUBREC, sp.packetIdentifier, sp.msgId))];
      AfterPool(sp, stop, reply);
      Outcome(qos2 + {sp.msgId}, pool + stop + reply)
    else
      AfterPool(sp, [], []);
      Outcome(qos2, pool + [] + [])
  }

  /** The first actions of `PUBLISHRouter`: the pool, then the retained store if the packet is retained. */
  function PoolActions(sp: Packet): (r: seq<Action>)
    requires sp.Publish?
    ensures |r| >= 1 && r[0] == MsgInPool(sp) && ConnStop !in r
    ensures SetRetainMsg(sp.topicName, sp.payload) in r <==> sp.retain
  {
    [MsgInPool(sp)] + (if sp.retain then [SetRetainMsg(sp.topicName, sp.payload)] else [])
  }

  /** What follows the pool: an optional stop and at most one reply, which is
   *  then the only packet sent. */
  lemma AfterPool(sp: Packet, stop: seq<Action>, reply: seq<Action>)
    requires sp.Publish? && (stop == [] || stop == [ConnStop])
    requires reply == [] || (|reply| == 1 && reply[0].SendRES?)
    ensures var all := PoolActions(sp) + stop + reply;
      && |all| >= 1 && all[0] == MsgInPool(sp)
      && (SetRetainMsg(sp.topicName, sp.payload) in all <==> sp.retain)
      && (ConnStop in all <==> stop != [])
      && Replies(all) == (if reply == [] then [] else [reply[0].reply])
  {
    var pool := PoolActions(sp);
    PoolSendsNothing(sp);
    RepliesAppend(pool, stop);
    RepliesAppend(pool + stop, reply);
    StopSendsNothing(stop);
    if reply != [] {
      ReplySends(reply[0]);
    }
  }

  lemma PoolSendsNothing(sp: Packet)
    requires sp.Publish?
    ensures Replies(PoolActions(sp)) == []
  {
    if sp.retain {
      assert PoolActions(sp)[..1] == [MsgInPool(sp)];
    }
  }

  lemma StopSendsNothing(stop: seq<Action>)
    requires stop == [] || stop == [ConnStop]
    ensures Replies(stop) == []
  {
    if stop != [] {
      assert stop[..0] == [];
    }
  }

  lemma ReplySends(a: Action)
    requires a.SendRES?
    ensures Replies([a]) == [a.reply]
  {
    assert [a][..0] == [];
  }

  /** `PUBRELRouter`: release the identifier, then reply PUBCOMP. */
  function HandlePUBREL(sp: Packet, qos2: set<nat>): (r: Outcome)
    requires sp.Pubrel?
    ensures r.qos2 == qos2 - {sp.msgId}
    ensures Replies(r.actions) == [AckPacket(PUBCOMP, sp.packetIdentifier, sp.msgId)]
    ensures ConnStop !in r.actions
  {
    var actions := [SendRES(AckPacket(PUBCOMP, sp.packetIdentifier, sp.msgId))];
    assert actions[..0] == [];
    Outcome(qos2 - {sp.msgId}, actions)
  }

  /** `PUBRECRouter`: reply PUBREL. */
  function HandlePUBREC(sp: Packet): (r: seq<Action>)
    requires sp.Pubrec?
    ensures Replies(r) == [AckPacket(PUBREL, sp.packetIdentifier, sp.msgId)] && ConnStop !in r
  {
    var actions := [SendRES(AckPacket(PUBREL, sp.packetIdentifier, sp.msgId))];
    assert actions[..0] == [];
    actions
  }

  /** Every acknowledgement a handler sends is the four bytes `[flag, 2, msb,
   *  lsb]`, one whole frame, and the server's own decoder reads it back as
   *  the same kind of packet with the same identifier and `MsgId` the
   *  big-endian value of that identifier. */
  lemma AckRoundTrip(flag: byte, pid: Pid, msgId: nat)
    requires flag in {PUBACK, PUBREC, PUBREL, PUBCOMP}
    ensures var reply := AckPacket(flag, pid, msgId);
      && WellTyped(reply) && PackProto(reply) == Ok([flag, 2, pid.msb, pid.lsb])
      && UnPackFixed([flag, 2, pid.msb, pid.lsb]) == Ok((Fixed(flag, 2, [pid.msb, pid.lsb]), 4))
      && GetProtoByFixed(Fixed(flag, 2, [pid.msb, pid.lsb]))
         == Returns(Ok(AckPacket(flag, pid, BE16(pid.msb, pid.lsb))))
  {
    var reply := AckPacket(flag, pid, msgId);
    CodeSmall(2);
    assert Head(reply.header) == [flag, 2];
    assert StructureFor(flag, reply);
    assert PackIdentifier(reply, flag) == Ok(Head(reply.header) + [pid.msb, pid.lsb]);
    assert [flag, 2] + [pid.msb, pid.lsb] == [flag, 2, pid.msb, pid.lsb];
    assert PackIdentifier(reply, flag) == Ok([flag, 2, pid.msb, pid.lsb]);
    assert PackProto(reply) == PackIdentifier(reply, flag);
    AckFrameRead(flag, pid);
  }

  /** The four bytes of an acknowledgement read back as one frame. */
  lemma AckFrameRead(flag: byte, pid: Pid)
    requires flag != 0
    ensures UnPackFixed([flag, 2, pid.msb, pid.lsb]) == Ok((Fixed(flag, 2, [pid.msb, pid.lsb]), 4))
  {
    CodeSmall(2);
    FrameRoundTrip(flag, [pid.msb, pid.lsb], []);
    assert Frame(flag, [pid.msb, pid.lsb]) + [] == [flag, 2, pid.msb, pid.lsb];
  }

  /** The QoS 2 exchange: a PUBLISH with a fresh identifier records it and is
   *  answered PUBREC; the PUBREL for the same identifier gives back the set
   *  there was before and is answered PUBCOMP, both echoing the identifier. */
  lemma Qos2Handshake(sp: Packet, pid: Pid, s: set<nat>)
    requires sp.Publish? && sp.qos == QoS2 && sp.msgId !in s
    ensures var pub := HandlePUBLISH(sp, s);
      var rel := HandlePUBREL(Pubrel(Header(PUBREL, 2), pid, sp.msgId), pub.qos2);
      && sp.msgId in pub.qos2 && ConnStop !in pub.actions
      && Replies(pub.actions) == [AckPacket(PUBREC, sp.packetIdentifier, sp.msgId)]
      && rel.qos2 == s
      && Replies(rel.actions) == [AckPacket(PUBCOMP, pid, sp.msgId)]
  {
    assert s + {sp.msgId} - {sp.msgId} == s;
  }

  /** A QoS 2 PUBLISH that reuses an in-flight identifier asks for the
   *  connection to stop but goes on: the set keeps the identifier and the
   *  PUBREC is still sent, after the stop. */
  lemma Qos2DuplicateGoesOn(sp: Packet, s: set<nat>)
    requires sp.Publish? && sp.qos == QoS2 && sp.msgId in s
    ensures var pub := HandlePUBLISH(sp, s);
      && pub.qos2 == s
      && pub.actions[|pub.actions| - 2] == ConnStop
      && pub.actions[|pub.actions| - 1] == SendRES(AckPacket(PUBREC, sp.packetIdentifier, sp.msgId))
  {
  }
}
