/**
 * The MQTT 5.0 packets of `mqtt5/proto` other than CONNECT and DISCONNECT:
 * their constructors, `Pack` and `UnPack`. A Go `UnPack` writes fields of the
 * structure it is called on and returns an error; here it maps the structure
 * to the updated structure and whether an error was returned, or to a panic.
 * `Fixed.Data` is the buffer `unPackFixed` allocated, so its capacity is its
 * length and a slice `Data[i:]` panics exactly when `i` exceeds that length.
 */
module Packets5 {
  import opened Bytes
  import opened RemainingLength
  import opened FixedHeader
  import opened LengthPrefixed
  import opened FilterList
  import opened Proto5
  import Pack311

  // ---------------------------------------------------------------- shared pieces

  /** A property-length field and the property bytes it announces, skipped as
   *  the PUBLISH, SUBSCRIBE and UNSUBSCRIBE decoders skip them: the length
   *  read and what comes after the block. */
  function SkipProperties(bs: seq<byte>): (r: Run<(nat, seq<byte>)>)
    ensures !r.Diverges?
    ensures r.Returns? ==> |r.value.1| + 1 + r.value.0 <= |bs| && r.value.1 == bs[|bs| - |r.value.1|..]
    ensures UnPackPropertyLength(bs).Panics? ==> r.Panics?
  {
    var field := UnPackPropertyLength(bs);
    if !field.Returns? then Panics
    else
      var (pl, rest) := field.value;
      if pl == 0 then Returns((0, rest))
      else if pl > |rest| then Panics
      else Returns((pl, rest[pl..]))
  }

  /** An encoded property length followed by that many bytes is skipped whole,
   *  whatever follows it. */
  lemma SkipEncodedProperties(props: seq<byte>, rest: seq<byte>)
    requires |props| <= MaxLength
    ensures SkipProperties(Code(|props|) + props + rest) == Returns((|props|, rest))
  {
    assert Code(|props|) + props + rest == Code(|props|) + (props + rest);
    PropertyLengthEncoded(|props|, props + rest);
    assert (props + rest)[|props|..] == rest;
  }

  /** A property block shorter than its announced length makes the decoders panic. */
  lemma SkipShortProperties(pl: nat, short: seq<byte>)
    requires |short| < pl <= MaxLength
    ensures SkipProperties(Code(pl) + short) == Panics
  {
    PropertyLengthEncoded(pl, short);
  }

  // ---------------------------------------------------------------- CONNACK

  /** `NewCONNACKProtocol(code)`: remaining length 2, no flags, no properties. */
  function NewConnack(code: byte): (p: Connack)
  {
    Connack(Fixed(CONNACK, 2, []), 0, code, 0)
  }

  /** `NewCONNACKProtocolF`: the header read, every field zero. */
  function NewConnackF(f: Fixed): (p: Connack)
  {
    Connack(f, 0, 0, 0)
  }

  /** `CONNACKProtocol.Pack`: header byte, remaining length, flags and code. */
  function PackConnack(p: Connack): (r: seq<byte>)
    ensures |r| == 1 + |Code(p.fixed.msgLen)| + 2 && r[0] == p.fixed.headerFlag
    ensures r[|r| - 2] == p.connectAcknowledgeFlags && r[|r| - 1] == p.connectReturncode
  {
    [p.fixed.headerFlag] + Code(p.fixed.msgLen) + [p.connectAcknowledgeFlags, p.connectReturncode]
  }

  /** `CONNACKProtocol.UnPack`: fewer than two bytes announced is an error;
   *  otherwise flags and code are read, and any code but `Success` is an error. */
  function UnPackConnack(p: Connack): (r: Run<(Connack, bool)>)
    ensures !r.Diverges?
    ensures p.fixed.msgLen < 2 ==> r == Returns((p, true))
    ensures p.fixed.msgLen >= 2 ==> (r.Panics? <==> |p.fixed.data| < 2)
    ensures p.fixed.msgLen >= 2 && r.Returns? ==>
      r.value.0 == p.(connectAcknowledgeFlags := p.fixed.data[0], connectReturncode := p.fixed.data[1])
      && (r.value.1 <==> p.fixed.data[1] != Success)
  {
    var d := p.fixed.data;
    if p.fixed.msgLen < 2 then Returns((p, true))
    else if |d| < 2 then Panics
    else
      var q := p.(connectAcknowledgeFlags := d[0], connectReturncode := d[1]);
      Returns((q, q.connectReturncode != Success))
  }

  /** `packCONNACK(code)` writes exactly four bytes; reading them back gives a
   *  CONNACK whose code is `code`, and the read reports an error exactly for a
   *  refusal. */
  lemma ConnackRoundTrip(code: byte)
    ensures PackConnack(NewConnack(code)) == [CONNACK, 2, 0, code]
    ensures UnPackFixed(PackConnack(NewConnack(code))) == Ok((Fixed(CONNACK, 2, [0, code]), 4))
    ensures UnPackConnack(NewConnackF(Fixed(CONNACK, 2, [0, code])))
            == Returns((Connack(Fixed(CONNACK, 2, [0, code]), 0, code, 0), code != Success))
  {
    CodeSmall(2);
    FrameRoundTrip(CONNACK, [0, code], []);
    assert Frame(CONNACK, [0, code]) + [] == PackConnack(NewConnack(code));
  }

  // ---------------------------------------------------------------- PUBLISH

  /** `NewPUBLISHProtocol`: every field zero, QoS 0, not retained, `Success`. */
  function NewPublish(f: Fixed): (p: Publish)
  {
    Publish(f, 0, [], Pid(0, 0), 0, 0, [], QoS0, false, Success)
  }

  /** The QoS the 5.0 decoder assigns to a PUBLISH header byte: 0x34 is the
   *  only QoS 2 flag, and every other flag past 0x33 falls to the default
   *  branch, which says QoS 1. */
  function PublishQos(flag: byte): (q: byte)
    ensures flag == 0x30 || flag == 0x31 ==> q == QoS0
    ensures flag == 0x32 || flag == 0x33 ==> q == QoS1
    ensures flag == 0x34 ==> q == QoS2
    ensures 0x35 <= flag <= 0x3D ==> q == QoS1
  {
    if flag == PUBLISH || flag == PUBLISH31 then QoS0
    else if flag == PUBLISH34 then QoS2
    else QoS1
  }

  function PublishRetain(flag: byte): (b: bool)
    ensures b <==> flag == 0x31 || flag == 0x33
  {
    flag == PUBLISH31 || flag == PUBLISH33
  }

  /** The two decoders disagree on the nine header bytes 0x35 to 0x3D: QoS 1
   *  in 5.0, QoS 2 in 3.1.1, and they agree on 0x30 to 0x34. */
  lemma QosDisagreement(flag: byte)
    requires PUBLISH <= flag <= PUBLISHMAX
    ensures PublishQos(flag) != Pack311.PublishQos(flag) <==> 0x35 <= flag <= 0x3D
    ensures 0x35 <= flag ==> PublishQos(flag) == QoS1 && Pack311.PublishQos(flag) == QoS2
  {
  }

  /** `PUBLISHProtocol.UnPack`. Fewer than five bytes announced is an error
   *  with `Malformed_Packet`. Otherwise the topic length and topic are read
   *  with `uint16` cursors; 0x30 and 0x31 go straight to the properties, every
   *  other flag first reads an identifier; the property block is skipped and
   *  the rest is the payload. */
  function UnPackPublish(p: Publish): (r: Run<(Publish, bool)>)
    ensures !r.Diverges?
    ensures p.fixed.msgLen < 5 ==> r == Returns((p.(ackCode := Malformed_Packet), true))
    ensures p.fixed.msgLen >= 5 && |p.fixed.data| < 2 ==> r.Panics?
    ensures p.fixed.msgLen >= 5 && |p.fixed.data| >= 2 && |p.fixed.data| < 2 + BE16(p.fixed.data[0], p.fixed.data[1])
            ==> r.Panics?
  {
    var d := p.fixed.data;
    var flag := p.fixed.headerFlag;
    if p.fixed.msgLen < 5 then Returns((p.(ackCode := Malformed_Packet), true))
    else if |d| < 2 then Panics
    else
      var tnl := BE16(d[0], d[1]);
      var e := Add16(2, tnl);
      if e < 2 || e > |d| then Panics
      else
        var named := Named(p, tnl, d[2..e]);
        if flag == PUBLISH || flag == PUBLISH31 then PublishRest(named, d[e..])
        else PublishIdentified(named, d, e)
  }

  /** A PUBLISH that decodes has its topic length from the first two bytes and
   *  its topic after them, the QoS of its header byte, a retain flag set by
   *  0x31 and 0x33 and otherwise left as it was, and no error. */
  lemma PublishReadsTopic(p: Publish)
    requires p.fixed.msgLen >= 5 && UnPackPublish(p).Returns?
    ensures var q := UnPackPublish(p).value.0; var d := p.fixed.data;
      && !UnPackPublish(p).value.1 && q.fixed == p.fixed && q.ackCode == p.ackCode
      && |d| >= 2 + q.topicNameLength && q.topicNameLength == BE16(d[0], d[1])
      && q.topicName == d[2..2 + q.topicNameLength]
      && q.qos == PublishQos(p.fixed.headerFlag) && (q.retain <==> p.retain || PublishRetain(p.fixed.headerFlag))
  {
  }

  /** Under 0x30 and 0x31 the identifier is left as it was and everything after
   *  the topic is the property block and the payload. */
  lemma PublishReadsNoIdentifier(p: Publish)
    requires p.fixed.msgLen >= 5 && UnPackPublish(p).Returns? && p.fixed.headerFlag in {PUBLISH, PUBLISH31}
    ensures var q := UnPackPublish(p).value.0;
      2 + q.topicNameLength <= |p.fixed.data|
      && q.packetIdentifier == p.packetIdentifier && q.msgId == p.msgId
      && SkipProperties(p.fixed.data[2 + q.topicNameLength..]) == Returns((q.propertiesLength, q.payload))
  {
  }

  /** Under every other header byte the two bytes after the topic are the
   *  identifier and the id, and the property block and payload follow them. */
  lemma PublishReadsIdentifier(p: Publish)
    requires p.fixed.msgLen >= 5 && UnPackPublish(p).Returns? && !(p.fixed.headerFlag in {PUBLISH, PUBLISH31})
    requires |p.fixed.data| >= 2 && BE16(p.fixed.data[0], p.fixed.data[1]) < 0xFFFC
    ensures var q := UnPackPublish(p).value.0; var d := p.fixed.data; var e := 2 + q.topicNameLength;
      e + 2 <= |d| && q.packetIdentifier == Pid(d[e], d[e + 1]) && q.msgId == BE16(d[e], d[e + 1])
      && SkipProperties(d[e + 2..]) == Returns((q.propertiesLength, q.payload))
  {
    var d := p.fixed.data;
    var tnl := BE16(d[0], d[1]);
    assert Add16(2, tnl) == 2 + tnl;
    assert UnPackPublish(p) == PublishIdentified(Named(p, tnl, d[2..2 + tnl]), d, 2 + tnl);
  }

  /** The fields every branch writes: topic length, topic and QoS. Only 0x31
   *  and 0x33 touch the retain flag, and then they set it; every other header
   *  byte leaves it as it was. */
  function Named(p: Publish, tnl: nat, topic: seq<byte>): (q: Publish)
  {
    p.(topicNameLength := tnl, topicName := topic,
       qos := PublishQos(p.fixed.headerFlag), retain := p.retain || PublishRetain(p.fixed.headerFlag))
  }

  /** Once a length-prefixed topic has been read, the decoder continues in the
   *  branch its header byte selects. */
  lemma PublishTopicRead(p: Publish, topic: seq<byte>, after: seq<byte>)
    requires p.fixed.msgLen >= 5 && |topic| < 0xFFFC && p.fixed.data == Prefixed(topic) + after
    ensures p.fixed.headerFlag in {PUBLISH, PUBLISH31} ==>
      UnPackPublish(p) == PublishRest(Named(p, |topic|, topic), after)
    ensures !(p.fixed.headerFlag in {PUBLISH, PUBLISH31}) ==>
      UnPackPublish(p) == PublishIdentified(Named(p, |topic|, topic), p.fixed.data, 2 + |topic|)
  {
    var d := p.fixed.data;
    assert BE16(d[0], d[1]) == |topic|;
    assert d[2..2 + |topic|] == topic;
    assert d[2 + |topic|..] == after;
  }

  /** The end of the 0x30/0x31 branches: property block and payload. */
  function PublishRest(q: Publish, after: seq<byte>): (r: Run<(Publish, bool)>)
    ensures !r.Diverges? && (r.Returns? <==> SkipProperties(after).Returns?)
    ensures r.Returns? ==>
      && !r.value.1
      && r.value.0 == q.(propertiesLength := r.value.0.propertiesLength, payload := r.value.0.payload)
      && SkipProperties(after) == Returns((r.value.0.propertiesLength, r.value.0.payload))
  {
    var body := SkipProperties(after);
    if !body.Returns? then Panics
    else Returns((q.(propertiesLength := body.value.0, payload := body.value.1), false))
  }

  /** The other branches: the identifier at the `uint16` cursor `e`, then the
   *  property block and payload after it. */
  function PublishIdentified(q: Publish, d: seq<byte>, e: nat): (r: Run<(Publish, bool)>)
    requires 2 <= e <= |d|
    ensures !r.Diverges?
    ensures r.Returns? && e + 2 < 0x1_0000 ==>
      && !r.value.1 && e + 2 <= |d|
      && r.value.0 == q.(packetIdentifier := Pid(d[e], d[e + 1]), msgId := BE16(d[e], d[e + 1]),
                         propertiesLength := r.value.0.propertiesLength, payload := r.value.0.payload)
      && SkipProperties(d[e + 2..]) == Returns((r.value.0.propertiesLength, r.value.0.payload))
    ensures e + 2 <= |d| && e + 2 < 0x1_0000 ==> (r.Returns? <==> SkipProperties(d[e + 2..]).Returns?)
  {
    if e >= |d| || Add16(e, 1) >= |d| || Add16(e, 2) > |d| then Panics
    else
      var pid := Pid(d[e], d[Add16(e, 1)]);
      var body := SkipProperties(d[Add16(e, 2)..]);
      if !body.Returns? then Panics
      else Returns((q.(packetIdentifier := pid, msgId := BE16(pid.msb, pid.lsb),
                       propertiesLength := body.value.0, payload := body.value.1), false))
  }

  /** The fields Go declares as `uint16` and `uint32` fit their types. */
  predicate PublishWellTyped(p: Publish)
  {
    p.fixed.msgLen < 0x1_0000_0000 && p.topicNameLength < 0x1_0000 && p.msgId < 0x1_0000
    && p.propertiesLength < 0x1_0000_0000
  }

  /** `PUBLISHProtocol.Pack`: topic with its length, the identifier only above
   *  QoS 0, the property length (no properties), the payload. */
  function PackPublish(p: Publish): (r: seq<byte>)
    requires PublishWellTyped(p)
    ensures |r| == 1 + |Code(p.fixed.msgLen)| + 2 + |p.topicName| + (if p.qos > QoS0 then 2 else 0)
                   + |Code(p.propertiesLength)| + |p.payload|
    ensures r[0] == p.fixed.headerFlag && r[|r| - |p.payload|..] == p.payload
  {
    [p.fixed.headerFlag] + Code(p.fixed.msgLen) + Int16ToByBig(p.topicNameLength) + p.topicName
    + (if p.qos > QoS0 then Int16ToByBig(p.msgId) else []) + Code(p.propertiesLength) + p.payload
  }

  /** The variable header and payload of a PUBLISH as a client lays them out:
   *  topic, identifier bytes, property block, payload. */
  function PublishBody(topic: seq<byte>, idBytes: seq<byte>, props: seq<byte>, payload: seq<byte>): seq<byte>
    requires |topic| < 0x1_0000
  {
    Prefixed(topic) + idBytes + Code(|props|) + props + payload
  }

  /** The decoder reads out of such a body the topic, the identifier exactly
   *  when the header byte calls for one, the property length, and the payload
   *  with the property block skipped. */
  lemma PublishBodyDecodes(flag: byte, topic: seq<byte>, idBytes: seq<byte>, props: seq<byte>, payload: seq<byte>)
    requires PUBLISH <= flag <= PUBLISHMAX && |topic| < 0xFFFC && |props| <= MaxLength
    requires |idBytes| == (if flag in {PUBLISH, PUBLISH31} then 0 else 2)
    requires |PublishBody(topic, idBytes, props, payload)| >= 5
    ensures var body := PublishBody(topic, idBytes, props, payload);
      var d := UnPackPublish(NewPublish(Fixed(flag, |body|, body)));
      d.Returns? && !d.value.1 && d.value.0.topicName == topic && d.value.0.payload == payload
      && d.value.0.propertiesLength == |props|
      && d.value.0.qos == PublishQos(flag) && d.value.0.retain == PublishRetain(flag)
      && (|idBytes| == 2 ==> d.value.0.msgId == BE16(idBytes[0], idBytes[1]))
  {
    if |idBytes| == 2 {
      PublishBodyIdentified(flag, topic, idBytes, props, payload);
    } else {
      assert idBytes == [];
      PublishBodyPlain(flag, topic, props, payload);
    }
  }

  /** `PublishBodyDecodes` under 0x30 and 0x31, which carry no identifier. */
  lemma PublishBodyPlain(flag: byte, topic: seq<byte>, props: seq<byte>, payload: seq<byte>)
    requires flag in {PUBLISH, PUBLISH31} && |topic| < 0xFFFC && |props| <= MaxLength
    requires |PublishBody(topic, [], props, payload)| >= 5
    ensures var body := PublishBody(topic, [], props, payload);
      var d := UnPackPublish(NewPublish(Fixed(flag, |body|, body)));
      d.Returns? && !d.value.1 && d.value.0.topicName == topic && d.value.0.payload == payload
      && d.value.0.propertiesLength == |props|
      && d.value.0.qos == PublishQos(flag) && d.value.0.retain == PublishRetain(flag)
  {
    var body := PublishBody(topic, [], props, payload);
    var p := NewPublish(Fixed(flag, |body|, body));
    var after := Code(|props|) + props + payload;
    assert Prefixed(topic) + [] == Prefixed(topic);
    AppendAssoc(Prefixed(topic), Code(|props|), props);
    AppendAssoc(Prefixed(topic), Code(|props|) + props, payload);
    assert body == Prefixed(topic) + after;
    PublishTopicRead(p, topic, after);
    SkipEncodedProperties(props, payload);
    assert UnPackPublish(p) == PublishRest(Named(p, |topic|, topic), after);
  }

  /** `PublishBodyDecodes` under the header bytes that carry an identifier. */
  lemma PublishBodyIdentified(flag: byte, topic: seq<byte>, idBytes: seq<byte>, props: seq<byte>, payload: seq<byte>)
    requires PUBLISH <= flag <= PUBLISHMAX && !(flag in {PUBLISH, PUBLISH31})
    requires |topic| < 0xFFFC && |props| <= MaxLength && |idBytes| == 2
    requires |PublishBody(topic, idBytes, props, payload)| >= 5
    ensures var body := PublishBody(topic, idBytes, props, payload);
      var d := UnPackPublish(NewPublish(Fixed(flag, |body|, body)));
      d.Returns? && !d.value.1 && d.value.0.topicName == topic && d.value.0.payload == payload
      && d.value.0.propertiesLength == |props|
      && d.value.0.qos == PublishQos(flag) && d.value.0.retain == PublishRetain(flag)
      && d.value.0.msgId == BE16(idBytes[0], idBytes[1])
  {
    var body := PublishBody(topic, idBytes, props, payload);
    var p := NewPublish(Fixed(flag, |body|, body));
    var after := Code(|props|) + props + payload;
    AppendAssoc(Prefixed(topic) + idBytes, Code(|props|), props);
    AppendAssoc(Prefixed(topic) + idBytes, Code(|props|) + props, payload);
    AppendAssoc(Prefixed(topic), idBytes, after);
    assert body == Prefixed(topic) + (idBytes + after);
    var q := Named(p, |topic|, topic);
    PublishTopicRead(p, topic, idBytes + after);
    SkipEncodedProperties(props, payload);
    IdentifiedRead(q, topic, idBytes, after);
    assert UnPackPublish(p) == PublishIdentified(q, body, 2 + |topic|);
  }

  /** The identifier right after the topic is read, then the bytes after it. */
  lemma IdentifiedRead(q: Publish, topic: seq<byte>, idBytes: seq<byte>, after: seq<byte>)
    requires |topic| < 0xFFFC && |idBytes| == 2
    ensures var d := Prefixed(topic) + (idBytes + after);
      PublishIdentified(q, d, 2 + |topic|).Returns? <==> SkipProperties(after).Returns?
    ensures var d := Prefixed(topic) + (idBytes + after);
      PublishIdentified(q, d, 2 + |topic|).Returns? ==>
      PublishIdentified(q, d, 2 + |topic|).value.0.msgId == BE16(idBytes[0], idBytes[1])
      && SkipProperties(after) == Returns((PublishIdentified(q, d, 2 + |topic|).value.0.propertiesLength,
                                           PublishIdentified(q, d, 2 + |topic|).value.0.payload))
  {
    var d := Prefixed(topic) + (idBytes + after);
    assert d[2 + |topic|] == idBytes[0] && d[2 + |topic| + 1] == idBytes[1];
    assert d[2 + |topic| + 2..] == after;
  }

  /** `Pack` lays out a single frame around the PUBLISH body when the structure
   *  carries no property length and `MsgLen` counts the body. */
  lemma PackPublishIsFrame(p: Publish)
    requires PublishWellTyped(p) && p.topicNameLength == |p.topicName| && p.propertiesLength == 0
    requires p.fixed.msgLen == 2 + |p.topicName| + (if p.qos > QoS0 then 2 else 0) + 1 + |p.payload|
    ensures var idBytes := if p.qos > QoS0 then Int16ToByBig(p.msgId) else [];
      PackPublish(p) == Frame(p.fixed.headerFlag, PublishBody(p.topicName, idBytes, [], p.payload))
  {
    var idBytes := if p.qos > QoS0 then Int16ToByBig(p.msgId) else [];
    CodeSmall(0);
    var a := [p.fixed.headerFlag] + Code(p.fixed.msgLen);
    var n, t, c, d := Int16ToByBig(p.topicNameLength), p.topicName, Code(0), p.payload;
    var body := PublishBody(p.topicName, idBytes, [], p.payload);
    assert n + t == Prefixed(p.topicName);
    assert body == n + t + idBytes + c + [] + d;
    assert n + t + idBytes + c + [] == n + t + idBytes + c;
    assert |body| == p.fixed.msgLen;
    AppendAssoc(a, n, t);
    AppendAssoc(a, n + t, idBytes);
    AppendAssoc(a, n + t + idBytes, c);
    AppendAssoc(a, n + t + idBytes + c, d);
  }

  /** Decoding what `Pack` wrote recovers the topic, the payload and, above
   *  QoS 0, the message id, whenever the header byte agrees with the QoS, the
   *  structure carries no property length and `MsgLen` counts the body. */
  lemma PublishRoundTrip(p: Publish)
    requires PublishWellTyped(p) && PUBLISH <= p.fixed.headerFlag <= PUBLISHMAX
    requires p.topicNameLength == |p.topicName| < 0xFFFC && p.propertiesLength == 0
    requires p.qos == QoS0 <==> p.fixed.headerFlag in {PUBLISH, PUBLISH31}
    requires p.fixed.msgLen == 2 + |p.topicName| + (if p.qos > QoS0 then 2 else 0) + 1 + |p.payload|
    requires 5 <= p.fixed.msgLen <= MaxLength
    ensures var bytes := PackPublish(p);
      UnPackFixed(bytes).Ok? && UnPackFixed(bytes).value.1 == |bytes|
      && var d := UnPackPublish(NewPublish(UnPackFixed(bytes).value.0));
      d.Returns? && !d.value.1 && d.value.0.topicName == p.topicName && d.value.0.payload == p.payload
      && d.value.0.qos == PublishQos(p.fixed.headerFlag) && d.value.0.retain == PublishRetain(p.fixed.headerFlag)
      && (p.qos > QoS0 ==> d.value.0.msgId == p.msgId)
  {
    var flag := p.fixed.headerFlag;
    var idBytes := if p.qos > QoS0 then Int16ToByBig(p.msgId) else [];
    var body := PublishBody(p.topicName, idBytes, [], p.payload);
    PackPublishIsFrame(p);
    FrameRoundTrip(flag, body, []);
    assert Frame(flag, body) + [] == Frame(flag, body);
    PublishBodyDecodes(flag, p.topicName, idBytes, [], p.payload);
  }

  // ---------------------------------------------------------------- PUBACK, PUBREC, PUBREL, PUBCOMP

  /** The packets whose Go structure has its own `AckCode` field; PUBACK and
   *  PUBREC answer `Success` through the embedded header. */
  predicate HasAckCode(flag: byte)
  {
    flag == PUBREL || flag == PUBCOMP
  }

  /** `NewPUBACKProtocol`, `NewPUBRECProtocol` and `NewPUBCOMPProtocol`: an
   *  outgoing acknowledgement of remaining length 4 (PUBREL has no such constructor). */
  function NewAck(flag: byte, pid: Pid, rc: byte): (p: Ack)
    requires flag in {PUBACK, PUBREC, PUBCOMP}
  {
    Ack(Fixed(flag, 4, []), pid, 0, rc, 0, Success)
  }

  /** `NewPUBACKProtocolF`, `NewPUBRECProtocolF`, `NewPUBRELProtocol` and
   *  `NewPUBCOMPProtocolF`: the identifier is taken from the first two bytes
   *  at once, so fewer than two bytes panic before `UnPack` is reached. */
  function NewAckF(f: Fixed): (r: Run<Ack>)
    ensures !r.Diverges? && (r.Panics? <==> |f.data| < 2)
    ensures r.Returns? ==> r.value.fixed == f && r.value.packetIdentifier == Pid(f.data[0], f.data[1])
  {
    if |f.data| < 2 then Panics else Returns(Ack(f, Pid(f.data[0], f.data[1]), 0, 0, 0, Success))
  }

  /** `UnPack` of the four acknowledgements: fewer than three bytes announced is
   *  an error (with `Malformed_Packet` where the structure has an `AckCode`);
   *  otherwise the id comes from the identifier, the reason code from the third
   *  byte and, past three bytes, the property length from the fourth on. */
  function UnPackAck(p: Ack): (r: Run<(Ack, bool)>)
    ensures !r.Diverges?
    ensures p.fixed.msgLen < 3 ==>
      r == Returns((if HasAckCode(p.fixed.headerFlag) then p.(ackCode := Malformed_Packet) else p, true))
    ensures p.fixed.msgLen >= 3 ==>
      (r.Panics? <==> |p.fixed.data| < 3 || (p.fixed.msgLen > 3 && UnPackPropertyLength(p.fixed.data[3..]).Panics?))
    ensures p.fixed.msgLen >= 3 && r.Returns? ==>
      var q := r.value.0;
      !r.value.1 && q.msgId == BE16(p.packetIdentifier.msb, p.packetIdentifier.lsb)
      && q.reasonCode == p.fixed.data[2]
      && q.propertiesLength == (if p.fixed.msgLen > 3 then UnPackPropertyLength(p.fixed.data[3..]).value.0
                                else p.propertiesLength)
      && q.fixed == p.fixed && q.packetIdentifier == p.packetIdentifier && q.ackCode == p.ackCode
  {
    var d := p.fixed.data;
    if p.fixed.msgLen < 3 then
      Returns((if HasAckCode(p.fixed.headerFlag) then p.(ackCode := Malformed_Packet) else p, true))
    else if |d| < 3 then Panics
    else
      var q := p.(msgId := BE16(p.packetIdentifier.msb, p.packetIdentifier.lsb), reasonCode := d[2]);
      if p.fixed.msgLen > 3 then
        var field := UnPackPropertyLength(d[3..]);
        if field.Returns? then Returns((q.(propertiesLength := field.value.0), false)) else Panics
      else Returns((q, false))
  }

  /** `Pack` of the four acknowledgements: identifier, reason code, property length. */
  function PackAck(p: Ack): (r: seq<byte>)
    ensures |r| == 1 + |Code(p.fixed.msgLen)| + 3 + |Code(p.propertiesLength)|
    ensures r[0] == p.fixed.headerFlag
    ensures r[1 + |Code(p.fixed.msgLen)|..1 + |Code(p.fixed.msgLen)| + 3]
            == [p.packetIdentifier.msb, p.packetIdentifier.lsb, p.reasonCode]
  {
    [p.fixed.headerFlag] + Code(p.fixed.msgLen) + [p.packetIdentifier.msb, p.packetIdentifier.lsb, p.reasonCode]
    + Code(p.propertiesLength)
  }

  /** An outgoing acknowledgement is six bytes whose remaining length (4) counts
   *  the bytes after it; the receiving side reads back the identifier, its id,
   *  the reason code and an empty property block, without error. */
  lemma AckRoundTrip(flag: byte, pid: Pid, rc: byte)
    requires flag in {PUBACK, PUBREC, PUBCOMP}
    ensures PackAck(NewAck(flag, pid, rc)) == [flag, 4, pid.msb, pid.lsb, rc, 0]
    ensures UnPackFixed(PackAck(NewAck(flag, pid, rc))) == Ok((Fixed(flag, 4, [pid.msb, pid.lsb, rc, 0]), 6))
    ensures var f := Fixed(flag, 4, [pid.msb, pid.lsb, rc, 0]);
      NewAckF(f).Returns? && UnPackAck(NewAckF(f).value)
        == Returns((Ack(f, pid, BE16(pid.msb, pid.lsb), rc, 0, Success), false))
  {
    CodeSmall(4);
    CodeSmall(0);
    var body := [pid.msb, pid.lsb, rc, 0];
    var bytes := PackAck(NewAck(flag, pid, rc));
    assert bytes == [flag] + [4] + [pid.msb, pid.lsb, rc] + [0];
    assert bytes == [flag, 4, pid.msb, pid.lsb, rc, 0];
    assert Frame(flag, body) == bytes;
    FrameRoundTrip(flag, body, []);
    assert bytes + [] == bytes;
    AckBodyRead(Fixed(flag, 4, body));
  }

  /** The four bytes of an acknowledgement with an empty property block read back whole. */
  lemma AckBodyRead(f: Fixed)
    requires f.msgLen == 4 && |f.data| == 4 && f.data[3] == 0
    ensures UnPackAck(NewAckF(f).value)
      == Returns((Ack(f, Pid(f.data[0], f.data[1]), BE16(f.data[0], f.data[1]), f.data[2], 0, Success), false))
  {
    CodeSmall(0);
    assert f.data[3..] == Code(0) + [];
    PropertyLengthEncoded(0, []);
  }

  /** PUBREL is answered in kind: the same layout and round trip for a PUBREL
   *  built with the PUBCOMP constructor's fields. */
  lemma PubrelRoundTrip(pid: Pid)
    ensures var f := Fixed(PUBREL, 4, [pid.msb, pid.lsb, Success, 0]);
      NewAckF(f).Returns?
      && PackAck(NewAckF(f).value.(reasonCode := Success)) == [PUBREL, 4, pid.msb, pid.lsb, Success, 0]
      && UnPackAck(NewAckF(f).value) == Returns((Ack(f, pid, BE16(pid.msb, pid.lsb), Success, 0, Success), false))
  {
    CodeSmall(4);
    CodeSmall(0);
    AckBodyRead(Fixed(PUBREL, 4, [pid.msb, pid.lsb, Success, 0]));
  }

  /** An acknowledgement announcing fewer than three bytes is refused; PUBREL
   *  and PUBCOMP then answer `Malformed_Packet`, PUBACK and PUBREC `Success`. */
  lemma ShortAckRefused(f: Fixed)
    requires f.msgLen < 3 && |f.data| >= 2
    ensures var r := UnPackAck(NewAckF(f).value);
      r.Returns? && r.value.1
      && r.value.0.ackCode == (if f.headerFlag in {PUBREL, PUBCOMP} then Malformed_Packet else Success)
  {
  }

  // ---------------------------------------------------------------- SUBSCRIBE and UNSUBSCRIBE

  /** `NewSUBSCRIBEProtocol` and `NewUNSUBSCRIBEProtocol`. */
  function NewSubscription(f: Fixed): (p: Subscription)
  {
    Subscription(f, Pid(0, 0), 0, 0, [], Success)
  }

  /** What the two decoders share before their filter loops: the identifier,
   *  the property length and the bytes after the property block. */
  function SubscriptionHead(d: seq<byte>): (r: Run<(Pid, nat, seq<byte>)>)
    ensures !r.Diverges?
    ensures |d| < 2 ==> r.Panics?
    ensures r.Returns? ==> |d| >= 2 && r.value.0 == Pid(d[0], d[1])
                           && SkipProperties(d[2..]) == Returns((r.value.1, r.value.2))
  {
    if |d| < 2 then Panics
    else
      var field := By2Len32AndIndex(d[2..]);
      if !field.Returns? then Panics
      else
        var (pl, idx) := field.value;
        var daBy := d[2..][idx..];
        if pl > 0 && pl > |daBy| then Panics
        else Returns((Pid(d[0], d[1]), pl, if pl > 0 then daBy[pl..] else daBy))
  }

  /** `SUBSCRIBEProtocol.UnPack`: fewer than seven bytes announced is an error
   *  with `Malformed_Packet`; otherwise the identifier and id, the property
   *  block skipped, and the filter loop (options byte after every name)
   *  appending to the list. */
  function UnPackSubscribe(p: Subscription): (r: Run<(Subscription, bool)>)
    ensures p.fixed.msgLen < 7 ==> r == Returns((p.(ackCode := Malformed_Packet), true))
    ensures p.fixed.msgLen >= 7 && |p.fixed.data| < 2 ==> r.Panics?
    ensures r.Returns? && p.fixed.msgLen >= 7 ==>
      var q := r.value.0; var d := p.fixed.data;
      && !r.value.1 && |d| >= 2 && q.fixed == p.fixed && q.ackCode == p.ackCode
      && q.packetIdentifier == Pid(d[0], d[1]) && q.msgId == BE16(d[0], d[1])
      && SkipProperties(d[2..]).Returns? && SkipProperties(d[2..]).value.0 == q.propertiesLength
      && SubscribeFilters(SkipProperties(d[2..]).value.1).Returns?
      && q.topicFilterList == p.topicFilterList + SubscribeFilters(SkipProperties(d[2..]).value.1).value
  {
    if p.fixed.msgLen < 7 then Returns((p.(ackCode := Malformed_Packet), true))
    else
      var head := SubscriptionHead(p.fixed.data);
      if !head.Returns? then Panics
      else
        var (pid, pl, rest) := head.value;
        var fs := SubscribeFilters(rest);
        if fs.Panics? then Panics
        else if fs.Diverges? then Diverges
        else Returns((p.(packetIdentifier := pid, msgId := BE16(pid.msb, pid.lsb), propertiesLength := pl,
                         topicFilterList := p.topicFilterList + fs.value), false))
  }

  /** `UNSUBSCRIBEProtocol.UnPack`: as SUBSCRIBE with a threshold of six bytes
   *  and names without an options byte; that loop always ends. */
  function UnPackUnsubscribe(p: Subscription): (r: Run<(Subscription, bool)>)
    ensures !r.Diverges?
    ensures p.fixed.msgLen < 6 ==> r == Returns((p.(ackCode := Malformed_Packet), true))
    ensures p.fixed.msgLen >= 6 && |p.fixed.data| < 2 ==> r.Panics?
    ensures r.Returns? && p.fixed.msgLen >= 6 ==>
      var q := r.value.0; var d := p.fixed.data;
      && !r.value.1 && |d| >= 2 && q.fixed == p.fixed && q.ackCode == p.ackCode
      && q.packetIdentifier == Pid(d[0], d[1]) && q.msgId == BE16(d[0], d[1])
      && SkipProperties(d[2..]).Returns? && SkipProperties(d[2..]).value.0 == q.propertiesLength
      && UnsubscribeFilters(SkipProperties(d[2..]).value.1).Returns?
      && q.topicFilterList == p.topicFilterList + UnsubscribeFilters(SkipProperties(d[2..]).value.1).value
  {
    if p.fixed.msgLen < 6 then Returns((p.(ackCode := Malformed_Packet), true))
    else
      var head := SubscriptionHead(p.fixed.data);
      if !head.Returns? then Panics
      else
        var (pid, pl, rest) := head.value;
        var fs := UnsubscribeFilters(rest);
        UnsubscribeTerminates(rest);
        if !fs.Returns? then Panics
        else Returns((p.(packetIdentifier := pid, msgId := BE16(pid.msb, pid.lsb), propertiesLength := pl,
                         topicFilterList := p.topicFilterList + fs.value), false))
  }

  /** The body of a SUBSCRIBE or UNSUBSCRIBE: identifier, property block, filters. */
  function SubscriptionBody(pid: Pid, props: seq<byte>, filters: seq<byte>): seq<byte>
  {
    [pid.msb, pid.lsb] + Code(|props|) + props + filters
  }

  lemma SubscriptionHeadRead(pid: Pid, props: seq<byte>, filters: seq<byte>)
    requires |props| <= MaxLength
    ensures SubscriptionHead(SubscriptionBody(pid, props, filters)) == Returns((pid, |props|, filters))
  {
    var body := SubscriptionBody(pid, props, filters);
    assert body[2..] == Code(|props|) + props + filters;
    SkipEncodedProperties(props, filters);
    assert body[0] == pid.msb && body[1] == pid.lsb;
  }

  /** The SUBSCRIBE decoder recovers the identifier, the property length and
   *  the filters in wire order, skipping the property block. */
  lemma SubscribeRoundTrip(pid: Pid, props: seq<byte>, fs: seq<TopicFilter>)
    requires |props| <= MaxLength
    requires forall i :: 0 <= i < |fs| ==> 1 <= |fs[i].filterName| <= 0xFFFC && fs[i].identifier == |fs[i].filterName|
    requires |SubscriptionBody(pid, props, EncodeSubscribeFilters(fs))| >= 7
    ensures var body := SubscriptionBody(pid, props, EncodeSubscribeFilters(fs));
      UnPackSubscribe(NewSubscription(Fixed(SUBSCRIBE, |body|, body)))
        == Returns((Subscription(Fixed(SUBSCRIBE, |body|, body), pid, BE16(pid.msb, pid.lsb), |props|, fs, Success), false))
  {
    var enc := EncodeSubscribeFilters(fs);
    var body := SubscriptionBody(pid, props, enc);
    SubscriptionHeadRead(pid, props, enc);
    SubscribeFiltersRoundTrip(fs, []);
    assert enc + [] == enc;
    SubscribeRead(NewSubscription(Fixed(SUBSCRIBE, |body|, body)), pid, |props|, enc, fs);
    assert [] + fs == fs;
  }

  /** The SUBSCRIBE decoder, once its head and filter loop have returned. */
  lemma SubscribeRead(p: Subscription, pid: Pid, pl: nat, rest: seq<byte>, fs: seq<TopicFilter>)
    requires p.fixed.msgLen >= 7 && SubscriptionHead(p.fixed.data) == Returns((pid, pl, rest))
    requires SubscribeFilters(rest) == Returns(fs)
    ensures UnPackSubscribe(p) == Returns((p.(packetIdentifier := pid, msgId := BE16(pid.msb, pid.lsb),
                                              propertiesLength := pl, topicFilterList := p.topicFilterList + fs), false))
  {
  }

  /** The UNSUBSCRIBE decoder, once its head and filter loop have returned. */
  lemma UnsubscribeRead(p: Subscription, pid: Pid, pl: nat, rest: seq<byte>, fs: seq<TopicFilter>)
    requires p.fixed.msgLen >= 6 && SubscriptionHead(p.fixed.data) == Returns((pid, pl, rest))
    requires UnsubscribeFilters(rest) == Returns(fs)
    ensures UnPackUnsubscribe(p) == Returns((p.(packetIdentifier := pid, msgId := BE16(pid.msb, pid.lsb),
                                                propertiesLength := pl, topicFilterList := p.topicFilterList + fs), false))
  {
  }

  /** The UNSUBSCRIBE decoder recovers the identifier, the property length and
   *  the filter names in wire order. */
  lemma UnsubscribeRoundTrip(pid: Pid, props: seq<byte>, fs: seq<TopicFilter>)
    requires |props| <= MaxLength
    requires forall i :: 0 <= i < |fs| ==>
      1 <= |fs[i].filterName| <= 0xFFFD && fs[i].identifier == |fs[i].filterName| && fs[i].qos == 0
    requires |SubscriptionBody(pid, props, EncodeUnsubscribeFilters(fs))| >= 6
    ensures var body := SubscriptionBody(pid, props, EncodeUnsubscribeFilters(fs));
      UnPackUnsubscribe(NewSubscription(Fixed(UNSUBSCRIBE, |body|, body)))
        == Returns((Subscription(Fixed(UNSUBSCRIBE, |body|, body), pid, BE16(pid.msb, pid.lsb), |props|, fs, Success), false))
  {
    var enc := EncodeUnsubscribeFilters(fs);
    var body := SubscriptionBody(pid, props, enc);
    SubscriptionHeadRead(pid, props, enc);
    UnsubscribeFiltersRoundTrip(fs, []);
    assert enc + [] == enc;
    UnsubscribeRead(NewSubscription(Fixed(UNSUBSCRIBE, |body|, body)), pid, |props|, enc, fs);
    assert [] + fs == fs;
  }

  // ---------------------------------------------------------------- UNSUBACK

  /** `NewUNSUBACKProtocol(tfl, pid, rcl)`: `MsgLen` is `2 + 1 + tfl` in `uint32`. */
  function NewUnsuback(tfl: nat, pid: Pid, rcl: seq<byte>): (p: Unsuback)
    requires tfl < 0x1_0000_0000
  {
    Unsuback(Fixed(UNSUBACK, (3 + tfl) % 0x1_0000_0000, []), pid, 0, rcl)
  }

  /** `UNSUBACKProtocol.Pack`: identifier, property length, return codes. */
  function PackUnsuback(p: Unsuback): (r: seq<byte>)
    ensures |r| == 1 + |Code(p.fixed.msgLen)| + 2 + |Code(p.propertiesLength)| + |p.returnCodeList|
    ensures r[0] == p.fixed.headerFlag && r[|r| - |p.returnCodeList|..] == p.returnCodeList
  {
    [p.fixed.headerFlag] + Code(p.fixed.msgLen) + [p.packetIdentifier.msb, p.packetIdentifier.lsb]
    + Code(p.propertiesLength) + p.returnCodeList
  }

  /** The UNSUBACK's remaining length counts the bytes after its fixed header
   *  exactly when `tfl` is the number of return codes. */
  lemma UnsubackLength(tfl: nat, pid: Pid, rcl: seq<byte>)
    requires 3 + tfl <= MaxLength
    ensures var bytes := PackUnsuback(NewUnsuback(tfl, pid, rcl));
      |bytes| - 1 - |Code(3 + tfl)| == 3 + tfl <==> tfl == |rcl|
  {
    assert NewUnsuback(tfl, pid, rcl).fixed.msgLen == 3 + tfl;
    CodeSmall(0);
  }

  /** With `tfl` the number of return codes, the UNSUBACK reads back as one
   *  packet of identifier, an empty property block and the codes. */
  lemma UnsubackFramed(pid: Pid, rcl: seq<byte>)
    requires 3 + |rcl| <= MaxLength
    ensures var bytes := PackUnsuback(NewUnsuback(|rcl|, pid, rcl));
      UnPackFixed(bytes) == Ok((Fixed(UNSUBACK, 3 + |rcl|, [pid.msb, pid.lsb, 0] + rcl), |bytes|))
  {
    var body := [pid.msb, pid.lsb, 0] + rcl;
    assert NewUnsuback(|rcl|, pid, rcl).fixed.msgLen == |body|;
    CodeSmall(0);
    assert PackUnsuback(NewUnsuback(|rcl|, pid, rcl)) == Frame(UNSUBACK, body) + [];
    FrameRoundTrip(UNSUBACK, body, []);
  }

  // ---------------------------------------------------------------- AUTH and PINGRESP

  /** `NewAUTHProtocol`: remaining length 2, reason 0, no properties. */
  function NewAuth(): (p: Auth)
  {
    Auth(Fixed(AUTH, 2, []), 0, 0)
  }

  /** `NewAUTHProtocolF`. */
  function NewAuthF(f: Fixed): (p: Auth)
  {
    Auth(f, 0, 0)
  }

  /** `AUTHProtocol.UnPack`: it never returns an error. Nothing is read when no
   *  byte is announced; otherwise the reason code and, past one byte, the
   *  property length. */
  function UnPackAuth(p: Auth): (r: Run<(Auth, bool)>)
    ensures !r.Diverges?
    ensures r.Returns? ==> !r.value.1 && r.value.0.fixed == p.fixed
    ensures p.fixed.msgLen < 1 ==> r == Returns((p, false))
    ensures p.fixed.msgLen >= 1 ==>
      (r.Panics? <==> |p.fixed.data| < 1 || (p.fixed.msgLen > 1 && UnPackPropertyLength(p.fixed.data[1..]).Panics?))
    ensures p.fixed.msgLen >= 1 && r.Returns? ==>
      r.value.0.authenticationReasonCode == p.fixed.data[0]
      && r.value.0.propertiesLength == (if p.fixed.msgLen > 1 then UnPackPropertyLength(p.fixed.data[1..]).value.0
                                        else p.propertiesLength)
  {
    var d := p.fixed.data;
    if p.fixed.msgLen < 1 then Returns((p, false))
    else if |d| < 1 then Panics
    else
      var q := p.(authenticationReasonCode := d[0]);
      if p.fixed.msgLen > 1 then
        var field := UnPackPropertyLength(d[1..]);
        if field.Returns? then Returns((q.(propertiesLength := field.value.0), false)) else Panics
      else Returns((q, false))
  }

  /** `AUTHProtocol.Pack`: reason code and property length. */
  function PackAuth(p: Auth): (r: seq<byte>)
    ensures |r| == 1 + |Code(p.fixed.msgLen)| + 1 + |Code(p.propertiesLength)|
    ensures r[0] == p.fixed.headerFlag && r[1 + |Code(p.fixed.msgLen)|] == p.authenticationReasonCode
  {
    [p.fixed.headerFlag] + Code(p.fixed.msgLen) + [p.authenticationReasonCode] + Code(p.propertiesLength)
  }

  /** The default AUTH packet is `[0xF0, 2, 0, 0]`, and it reads back as reason
   *  0 with an empty property block. */
  lemma AuthRoundTrip()
    ensures PackAuth(NewAuth()) == [AUTH, 2, 0, 0]
    ensures UnPackFixed(PackAuth(NewAuth())) == Ok((Fixed(AUTH, 2, [0, 0]), 4))
    ensures UnPackAuth(NewAuthF(Fixed(AUTH, 2, [0, 0]))) == Returns((Auth(Fixed(AUTH, 2, [0, 0]), 0, 0), false))
  {
    CodeSmall(2);
    CodeSmall(0);
    FrameRoundTrip(AUTH, [0, 0], []);
    assert Frame(AUTH, [0, 0]) + [] == PackAuth(NewAuth());
    PropertyLengthEncoded(0, []);
    assert [0, 0][1..] == Code(0) + [];
  }

  /** `NewPINGRESPProtocol`: the header alone. */
  function NewPingresp(): (f: Fixed)
  {
    Fixed(PINGRESP, 0, [])
  }

  /** `PINGRESPProtocol.Pack`: the header byte and a literal zero length,
   *  whatever `MsgLen` says. */
  function PackPingresp(f: Fixed): (r: seq<byte>)
    ensures |r| == 2 && r[0] == f.headerFlag && r[1] == 0
  {
    [f.headerFlag, 0]
  }

  /** The PINGRESP reads back as a packet of type 0xD0 with nothing after the header. */
  lemma PingrespRoundTrip()
    ensures PackPingresp(NewPingresp()) == [PINGRESP, 0]
    ensures UnPackFixed(PackPingresp(NewPingresp())) == Ok((Fixed(PINGRESP, 0, []), 2))
  {
    CodeSmall(0);
    FrameRoundTrip(PINGRESP, [], []);
    assert Frame(PINGRESP, []) + [] == PackPingresp(NewPingresp());
  }
}
