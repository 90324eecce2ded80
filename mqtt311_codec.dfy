/**
 * The MQTT 3.1.1 packet codec of `mqtt311/server/MqttDataPack.go`, apart from
 * CONNECT (module Connect311): the encoders of the packets the server sends,
 * the decoders of the packets it receives after CONNECT, and `getProtoByFixed`,
 * which dispatches on the header byte. Decoders read `Fixed.Data`; Go's
 * unchecked indexing panics on short input and cursor arithmetic on `uint16`
 * wraps, and both are modelled as they happen.
 */
module Pack311 {
  import opened Bytes
  import opened RemainingLength
  import opened FixedHeader
  import opened LengthPrefixed
  import opened Proto311
  import opened FilterList

  datatype PackError = NoSuchType | WrongStructure

  datatype ProtoError = ConnectAgain | NoSuchProto

  /** The fields that Go declares as `uint16` and `uint32` fit their types. */
  predicate WellTyped(p: Packet)
  {
    && p.header.msgLen < 0x1_0000_0000
    && (p.Publish? ==> p.topicNameLength < 0x1_0000 && p.msgId < 0x1_0000)
  }

  // ---------------------------------------------------------------- encoders

  /** `packCONNACK`: header byte, `uint8(MsgLen)`, the acknowledge flags and the code. */
  function PackCONNACK(code: byte): (r: seq<byte>)
    ensures r == [0x20, 2, 0, code]
    ensures UnPackFixed(r) == Ok((Fixed(CONNACK, 2, [0, code]), 4))
  {
    var p := Connack(Header(CONNACK, 2), 0, code);
    var bytes := [p.header.headerFlag, (p.header.msgLen % 256) as byte,
                  p.connectAcknowledgeFlags, p.connectReturncode];
    assert bytes == Frame(CONNACK, [0, code]) by { CodeShape(2); }
    FrameRoundTrip(CONNACK, [0, code], []);
    assert Frame(CONNACK, [0, code]) + [] == bytes;
    bytes
  }

  /** `packPINGRESP`: the header byte and `uint8(MsgLen)`, with no other check. */
  function PackPINGRESP(p: Packet): (r: seq<byte>)
    ensures |r| == 2 && r[0] == p.header.headerFlag && r[1] as nat == p.header.msgLen % 256
    ensures p.header.msgLen == 0 && p.header.headerFlag != 0 ==>
      UnPackFixed(r) == Ok((Fixed(p.header.headerFlag, 0, []), 2))
  {
    var bytes := [p.header.headerFlag, (p.header.msgLen % 256) as byte];
    if p.header.msgLen == 0 && p.header.headerFlag != 0 then
      FrameRoundTrip(p.header.headerFlag, [], []);
      assert Frame(p.header.headerFlag, []) + [] == bytes by { CodeShape(0); }
      bytes
    else bytes
  }

  /** Header byte and remaining length, as the encoders below start every packet. */
  function Head(h: Header): seq<byte>
  {
    [h.headerFlag] + Code(h.msgLen)
  }

  /** `packSUBACK`: identifier and return codes after the fixed header. */
  function PackSUBACK(p: Packet): (r: Result<seq<byte>, PackError>)
    ensures r.Ok? <==> p.Suback?
    ensures r.Err? ==> r.error == WrongStructure
  {
    if !p.Suback? then Err(WrongStructure)
    else Ok(Head(p.header) + [p.packetIdentifier.msb, p.packetIdentifier.lsb] + p.returnCodeList)
  }

  /** `packUNSUBACK`, `packPUBACK`, `packPUBREC`, `packPUBREL`, `packPUBCOMP`:
   *  the identifier alone after the fixed header, each after checking that it
   *  was given its own structure. */
  function PackIdentifier(p: Packet, flag: byte): (r: Result<seq<byte>, PackError>)
    ensures r.Ok? <==> StructureFor(flag, p)
    ensures r.Err? ==> r.error == WrongStructure
  {
    if !StructureFor(flag, p) then Err(WrongStructure)
    else Ok(Head(p.header) + [p.packetIdentifier.msb, p.packetIdentifier.lsb])
  }

  /** The structure each encoder's type assertion accepts. */
  predicate StructureFor(flag: byte, p: Packet)
  {
    if flag == SUBACK then p.Suback?
    else if flag == UNSUBACK then p.Unsuback?
    else if flag == PUBLISH then p.Publish?
    else if flag == PUBACK then p.Puback?
    else if flag == PUBREC then p.Pubrec?
    else if flag == PUBREL then p.Pubrel?
    else if flag == PUBCOMP then p.Pubcomp?
    else false
  }

  /** `packPUBLISH`: topic with its length, the identifier only above QoS 0, the payload. */
  function PackPUBLISH(p: Packet): (r: Result<seq<byte>, PackError>)
    requires WellTyped(p)
    ensures r.Ok? <==> p.Publish?
    ensures r.Err? ==> r.error == WrongStructure
  {
    if !p.Publish? then Err(WrongStructure)
    else Ok(Head(p.header) + Int16ToByBig(p.topicNameLength) + p.topicName
            + (if p.qos > QoS0 then Int16ToByBig(p.msgId) else []) + p.payload)
  }

  /** `packProto`: the encoder chosen by the header byte. Only the eight types the
   *  server sends through it are accepted, each with its own structure (the
   *  PINGRESP encoder takes any). */
  function PackProto(p: Packet): (r: Result<seq<byte>, PackError>)
    requires WellTyped(p)
    ensures r.Ok? <==> p.header.headerFlag in {PINGRESP, SUBACK, UNSUBACK, PUBLISH, PUBACK, PUBREC, PUBREL, PUBCOMP}
                       && (p.header.headerFlag == PINGRESP || StructureFor(p.header.headerFlag, p))
    ensures r.Err? && !(p.header.headerFlag in {PINGRESP, SUBACK, UNSUBACK, PUBLISH, PUBACK, PUBREC, PUBREL, PUBCOMP})
            ==> r.error == NoSuchType
    ensures r.Ok? ==> |r.value| >= 2 && r.value[0] == p.header.headerFlag
  {
    var flag := p.header.headerFlag;
    if flag == PINGRESP then Ok(PackPINGRESP(p))
    else if flag == SUBACK then PackSUBACK(p)
    else if flag == UNSUBACK || flag == PUBACK || flag == PUBREC || flag == PUBREL || flag == PUBCOMP then
      PackIdentifier(p, flag)
    else if flag == PUBLISH then PackPUBLISH(p)
    else Err(NoSuchType)
  }

  /** The number of bytes the encoders write after the fixed header. */
  function BodyLength(p: Packet): nat
  {
    if p.Suback? then 2 + |p.returnCodeList|
    else if p.Publish? then 2 + |p.topicName| + (if p.qos > QoS0 then 2 else 0) + |p.payload|
    else 2
  }

  /** Every packet `packProto` accepts, other than PINGRESP, frames correctly when
   *  its `MsgLen` counts the bytes after the fixed header: reading it back gives
   *  the header byte, that length, and consumes the whole packet. */
  lemma PackedFramesRead(p: Packet)
    requires WellTyped(p) && PackProto(p).Ok? && p.header.headerFlag != PINGRESP
    requires p.Publish? ==> p.topicNameLength == |p.topicName|
    requires p.header.msgLen == BodyLength(p) <= MaxLength
    ensures var bytes := PackProto(p).value;
      UnPackFixed(bytes) == Ok((Fixed(p.header.headerFlag, p.header.msgLen, bytes[|bytes| - p.header.msgLen..]), |bytes|))
  {
    var body := PackedBody(p);
    FramedBody(p.header.headerFlag, p.header.msgLen, body, PackProto(p).value);
  }

  /** What `packProto` writes after the fixed header, `BodyLength` bytes of it. */
  lemma PackedBody(p: Packet) returns (body: seq<byte>)
    requires WellTyped(p) && PackProto(p).Ok? && p.header.headerFlag != PINGRESP
    requires p.Publish? ==> p.topicNameLength == |p.topicName|
    ensures PackProto(p).value == Head(Header(p.header.headerFlag, p.header.msgLen)) + body
    ensures |body| == BodyLength(p)
  {
    var flag := p.header.headerFlag;
    if flag == SUBACK {
      body := SubackPacked(p);
    } else if flag == PUBLISH {
      body := PublishPacked(p);
    } else {
      body := IdentifierPacked(p);
    }
  }

  /** `packSUBACK` writes the identifier's two bytes and then the return codes. */
  lemma SubackPacked(p: Packet) returns (body: seq<byte>)
    requires WellTyped(p) && PackProto(p).Ok? && p.header.headerFlag == SUBACK
    ensures PackProto(p).value == Head(Header(p.header.headerFlag, p.header.msgLen)) + body
    ensures |body| == BodyLength(p)
    ensures body == [p.packetIdentifier.msb, p.packetIdentifier.lsb] + p.returnCodeList
  {
    assert p.header == Header(p.header.headerFlag, p.header.msgLen);
    assert PackProto(p) == PackSUBACK(p);
    body := [p.packetIdentifier.msb, p.packetIdentifier.lsb] + p.returnCodeList;
  }

  /** `packPUBLISH` writes the prefixed topic, the identifier only above QoS 0,
   *  and then the payload. */
  lemma PublishPacked(p: Packet) returns (body: seq<byte>)
    requires WellTyped(p) && PackProto(p).Ok? && p.header.headerFlag == PUBLISH
    requires p.topicNameLength == |p.topicName|
    ensures PackProto(p).value == Head(Header(p.header.headerFlag, p.header.msgLen)) + body
    ensures |body| == BodyLength(p)
    ensures body == Int16ToByBig(p.topicNameLength) + p.topicName
                    + (if p.qos > QoS0 then Int16ToByBig(p.msgId) else []) + p.payload
  {
    assert p.header == Header(p.header.headerFlag, p.header.msgLen);
    assert PackProto(p) == PackPUBLISH(p);
    var a, b, c := Head(p.header), Int16ToByBig(p.topicNameLength), p.topicName;
    var d, e := (if p.qos > QoS0 then Int16ToByBig(p.msgId) else []), p.payload;
    body := b + c + d + e;
    AppendAssoc(a, b, c);
    AppendAssoc(a, b + c, d);
    AppendAssoc(a, b + c + d, e);
  }

  /** `packUNSUBACK`, `packPUBACK`, `packPUBREC`, `packPUBREL` and `packPUBCOMP`
   *  write the identifier's two bytes and nothing else. */
  lemma IdentifierPacked(p: Packet) returns (body: seq<byte>)
    requires WellTyped(p) && PackProto(p).Ok?
    requires p.header.headerFlag in {UNSUBACK, PUBACK, PUBREC, PUBREL, PUBCOMP}
    ensures PackProto(p).value == Head(Header(p.header.headerFlag, p.header.msgLen)) + body
    ensures |body| == BodyLength(p)
    ensures body == [p.packetIdentifier.msb, p.packetIdentifier.lsb]
  {
    var flag := p.header.headerFlag;
    assert p.header == Header(flag, p.header.msgLen);
    assert PackProto(p) == PackIdentifier(p, flag);
    body := [p.packetIdentifier.msb, p.packetIdentifier.lsb];
  }

  /** A header followed by a body of the length it announces is a frame that
   *  reads back whole. */
  lemma FramedBody(flag: byte, msgLen: nat, body: seq<byte>, bytes: seq<byte>)
    requires flag != 0 && msgLen == |body| <= MaxLength
    requires bytes == Head(Header(flag, msgLen)) + body
    ensures UnPackFixed(bytes) == Ok((Fixed(flag, msgLen, bytes[|bytes| - msgLen..]), |bytes|))
  {
    assert bytes == Frame(flag, body);
    FrameRoundTrip(flag, body, []);
    assert bytes + [] == bytes;
    assert bytes[|bytes| - msgLen..] == body;
  }

  // ---------------------------------------------------------------- decoders

  /** `unPackPUBLISHProtocol`. Flags 0x30/0x31 carry no identifier; 0x32 and 0x33 are
   *  QoS 1; 0x34 and, through the default branch, every other flag are QoS 2;
   *  0x31 and 0x33 are retained. The topic length is a `uint16`, so the
   *  cursors after it wrap. */
  function UnPackPUBLISH(f: Fixed): (r: Run<Packet>)
    ensures !r.Diverges?
    ensures r.Returns? ==> r.value.Publish? && r.value.header == Header(f.headerFlag, f.msgLen)
    ensures r.Returns? ==> 2 + r.value.topicNameLength <= |f.data|
    ensures r.Returns? ==> r.value.topicNameLength == BE16(f.data[0], f.data[1])
                           && r.value.topicName == f.data[2..2 + r.value.topicNameLength]
    ensures r.Returns? ==> r.value.qos == PublishQos(f.headerFlag) && r.value.retain == PublishRetain(f.headerFlag)
    ensures r.Returns? && r.value.qos != QoS0 && r.value.topicNameLength < 0xFFFC ==> 2 + r.value.topicNameLength + 2 <= |f.data|
    ensures r.Returns? && r.value.qos == QoS0 ==> r.value.payload == f.data[2 + r.value.topicNameLength..] && r.value.msgId == 0
    ensures r.Returns? && r.value.qos != QoS0 && r.value.topicNameLength < 0xFFFC ==>
      var e := 2 + r.value.topicNameLength;
      r.value.packetIdentifier == Pid(f.data[e], f.data[e + 1]) && r.value.msgId == BE16(f.data[e], f.data[e + 1])
      && r.value.payload == f.data[e + 2..]
  {
    var d := f.data;
    if |d| < 2 then Panics
    else
      var tnl := BE16(d[0], d[1]);
      var e := Add16(2, tnl);
      if e < 2 || e > |d| then Panics
      else
        var h := Header(f.headerFlag, f.msgLen);
        if f.headerFlag == PUBLISH || f.headerFlag == PUBLISH31 then
          Returns(Publish(h, tnl, d[2..e], Pid(0, 0), d[e..], QoS0, f.headerFlag == PUBLISH31, 0))
        else if e >= |d| || Add16(e, 1) >= |d| || Add16(e, 2) > |d| then Panics
        else
          var pid := Pid(d[e], d[Add16(e, 1)]);
          Returns(Publish(h, tnl, d[2..e], pid, d[Add16(e, 2)..], PublishQos(f.headerFlag),
                          f.headerFlag == PUBLISH33, BE16(pid.msb, pid.lsb)))
  }

  /** The QoS the 3.1.1 decoder assigns to a PUBLISH header byte. */
  function PublishQos(flag: byte): (q: byte)
    ensures flag == 0x30 || flag == 0x31 ==> q == QoS0
    ensures flag == 0x32 || flag == 0x33 ==> q == QoS1
    ensures flag == 0x34 || 0x35 <= flag <= 0x3D ==> q == QoS2
  {
    if flag == PUBLISH || flag == PUBLISH31 then QoS0
    else if flag == PUBLISH32 || flag == PUBLISH33 then QoS1
    else QoS2
  }

  function PublishRetain(flag: byte): (b: bool)
    ensures b <==> flag == 0x31 || flag == 0x33
  {
    flag == PUBLISH31 || flag == PUBLISH33
  }

  /** `unPackPUBACKProtocol`, `unPackPUBRECProtocol`, `unPackPUBRELProtocol` and
   *  `unPackPUBCOMProtocol`: the identifier in the first two bytes. */
  function UnPackIdentifier(f: Fixed): (r: Run<(Pid, nat)>)
    ensures !r.Diverges?
    ensures r.Panics? <==> |f.data| < 2
    ensures r.Returns? ==> r.value.0 == Pid(f.data[0], f.data[1]) && r.value.1 == BE16(f.data[0], f.data[1])
  {
    if |f.data| < 2 then Panics
    else Returns((Pid(f.data[0], f.data[1]), BE16(f.data[0], f.data[1])))
  }

  /** `unPackSUBSCRIBEProtocol`. */
  function UnPackSUBSCRIBE(f: Fixed): (r: Run<Packet>)
    ensures |f.data| < 2 ==> r.Panics?
    ensures r.Returns? ==> (r.value.Subscribe? && r.value.header == Header(f.headerFlag, f.msgLen)
      && r.value.packetIdentifier == Pid(f.data[0], f.data[1]) && r.value.msgId == BE16(f.data[0], f.data[1])
      && SubscribeFilters(f.data[2..]) == Returns(r.value.topicFilterList))
  {
    if |f.data| < 2 then Panics
    else
      var fs := SubscribeFilters(f.data[2..]);
      if !fs.Returns? then (if fs.Panics? then Panics else Diverges)
      else Returns(Subscribe(Header(f.headerFlag, f.msgLen), Pid(f.data[0], f.data[1]), fs.value,
                             BE16(f.data[0], f.data[1])))
  }

  /** `unPackUNSUBSCRIBEProtocol`. */
  function UnPackUNSUBSCRIBE(f: Fixed): (r: Run<Packet>)
    ensures !r.Diverges?
    ensures |f.data| < 2 ==> r.Panics?
    ensures r.Returns? ==> (r.value.Unsubscribe? && r.value.header == Header(f.headerFlag, f.msgLen)
      && r.value.packetIdentifier == Pid(f.data[0], f.data[1]) && r.value.msgId == BE16(f.data[0], f.data[1])
      && UnsubscribeFilters(f.data[2..]) == Returns(r.value.topicFilterList))
  {
    if |f.data| < 2 then Panics
    else
      var fs := UnsubscribeFilters(f.data[2..]);
      UnsubscribeTerminates(f.data[2..]);
      if !fs.Returns? then Panics
      else Returns(Unsubscribe(Header(f.headerFlag, f.msgLen), Pid(f.data[0], f.data[1]), fs.value,
                               BE16(f.data[0], f.data[1])))
  }

  /** `getProtoByFixed`: CONNECT may not come again; 0x30 to 0x3D are PUBLISH;
   *  PINGREQ and DISCONNECT carry nothing to decode; everything else the server
   *  does not receive is refused. */
  function GetProtoByFixed(f: Fixed): (r: Run<Result<Packet, ProtoError>>)
    ensures f.headerFlag == CONNECT ==> r == Returns(Err(ConnectAgain))
    ensures (!(f.headerFlag in {CONNECT, PUBACK, PUBREC, PUBREL, PUBCOMP, SUBSCRIBE, UNSUBSCRIBE, PINGREQ, DISCONNECT})
             && !(PUBLISH <= f.headerFlag <= PUBLISHMAX)) ==> r == Returns(Err(NoSuchProto))
    ensures f.headerFlag == PINGREQ ==> r == Returns(Ok(Pingreq(Header(PINGREQ, 0))))
    ensures f.headerFlag == DISCONNECT ==> r == Returns(Ok(Disconnect(Header(DISCONNECT, 0))))
    ensures r.Returns? && r.value.Ok? && PUBLISH <= f.headerFlag <= PUBLISHMAX ==>
      var p := r.value.value;
      p.Publish? && UnPackPUBLISH(f) == Returns(p)
      && (f.headerFlag == 0x30 ==> p.qos == 0 && !p.retain)
      && (f.headerFlag == 0x31 ==> p.qos == 0 && p.retain)
      && (f.headerFlag == 0x32 ==> p.qos == 1 && !p.retain)
      && (f.headerFlag == 0x33 ==> p.qos == 1 && p.retain)
      && (f.headerFlag >= 0x34 ==> p.qos == 2 && !p.retain)
    ensures r.Returns? && r.value.Ok? && f.headerFlag in {PUBACK, PUBREC, PUBREL, PUBCOMP} ==>
      var p := r.value.value;
      (p.Puback? || p.Pubrec? || p.Pubrel? || p.Pubcomp?) && p.header == Header(f.headerFlag, f.msgLen)
      && UnPackIdentifier(f) == Returns((p.packetIdentifier, p.msgId))
    ensures PUBLISH <= f.headerFlag <= PUBLISHMAX ==>
      (r.Returns? <==> UnPackPUBLISH(f).Returns?) && (r.Returns? ==> r.value.Ok?) && (r.Panics? <==> !UnPackPUBLISH(f).Returns?)
    ensures f.headerFlag in {PUBACK, PUBREC, PUBREL, PUBCOMP} ==>
      (r.Returns? ==> r.value.Ok?) && (r.Panics? <==> |f.data| < 2) && !r.Diverges?
    ensures f.headerFlag == SUBSCRIBE ==>
      (r.Returns? <==> UnPackSUBSCRIBE(f).Returns?) && (r.Returns? ==> r.value == Ok(UnPackSUBSCRIBE(f).value))
      && (r.Panics? <==> UnPackSUBSCRIBE(f).Panics?) && (r.Diverges? <==> UnPackSUBSCRIBE(f).Diverges?)
    ensures f.headerFlag == UNSUBSCRIBE ==>
      (r.Returns? <==> UnPackUNSUBSCRIBE(f).Returns?) && (r.Returns? ==> r.value == Ok(UnPackUNSUBSCRIBE(f).value))
      && (r.Panics? <==> UnPackUNSUBSCRIBE(f).Panics?) && !r.Diverges?
  {
    var flag := f.headerFlag;
    var h := Header(flag, f.msgLen);
    if flag == CONNECT then Returns(Err(ConnectAgain))
    else if PUBLISH <= flag <= PUBLISHMAX then
      var p := UnPackPUBLISH(f);
      if p.Returns? then Returns(Ok(p.value)) else Panics
    else if flag in {PUBACK, PUBREC, PUBREL, PUBCOMP} then
      var id := UnPackIdentifier(f);
      if !id.Returns? then Panics
      else
        var (pid, msgId) := id.value;
        Returns(Ok(if flag == PUBACK then Puback(h, pid, msgId)
                   else if flag == PUBREC then Pubrec(h, pid, msgId)
                   else if flag == PUBREL then Pubrel(h, pid, msgId)
                   else Pubcomp(h, pid, msgId)))
    else if flag == SUBSCRIBE then
      var p := UnPackSUBSCRIBE(f);
      if p.Returns? then Returns(Ok(p.value)) else if p.Panics? then Panics else Diverges
    else if flag == UNSUBSCRIBE then
      var p := UnPackUNSUBSCRIBE(f);
      if p.Returns? then Returns(Ok(p.value)) else Panics
    else if flag == PINGREQ then Returns(Ok(Pingreq(Header(flag, 0))))
    else if flag == DISCONNECT then Returns(Ok(Disconnect(Header(flag, 0))))
    else Returns(Err(NoSuchProto))
  }

  // ---------------------------------------------------------------- round trips

  /** The variable header and payload of a PUBLISH, as `packPUBLISH` writes them. */
  function PublishBody(topic: seq<byte>, idBytes: seq<byte>, payload: seq<byte>): seq<byte>
    requires |topic| < 0x1_0000
  {
    Prefixed(topic) + idBytes + payload
  }

  /** The decoder reads the topic, the identifier exactly when the header byte
   *  calls for one, and the payload out of such a body. */
  lemma PublishBodyDecodes(flag: byte, topic: seq<byte>, idBytes: seq<byte>, payload: seq<byte>)
    requires PUBLISH <= flag <= PUBLISHMAX && |topic| < 0xFFFC
    requires |idBytes| == (if flag in {PUBLISH, PUBLISH31} then 0 else 2)
    ensures var body := PublishBody(topic, idBytes, payload);
      var d := UnPackPUBLISH(Fixed(flag, |body|, body));
      d.Returns? && d.value.topicName == topic && d.value.payload == payload
      && d.value.qos == PublishQos(flag) && d.value.retain == PublishRetain(flag)
      && (|idBytes| == 2 ==> d.value.msgId == BE16(idBytes[0], idBytes[1]))
  {
    var body := PublishBody(topic, idBytes, payload);
    var n := |topic|;
    assert BE16(body[0], body[1]) == n;
    assert body[2..2 + n] == topic;
    if |idBytes| == 2 {
      assert body[2 + n] == idBytes[0] && body[2 + n + 1] == idBytes[1];
      assert body[2 + n + 2..] == payload;
    } else {
      assert body[2 + n..] == payload;
    }
  }

  /** Decoding what `packPUBLISH` wrote recovers the topic, the payload and, above
   *  QoS 0, the message id, whenever the header byte agrees with the QoS. */
  lemma PublishRoundTrip(p: Packet)
    requires p.Publish? && WellTyped(p)
    requires PUBLISH <= p.header.headerFlag <= PUBLISHMAX
    requires p.topicNameLength == |p.topicName| < 0xFFFC
    requires p.qos == QoS0 <==> p.header.headerFlag in {PUBLISH, PUBLISH31}
    requires p.header.msgLen == BodyLength(p) <= MaxLength
    ensures var bytes := PackPUBLISH(p).value;
      UnPackFixed(bytes).Ok? && UnPackFixed(bytes).value.1 == |bytes|
      && var d := UnPackPUBLISH(UnPackFixed(bytes).value.0);
      d.Returns? && d.value.topicName == p.topicName && d.value.payload == p.payload
      && d.value.qos == PublishQos(p.header.headerFlag) && d.value.retain == PublishRetain(p.header.headerFlag)
      && (p.qos > QoS0 ==> d.value.msgId == p.msgId)
  {
    var flag := p.header.headerFlag;
    var idBytes := if p.qos > QoS0 then Int16ToByBig(p.msgId) else [];
    var body := PublishBody(p.topicName, idBytes, p.payload);
    PackPublishIsFrame(p);
    FrameRoundTrip(flag, body, []);
    assert Frame(flag, body) + [] == Frame(flag, body);
    PublishBodyDecodes(flag, p.topicName, idBytes, p.payload);
  }

  /** `packPUBLISH` lays out a single frame around the PUBLISH body. */
  lemma PackPublishIsFrame(p: Packet)
    requires p.Publish? && WellTyped(p) && p.topicNameLength == |p.topicName|
    requires p.header.msgLen == BodyLength(p)
    ensures var idBytes := if p.qos > QoS0 then Int16ToByBig(p.msgId) else [];
      PackPUBLISH(p).value == Frame(p.header.headerFlag, PublishBody(p.topicName, idBytes, p.payload))
  {
    var idBytes := if p.qos > QoS0 then Int16ToByBig(p.msgId) else [];
    var body := PublishBody(p.topicName, idBytes, p.payload);
    assert |body| == p.header.msgLen;
    calc {
      PackPUBLISH(p).value;
      Head(p.header) + Int16ToByBig(p.topicNameLength) + p.topicName + idBytes + p.payload;
      { assert Int16ToByBig(p.topicNameLength) + p.topicName == Prefixed(p.topicName); }
      [p.header.headerFlag] + Code(|body|) + (Prefixed(p.topicName) + idBytes + p.payload);
    }
  }

}
