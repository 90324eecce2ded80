/**
 * The packet layer of the MQTT 5.0 server (`mqtt5/server/MqttDataPack.go`):
 * the CONNACK answer, the first packet of a connection, and the dispatch of
 * every later packet to its decoder by the header byte. The remaining-length
 * codec and `unPackFixed` of that file are the same code as in the 3.1.1
 * server and are the modules `RemainingLength` and `FixedHeader`.
 */
module Server5 {
  import opened Bytes
  import opened RemainingLength
  import opened FixedHeader
  import opened LengthPrefixed
  import opened FilterList
  import opened Proto5
  import opened Packets5
  import Connect5
  import Disconnect5

  /** `packCONNACK(code)`: the four bytes of a CONNACK carrying `code`, which
   *  read back as one frame. */
  function PackConnackCode(code: byte): (r: seq<byte>)
    ensures r == [CONNACK, 2, 0, code]
    ensures UnPackFixed(r) == Ok((Fixed(CONNACK, 2, [0, code]), |r|))
  {
    ConnackRoundTrip(code);
    PackConnack(NewConnack(code))
  }

  /** `unPackCONNECTProtocol` on the bytes `s` that will arrive: a fixed header
   *  that cannot be read answers `Malformed_Packet` and no structure;
   *  otherwise the CONNECT decoder runs on it and its reason code is returned
   *  beside the structure, whatever the decoder's error value. */
  function UnPackConnectProtocol(s: seq<byte>): (r: Run<(Option<Connect5.Connect>, byte)>)
    ensures UnPackFixed(s).Err? ==> r == Returns((None, Malformed_Packet))
    ensures |s| < 2 || s[0] == 0 ==> r == Returns((None, Malformed_Packet))
    ensures UnPackFixed(s).Ok? ==> (r.Returns? <==> Connect5.UnPack(UnPackFixed(s).value.0).Returns?)
    ensures UnPackFixed(s).Ok? && r.Returns? ==>
      && r.value.0.Some? && r.value.0.value.fixed == UnPackFixed(s).value.0
      && r.value.1 == r.value.0.value.ackCode && r.value.1 in Connect5.UnPackCodes
    ensures r.Returns? && r.value.1 == Success ==>
      r.value.0.Some? && Connect5.Accepted(r.value.0.value.fixed, r.value.0.value)
  {
    var fixed := UnPackFixed(s);
    if fixed.Err? then Returns((None, Malformed_Packet))
    else
      match Connect5.UnPack(fixed.value.0)
      case Returns(p) => Returns((Some(p), p.ackCode))
      case Panics => Panics
      case Diverges => Diverges
  }

  /** A client's own CONNECT, with non-empty client id, user name and
   *  password, is answered `Success` with those three strings. */
  lemma ClientConnectAccepted(clientID: seq<byte>, user: seq<byte>, psd: seq<byte>)
    requires 1 <= |clientID| && 1 <= |user| && 1 <= |psd|
    requires 17 + |clientID| + |user| + |psd| < 0x1_0000
    ensures var r := UnPackConnectProtocol(Connect5.Pack(Connect5.NewClient(clientID, user, psd)));
      && r.Returns? && r.value.1 == Success && r.value.0.Some?
      && r.value.0.value.clientID == clientID && r.value.0.value.userName == user
      && r.value.0.value.password == psd
  {
    Connect5.ClientRoundTrip(clientID, user, psd);
  }

  // ---------------------------------------------------------------- dispatch

  /** The structures `getProtoByFixed` returns behind `proto.ImplMqttProto`. */
  datatype Packet5 =
    | PublishPacket(publish: Publish)
    | AckPacket(ack: Ack)
    | SubscribePacket(subscribe: Subscription)
    | UnsubscribePacket(unsubscribe: Subscription)
    | PingreqPacket(pingreq: Fixed)
    | DisconnectPacket(disconnect: Disconnect)
    | AuthPacket(auth: Auth)

  /** The two errors `getProtoByFixed` makes itself, with a nil structure. */
  datatype DispatchError = ConnectAgain | NoSuchProto

  /** The header bytes `getProtoByFixed` hands to a structure. */
  predicate Dispatched(flag: byte)
  {
    (PUBLISH <= flag <= PUBLISHMAX)
    || flag in {PUBACK, PUBREC, PUBREL, PUBCOMP, SUBSCRIBE, UNSUBSCRIBE, PINGREQ, DISCONNECT, AUTH}
  }

  /** The structure each dispatched header byte is decoded into. */
  predicate KindFits(p: Packet5, flag: byte)
  {
    match p
    case PublishPacket(_) => PUBLISH <= flag <= PUBLISHMAX
    case AckPacket(_) => flag in {PUBACK, PUBREC, PUBREL, PUBCOMP}
    case SubscribePacket(_) => flag == SUBSCRIBE
    case UnsubscribePacket(_) => flag == UNSUBSCRIBE
    case PingreqPacket(_) => flag == PINGREQ
    case DisconnectPacket(_) => flag == DISCONNECT
    case AuthPacket(_) => flag == AUTH
  }

  /** The fixed header a structure was built from. */
  function FixedOf(p: Packet5): Fixed
  {
    match p
    case PublishPacket(q) => q.fixed
    case AckPacket(q) => q.fixed
    case SubscribePacket(q) => q.fixed
    case UnsubscribePacket(q) => q.fixed
    case PingreqPacket(f) => f
    case DisconnectPacket(q) => q.fixed
    case AuthPacket(q) => q.fixed
  }

  /** A decoder's outcome as the outcome of `getProtoByFixed`: the structure
   *  and the decoder's error value. */
  function Lift<T>(u: Run<(T, bool)>, wrap: T -> Packet5): (r: Run<Result<(Packet5, bool), DispatchError>>)
    ensures r.Returns? <==> u.Returns?
    ensures r.Panics? <==> u.Panics?
    ensures u.Returns? ==> r.value == Ok((wrap(u.value.0), u.value.1))
  {
    match u
    case Returns(v) => Returns(Ok((wrap(v.0), v.1)))
    case Panics => Panics
    case Diverges => Diverges
  }

  /** `getProtoByFixed`: a second CONNECT and an unknown header byte are
   *  refused with no structure; every PUBLISH byte 0x30..0x3D goes to the
   *  PUBLISH decoder; the four acknowledgements are built from the header
   *  (which takes the identifier at once) and decoded; PINGREQ is built and
   *  never decoded; SUBSCRIBE, UNSUBSCRIBE, DISCONNECT and AUTH are decoded.
   *  The decoder's error value is passed on with the structure. */
  function GetProtoByFixed(f: Fixed): (r: Run<Result<(Packet5, bool), DispatchError>>)
    ensures f.headerFlag == CONNECT ==> r == Returns(Err(ConnectAgain))
    ensures !Dispatched(f.headerFlag) && f.headerFlag != CONNECT ==> r == Returns(Err(NoSuchProto))
    ensures r.Returns? && r.value.Ok? ==> Dispatched(f.headerFlag) && KindFits(r.value.value.0, f.headerFlag)
    ensures f.headerFlag == PINGREQ ==> r == Returns(Ok((PingreqPacket(f), false)))
    ensures f.headerFlag in {DISCONNECT, AUTH} && r.Returns? ==> r.value.Ok? && !r.value.value.1
    ensures f.headerFlag in {PUBACK, PUBREC, PUBREL, PUBCOMP} && |f.data| < 2 ==> r.Panics?
  {
    var flag := f.headerFlag;
    if flag == CONNECT then Returns(Err(ConnectAgain))
    else if PUBLISH <= flag <= PUBLISHMAX then
      Lift(UnPackPublish(NewPublish(f)), (q: Publish) => PublishPacket(q))
    else if flag in {PUBACK, PUBREC, PUBREL, PUBCOMP} then
      match NewAckF(f)
      case Returns(a) => Lift(UnPackAck(a), (q: Ack) => AckPacket(q))
      case Panics => Panics
      case Diverges => Diverges
    else if flag == SUBSCRIBE then
      Lift(UnPackSubscribe(NewSubscription(f)), (q: Subscription) => SubscribePacket(q))
    else if flag == UNSUBSCRIBE then
      Lift(UnPackUnsubscribe(NewSubscription(f)), (q: Subscription) => UnsubscribePacket(q))
    else if flag == PINGREQ then Returns(Ok((PingreqPacket(f), false)))
    else if flag == DISCONNECT then
      Lift(Disconnect5.UnPackDisconnect(Disconnect5.NewDisconnect(f)), (q: Disconnect) => DisconnectPacket(q))
    else if flag == AUTH then
      Lift(UnPackAuth(NewAuthF(f)), (q: Auth) => AuthPacket(q))
    else Returns(Err(NoSuchProto))
  }

  /** Every structure `getProtoByFixed` returns keeps the fixed header it was given. */
  lemma DispatchKeepsFixed(f: Fixed)
    requires GetProtoByFixed(f).Returns? && GetProtoByFixed(f).value.Ok?
    ensures FixedOf(GetProtoByFixed(f).value.value.0) == f
  {
    var flag := f.headerFlag;
    if PUBLISH <= flag <= PUBLISHMAX && f.msgLen >= 5 {
      PublishReadsTopic(NewPublish(f));
    }
  }

  /** Each header byte reaches its own decoder: what the decoder returns,
   *  `getProtoByFixed` returns in the matching structure. */
  lemma PublishRoute(f: Fixed, v: (Publish, bool))
    requires PUBLISH <= f.headerFlag <= PUBLISHMAX && UnPackPublish(NewPublish(f)) == Returns(v)
    ensures GetProtoByFixed(f) == Returns(Ok((PublishPacket(v.0), v.1)))
  {
  }

  lemma AckRoute(f: Fixed, a: Ack, v: (Ack, bool))
    requires f.headerFlag in {PUBACK, PUBREC, PUBREL, PUBCOMP}
    requires NewAckF(f) == Returns(a) && UnPackAck(a) == Returns(v)
    ensures GetProtoByFixed(f) == Returns(Ok((AckPacket(v.0), v.1)))
  {
  }

  lemma SubscribeRoute(f: Fixed, v: (Subscription, bool))
    requires f.headerFlag == SUBSCRIBE && UnPackSubscribe(NewSubscription(f)) == Returns(v)
    ensures GetProtoByFixed(f) == Returns(Ok((SubscribePacket(v.0), v.1)))
  {
    assert !(PUBLISH <= f.headerFlag <= PUBLISHMAX) && !(f.headerFlag in {PUBACK, PUBREC, PUBREL, PUBCOMP});
  }

  lemma UnsubscribeRoute(f: Fixed, v: (Subscription, bool))
    requires f.headerFlag == UNSUBSCRIBE && UnPackUnsubscribe(NewSubscription(f)) == Returns(v)
    ensures GetProtoByFixed(f) == Returns(Ok((UnsubscribePacket(v.0), v.1)))
  {
    assert !(PUBLISH <= f.headerFlag <= PUBLISHMAX) && !(f.headerFlag in {PUBACK, PUBREC, PUBREL, PUBCOMP}) && f.headerFlag != SUBSCRIBE;
  }

  lemma DisconnectRoute(f: Fixed, v: (Disconnect, bool))
    requires f.headerFlag == DISCONNECT && Disconnect5.UnPackDisconnect(Disconnect5.NewDisconnect(f)) == Returns(v)
    ensures GetProtoByFixed(f) == Returns(Ok((DisconnectPacket(v.0), v.1)))
  {
  }

  lemma AuthRoute(f: Fixed, v: (Auth, bool))
    requires f.headerFlag == AUTH && UnPackAuth(NewAuthF(f)) == Returns(v)
    ensures GetProtoByFixed(f) == Returns(Ok((AuthPacket(v.0), v.1)))
  {
  }

  // ---------------------------------------------------------------- from the wire

  /** A PUBLISH that `Pack` wrote, read and dispatched, is a PUBLISH structure
   *  with the topic, the payload, the QoS and retain flag of its header byte
   *  and, above QoS 0, the message id, and no error. */
  lemma PublishDispatched(p: Publish)
    requires PublishWellTyped(p) && PUBLISH <= p.fixed.headerFlag <= PUBLISHMAX
    requires p.topicNameLength == |p.topicName| < 0xFFFC && p.propertiesLength == 0
    requires p.qos == QoS0 <==> p.fixed.headerFlag in {PUBLISH, PUBLISH31}
    requires p.fixed.msgLen == 2 + |p.topicName| + (if p.qos > QoS0 then 2 else 0) + 1 + |p.payload|
    requires 5 <= p.fixed.msgLen <= MaxLength
    ensures var bytes := PackPublish(p);
      UnPackFixed(bytes).Ok?
      && var r := GetProtoByFixed(UnPackFixed(bytes).value.0);
      && r.Returns? && r.value.Ok? && r.value.value.0.PublishPacket? && !r.value.value.1
      && var q := r.value.value.0.publish;
      && q.topicName == p.topicName && q.payload == p.payload
      && q.qos == PublishQos(p.fixed.headerFlag) && q.retain == PublishRetain(p.fixed.headerFlag)
      && (p.qos > QoS0 ==> q.msgId == p.msgId)
  {
    PublishRoundTrip(p);
    var f := UnPackFixed(PackPublish(p)).value.0;
    PublishRoute(f, UnPackPublish(NewPublish(f)).value);
  }

  /** An acknowledgement the server writes (PUBACK, PUBREC or PUBCOMP), read
   *  and dispatched, is that acknowledgement with its identifier, id and
   *  reason code, and no error. */
  lemma AckDispatched(flag: byte, pid: Pid, rc: byte)
    requires flag in {PUBACK, PUBREC, PUBCOMP}
    ensures var f := Fixed(flag, 4, [pid.msb, pid.lsb, rc, 0]);
      UnPackFixed(PackAck(NewAck(flag, pid, rc))) == Ok((f, 6))
      && GetProtoByFixed(f) == Returns(Ok((AckPacket(Ack(f, pid, BE16(pid.msb, pid.lsb), rc, 0, Success)), false)))
  {
    AckRoundTrip(flag, pid, rc);
    var f := Fixed(flag, 4, [pid.msb, pid.lsb, rc, 0]);
    AckRoute(f, NewAckF(f).value, UnPackAck(NewAckF(f).value).value);
  }

  /** A SUBSCRIBE framed around an identifier, a property block and encoded
   *  filters is dispatched to a SUBSCRIBE structure holding them in order. */
  lemma SubscribeDispatched(pid: Pid, props: seq<byte>, fs: seq<TopicFilter>)
    requires |props| <= MaxLength
    requires forall i :: 0 <= i < |fs| ==> 1 <= |fs[i].filterName| <= 0xFFFC && fs[i].identifier == |fs[i].filterName|
    requires 7 <= |SubscriptionBody(pid, props, EncodeSubscribeFilters(fs))| <= MaxLength
    ensures var body := SubscriptionBody(pid, props, EncodeSubscribeFilters(fs));
      var f := Fixed(SUBSCRIBE, |body|, body);
      UnPackFixed(Frame(SUBSCRIBE, body)) == Ok((f, |Frame(SUBSCRIBE, body)|))
      && GetProtoByFixed(f)
         == Returns(Ok((SubscribePacket(Subscription(f, pid, BE16(pid.msb, pid.lsb), |props|, fs, Success)), false)))
  {
    var body := SubscriptionBody(pid, props, EncodeSubscribeFilters(fs));
    var f := Fixed(SUBSCRIBE, |body|, body);
    FrameRoundTrip(SUBSCRIBE, body, []);
    assert Frame(SUBSCRIBE, body) + [] == Frame(SUBSCRIBE, body);
    SubscribeRoundTrip(pid, props, fs);
    SubscribeRoute(f, UnPackSubscribe(NewSubscription(f)).value);
  }

  /** An UNSUBSCRIBE framed the same way is dispatched to an UNSUBSCRIBE
   *  structure holding the filter names in order. */
  lemma UnsubscribeDispatched(pid: Pid, props: seq<byte>, fs: seq<TopicFilter>)
    requires |props| <= MaxLength
    requires forall i :: 0 <= i < |fs| ==>
      1 <= |fs[i].filterName| <= 0xFFFD && fs[i].identifier == |fs[i].filterName| && fs[i].qos == 0
    requires 6 <= |SubscriptionBody(pid, props, EncodeUnsubscribeFilters(fs))| <= MaxLength
    ensures var body := SubscriptionBody(pid, props, EncodeUnsubscribeFilters(fs));
      var f := Fixed(UNSUBSCRIBE, |body|, body);
      UnPackFixed(Frame(UNSUBSCRIBE, body)) == Ok((f, |Frame(UNSUBSCRIBE, body)|))
      && GetProtoByFixed(f)
         == Returns(Ok((UnsubscribePacket(Subscription(f, pid, BE16(pid.msb, pid.lsb), |props|, fs, Success)), false)))
  {
    var body := SubscriptionBody(pid, props, EncodeUnsubscribeFilters(fs));
    var f := Fixed(UNSUBSCRIBE, |body|, body);
    FrameRoundTrip(UNSUBSCRIBE, body, []);
    assert Frame(UNSUBSCRIBE, body) + [] == Frame(UNSUBSCRIBE, body);
    UnsubscribeRoundTrip(pid, props, fs);
    UnsubscribeRoute(f, UnPackUnsubscribe(NewSubscription(f)).value);
  }

  /** A DISCONNECT with a reason code and a property block is dispatched to a
   *  DISCONNECT structure holding every property, without error. */
  lemma DisconnectDispatched(reason: byte, ps: Disconnect5.PropertyList)
    requires Disconnect5.AllEncodable(ps) && ps.Cons?
    requires |Disconnect5.DisconnectBody(reason, ps)| <= MaxLength
    requires |Disconnect5.EncodeProperties(ps)| <= MaxLength
    ensures var body := Disconnect5.DisconnectBody(reason, ps);
      var f := Fixed(DISCONNECT, |body|, body);
      UnPackFixed(Frame(DISCONNECT, body)) == Ok((f, |Frame(DISCONNECT, body)|))
      && GetProtoByFixed(f)
         == Returns(Ok((DisconnectPacket(Disconnect5.ApplyAll(
              Disconnect(f, reason, |Disconnect5.EncodeProperties(ps)|, 0, [], []), ps)), false)))
  {
    var body := Disconnect5.DisconnectBody(reason, ps);
    FrameRoundTrip(DISCONNECT, body, []);
    assert Frame(DISCONNECT, body) + [] == Frame(DISCONNECT, body);
    var f := Fixed(DISCONNECT, |body|, body);
    Disconnect5.DisconnectRoundTrip(reason, ps);
    DisconnectRoute(f, Disconnect5.UnPackDisconnect(Disconnect5.NewDisconnect(f)).value);
  }

  /** The default AUTH packet, read and dispatched, is an AUTH structure with
   *  reason 0 and no properties. */
  lemma AuthDispatched()
    ensures var f := Fixed(AUTH, 2, [0, 0]);
      UnPackFixed(PackAuth(NewAuth())) == Ok((f, 4))
      && GetProtoByFixed(f) == Returns(Ok((AuthPacket(Auth(f, 0, 0)), false)))
  {
    AuthRoundTrip();
    var f := Fixed(AUTH, 2, [0, 0]);
    AuthRoute(f, UnPackAuth(NewAuthF(f)).value);
  }
}
