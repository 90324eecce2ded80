/**
 * `CONNECTProtocol` of `mqtt5/proto/CONNECT.go`: the client's first packet.
 * `UnPack` walks the packet's `Data` with a `uint16` cursor, validates the
 * variable header, reads the CONNECT properties, the client id, the will (with
 * its own properties) and the credentials, writing the structure's fields as
 * it goes and leaving a reason code in `AckCode`. Every refusal returns the
 * structure as written up to that point.
 *
 * Go slices carry a capacity: `Data` is allocated with exactly its length, so
 * the sub-slices taken by re-slicing forwards have capacity equal to their
 * length, except the property buffers `temp`, which reach to the end of the
 * slice they were cut from. Slicing `temp` is bounded by that capacity,
 * indexing it by its length; the model carries both.
 */
module Connect5 {
  import opened Bytes
  import opened RemainingLength
  import opened FixedHeader
  import opened LengthPrefixed
  import opened ConnectFlags
  import opened Proto5

  /** The CONNECT properties the decoder stores. */
  datatype Props = Props(sessionExpiryInterval: nat, receiveMaximum: nat, maximumPacketSize: nat,
                         topicAliasMaximum: nat, userProperty: map<seq<byte>, seq<byte>>)

  /** The will properties the decoder stores. */
  datatype WillProps = WillProps(payloadFormatIndicator: byte, messageExpiryInterval: nat,
                                 contentType: seq<byte>, responseTopic: seq<byte>,
                                 correlationData: seq<byte>, willDelayInterval: nat)

  /** The fields of `CONNECTProtocol` that `UnPack`, `Pack` and the client
   *  constructor touch. */
  datatype Connect = Connect(
    fixed: Fixed,
    protoNameLen: nat, protoName: seq<byte>, version: byte, connectFlag: byte, keepAlive: nat,
    propertiesLength: nat, props: Props,
    clientIDLength: nat, clientID: seq<byte>,
    willProperties: nat, will: WillProps,
    willTopicLength: nat, willTopic: seq<byte>,
    willMessageLength: nat, willMessage: seq<byte>,
    userNameLength: nat, userName: seq<byte>,
    passwordLength: nat, password: seq<byte>,
    cleanStart: bool, willFlag: bool, willRetain: bool, willQos: byte, ackCode: byte)

  const NoProps := Props(0, 0, 0, 0, map[])
  const NoWillProps := WillProps(0, 0, [], [], [], 0)

  /** `NewCONNECTProtocol`: everything zero, an empty user-property map, `AckCode` `Success`. */
  function NewConnect(f: Fixed): (c: Connect)
    ensures c.fixed == f && c.ackCode == Success && c.props.userProperty == map[]
    ensures !c.cleanStart && !c.willFlag && !c.willRetain && c.willQos == QoS0
  {
    Connect(f, 0, [], 0, 0, 0, 0, NoProps, 0, [], 0, NoWillProps, 0, [], 0, [], 0, [], 0, [],
            false, false, false, QoS0, Success)
  }

  // ------------------------------------------------------------ CONNECT properties

  /** One pass of the CONNECT property loop at cursor `t`: `buf` is the slice
   *  from the block's start to the end of `Data` (the capacity of `temp`) and
   *  `len` the length of `temp`. Session expiry and maximum packet size
   *  advance 5 bytes, receive maximum and topic alias maximum 3, a user
   *  property 1 + 2 + key + 2 + value. Any other identifier, among them the
   *  four the source announces and skips (0x15, 0x16, 0x17, 0x19), leaves `t`
   *  where it was: the `break` only leaves the `switch`, so the loop never
   *  ends. */
  function PropertyAt(buf: seq<byte>, len: nat, t: nat, acc: Props): (s: Step<Props>)
    requires len <= |buf| && t < len
    ensures s.Next? ==> s.t > t
  {
    var id := buf[t];
    if id == SessionEI || id == MaximumPS then
      if t + 5 > |buf| then Stop(Panics)
      else
        var v := BE32(buf[t + 1..t + 5]);
        Next(t + 5, if id == SessionEI then acc.(sessionExpiryInterval := v) else acc.(maximumPacketSize := v))
    else if id == ReceiveMaximum || id == TopicAM then
      if t + 3 > |buf| then Stop(Panics)
      else
        var v := BE16(buf[t + 1], buf[t + 2]);
        Next(t + 3, if id == ReceiveMaximum then acc.(receiveMaximum := v) else acc.(topicAliasMaximum := v))
    else if id == UserProperty then
      if t + 3 > |buf| then Stop(Panics)
      else
        var k := t + 3;
        var kl := BE16(buf[t + 1], buf[t + 2]);
        if k + kl + 2 > |buf| then Stop(Panics)
        else
          var v := k + kl + 2;
          var vl := BE16(buf[k + kl], buf[k + kl + 1]);
          if v + vl > |buf| then Stop(Panics)
          else Next(v + vl, acc.(userProperty := acc.userProperty[buf[k..k + kl] := buf[v..v + vl]]))
    else Stop(Diverges)
  }

  /** The CONNECT property loop from cursor `t`, which runs while `t` is below
   *  the declared property length `pl`; indexing past `len` panics. */
  function PropertyLoop(buf: seq<byte>, len: nat, pl: nat, t: nat, acc: Props): (r: Run<Props>)
    requires len <= |buf|
    decreases if t <= pl then pl - t else 0
  {
    if t >= pl then Returns(acc)
    else if t >= len then Panics
    else
      match PropertyAt(buf, len, t, acc)
      case Next(t2, next) => PropertyLoop(buf, len, pl, t2, next)
      case Stop(r) => r
  }

  /** A pass that moves the cursor continues the loop from where it moved to. */
  lemma PropertyAdvance(buf: seq<byte>, len: nat, pl: nat, t: nat, acc: Props)
    requires len <= |buf| && t < pl && t < len && PropertyAt(buf, len, t, acc).Next?
    ensures PropertyLoop(buf, len, pl, t, acc)
            == PropertyLoop(buf, len, pl, PropertyAt(buf, len, t, acc).t, PropertyAt(buf, len, t, acc).acc)
  {
  }

  /** The body of the source's loop at cursor `tinx`: the `switch` on the
   *  identifier, giving the advanced cursor and the stored value. */
  method ReadProperty(buf: seq<byte>, len: nat, tinx: nat, acc: Props) returns (s: Step<Props>)
    requires len <= |buf| && tinx < len
    ensures s == PropertyAt(buf, len, tinx, acc)
  {
    var id := buf[tinx];
    if id == SessionEI || id == MaximumPS {
      if tinx + 5 > |buf| {
        return Stop(Panics);
      }
      var v := BE32(buf[tinx + 1..tinx + 5]);
      if id == SessionEI {
        s := Next(tinx + 5, acc.(sessionExpiryInterval := v));
      } else {
        s := Next(tinx + 5, acc.(maximumPacketSize := v));
      }
    } else if id == ReceiveMaximum || id == TopicAM {
      if tinx + 3 > |buf| {
        return Stop(Panics);
      }
      var v := BE16(buf[tinx + 1], buf[tinx + 2]);
      if id == ReceiveMaximum {
        s := Next(tinx + 3, acc.(receiveMaximum := v));
      } else {
        s := Next(tinx + 3, acc.(topicAliasMaximum := v));
      }
    } else if id == UserProperty {
      if tinx + 3 > |buf| {
        return Stop(Panics);
      }
      var keyLen := BE16(buf[tinx + 1], buf[tinx + 2]);
      var t := tinx + 3;
      if t + keyLen + 2 > |buf| {
        return Stop(Panics);
      }
      var key := buf[t..t + keyLen];
      t := t + keyLen;
      var valLen := BE16(buf[t], buf[t + 1]);
      t := t + 2;
      if t + valLen > |buf| {
        return Stop(Panics);
      }
      var val := buf[t..t + valLen];
      s := Next(t + valLen, acc.(userProperty := acc.userProperty[key := val]));
    } else {
      s := Stop(Diverges);
    }
  }

  /** The loop as the source writes it, with the cursor `tinx`. Where the
   *  source would spin on an identifier it does not advance over, the method
   *  stops and reports `Diverges`. */
  method ReadProperties(buf: seq<byte>, len: nat, pl: nat, init: Props) returns (r: Run<Props>)
    requires len <= |buf|
    ensures r == PropertyLoop(buf, len, pl, 0, init)
  {
    var tinx := 0;
    var acc := init;
    while tinx < pl
      invariant PropertyLoop(buf, len, pl, 0, init) == PropertyLoop(buf, len, pl, tinx, acc)
      decreases pl - tinx
    {
      if tinx >= len {
        return Panics;
      }
      var s := ReadProperty(buf, len, tinx, acc);
      if s.Stop? {
        return s.r;
      }
      PropertyAdvance(buf, len, pl, tinx, acc);
      tinx, acc := s.t, s.acc;
    }
    r := Returns(acc);
  }

  // ------------------------------------------------------------ will properties

  /** One pass of the will property loop over `temp := d2[idx : idx+wp]`,
   *  whose capacity reaches to the end of `d2`. The payload format indicator
   *  is read from `d2[t+1]`, not from `temp`, and the cursor becomes
   *  `t + t + 2` (`tinx += tinx+1+1`). Message expiry and will delay advance 5
   *  bytes; content type, response topic and correlation data 3 + their
   *  length. Any other identifier leaves the cursor in place and the loop
   *  never ends. */
  function WillAt(d2: seq<byte>, idx: nat, wp: nat, t: nat, acc: WillProps): (s: Step<WillProps>)
    requires idx + wp <= |d2| && t < wp
    ensures s.Next? ==> s.t > t
  {
    var id := d2[idx + t];
    if id == PayloadFI then
      if t + 1 >= |d2| then Stop(Panics)
      else Next(t + t + 2, acc.(payloadFormatIndicator := d2[t + 1]))
    else if id == MessageEI || id == WillDI then
      if idx + t + 5 > |d2| then Stop(Panics)
      else
        var v := BE32(d2[idx + t + 1..idx + t + 5]);
        Next(t + 5, if id == MessageEI then acc.(messageExpiryInterval := v) else acc.(willDelayInterval := v))
    else if id == ContentType || id == ResponseTopic || id == CorrelationData then
      if idx + t + 3 > |d2| then Stop(Panics)
      else
        var n := BE16(d2[idx + t + 1], d2[idx + t + 2]);
        var s := t + 3;
        if idx + s + n > |d2| then Stop(Panics)
        else
          var v := d2[idx + s..idx + s + n];
          Next(s + n,
            if id == ContentType then acc.(contentType := v)
            else if id == ResponseTopic then acc.(responseTopic := v)
            else acc.(correlationData := v))
    else Stop(Diverges)
  }

  /** The will property loop from cursor `t`, while `t` is below the declared
   *  will property length `wp`. */
  function WillLoop(d2: seq<byte>, idx: nat, wp: nat, t: nat, acc: WillProps): (r: Run<WillProps>)
    requires idx + wp <= |d2|
    decreases if t <= wp then wp - t else 0
  {
    if t >= wp then Returns(acc)
    else
      match WillAt(d2, idx, wp, t, acc)
      case Next(t2, next) => WillLoop(d2, idx, wp, t2, next)
      case Stop(r) => r
  }

  /** A pass that moves the cursor continues the loop from where it moved to. */
  lemma WillAdvance(d2: seq<byte>, idx: nat, wp: nat, t: nat, acc: WillProps)
    requires idx + wp <= |d2| && t < wp && WillAt(d2, idx, wp, t, acc).Next?
    ensures WillLoop(d2, idx, wp, t, acc)
            == WillLoop(d2, idx, wp, WillAt(d2, idx, wp, t, acc).t, WillAt(d2, idx, wp, t, acc).acc)
  {
  }

  /** The body of the source's will loop at cursor `tinx`. */
  method ReadWillProperty(d2: seq<byte>, idx: nat, wp: nat, tinx: nat, acc: WillProps) returns (s: Step<WillProps>)
    requires idx + wp <= |d2| && tinx < wp
    ensures s == WillAt(d2, idx, wp, tinx, acc)
  {
    var id := d2[idx + tinx];
    if id == PayloadFI {
      if tinx + 1 >= |d2| {
        s := Stop(Panics);
      } else {
        s := Next(tinx + tinx + 1 + 1, acc.(payloadFormatIndicator := d2[tinx + 1]));
      }
    } else if id == MessageEI || id == WillDI {
      if idx + tinx + 5 > |d2| {
        s := Stop(Panics);
      } else {
        var v := BE32(d2[idx + tinx + 1..idx + tinx + 5]);
        if id == MessageEI {
          s := Next(tinx + 5, acc.(messageExpiryInterval := v));
        } else {
          s := Next(tinx + 5, acc.(willDelayInterval := v));
        }
      }
    } else if id == ContentType || id == ResponseTopic || id == CorrelationData {
      if idx + tinx + 3 > |d2| {
        s := Stop(Panics);
      } else {
        var ctLen := BE16(d2[idx + tinx + 1], d2[idx + tinx + 2]);
        var t := tinx + 3;
        if idx + t + ctLen > |d2| {
          s := Stop(Panics);
        } else {
          var v := d2[idx + t..idx + t + ctLen];
          if id == ContentType {
            s := Next(t + ctLen, acc.(contentType := v));
          } else if id == ResponseTopic {
            s := Next(t + ctLen, acc.(responseTopic := v));
          } else {
            s := Next(t + ctLen, acc.(correlationData := v));
          }
        }
      }
    } else {
      s := Stop(Diverges);
    }
  }

  /** The will property loop as the source writes it. */
  method ReadWillProperties(d2: seq<byte>, idx: nat, wp: nat, init: WillProps) returns (r: Run<WillProps>)
    requires idx + wp <= |d2|
    ensures r == WillLoop(d2, idx, wp, 0, init)
  {
    var tinx := 0;
    var acc := init;
    while tinx < wp
      invariant WillLoop(d2, idx, wp, 0, init) == WillLoop(d2, idx, wp, tinx, acc)
      decreases wp - tinx
    {
      var s := ReadWillProperty(d2, idx, wp, tinx, acc);
      if s.Stop? {
        return s.r;
      }
      WillAdvance(d2, idx, wp, tinx, acc);
      tinx, acc := s.t, s.acc;
    }
    r := Returns(acc);
  }

  // ------------------------------------------------------------ UnPack

  /** The reason codes `UnPack` can leave behind. */
  const UnPackCodes: set<byte> := {Success, Malformed_Packet, Protocol_Error, ClientInotv, BadUNorP, Topic_Name_invalid}

  /** What `UnPack` promises of a structure it accepts. */
  ghost predicate Accepted(f: Fixed, c: Connect)
  {
    && c.fixed == f && c.ackCode == Success
    && c.protoNameLen == 4 && c.protoName == MqttName && c.version == 5
    && 1 <= c.clientIDLength == |c.clientID|
    && !Bit(c.connectFlag, 0)
    && (c.cleanStart <==> Bit(c.connectFlag, 1))
    && (c.willFlag <==> Bit(c.connectFlag, 2))
    && (c.willFlag ==> 1 <= c.willTopicLength == |c.willTopic| && 1 <= c.willMessageLength == |c.willMessage|)
    && (c.willRetain <==> c.willFlag && Bit(c.connectFlag, 5))
    && c.willQos == (if c.willFlag then WillQos(c.connectFlag) else QoS0)
    && (Bit(c.connectFlag, 7) ==> 1 <= c.userNameLength == |c.userName|)
    && (Bit(c.connectFlag, 6) ==> 1 <= c.passwordLength == |c.password|)
  }

  /** `UnPack`. Too short a packet or a header byte other than CONNECT is
   *  malformed; a protocol name that is not the four bytes "MQTT", or a level
   *  other than 5, is a protocol error. The property cursor is a `uint16`, and
   *  `temp` is cut at `indx + uint16(PropertiesLength)`, so a block of 65536
   *  bytes or more is cut short. Every path that returns an error first
   *  stores a reason code other than `Success`, and the one path that returns
   *  nil leaves `Success`, so the error value is the reason code. */
  function UnPack(f: Fixed): (r: Run<Connect>)
    ensures f.msgLen < 14 || f.headerFlag != CONNECT ==> r == Returns(NewConnect(f).(ackCode := Malformed_Packet))
    ensures (f.msgLen >= 14 && f.headerFlag == CONNECT && |f.data| >= 2 && BE16(f.data[0], f.data[1]) != 4) ==>
      r.Returns? && r.value.ackCode == Protocol_Error && r.value.protoNameLen == BE16(f.data[0], f.data[1])
    ensures (f.msgLen >= 14 && f.headerFlag == CONNECT && |f.data| >= 7 && BE16(f.data[0], f.data[1]) == 4 &&
      (f.data[2..6] != MqttName || f.data[6] != 5)) ==> r.Returns? && r.value.ackCode == Protocol_Error
    ensures r.Returns? ==> r.value.ackCode in UnPackCodes && r.value.fixed == f
    ensures r.Returns? && r.value.ackCode == Success ==> Accepted(f, r.value)
  {
    var p := NewConnect(f);
    if f.msgLen < 14 || f.headerFlag != CONNECT then Returns(p.(ackCode := Malformed_Packet))
    else
      var d := f.data;
      if |d| < 2 then Panics
      else
        var p1 := p.(protoNameLen := BE16(d[0], d[1]));
        if p1.protoNameLen != 4 then Returns(p1.(ackCode := Protocol_Error))
        else if |d| < 6 then Panics
        else
          var p2 := p1.(protoName := d[2..6]);
          if p2.protoName != MqttName then Returns(p2.(ackCode := Protocol_Error))
          else if |d| < 7 then Panics
          else
            var p3 := p2.(version := d[6]);
            if p3.version != 5 then Returns(p3.(ackCode := Protocol_Error))
            else if |d| < 10 then Panics
            else
              var p4 := p3.(connectFlag := d[7], keepAlive := BE16(d[8], d[9]));
              var field := By2Len32AndIndex(d[10..]);
              if !field.Returns? then Panics
              else
                var (pl, cou) := field.value;
                var indx := 10 + cou;
                var p5 := p4.(propertiesLength := pl);
                if pl == 0 then Payload(p5, d[indx..])
                else
                  var hi := Add16(indx, pl % 0x1_0000);
                  if hi < indx || hi > |d| then Panics
                  else
                    var props := PropertyLoop(d[indx..], hi - indx, pl, 0, p5.props);
                    if props.Panics? then Panics
                    else if props.Diverges? then Diverges
                    else Payload(p5.(props := props.value), d[hi..])
  }

  /** The payload: the client id, then the connect flags' reserved bit and
   *  clean start, the will and the credentials. */
  function Payload(p: Connect, daByp: seq<byte>): (r: Run<Connect>)
    requires p.ackCode == Success && p.protoNameLen == 4 && p.protoName == MqttName && p.version == 5
    requires !p.cleanStart && !p.willFlag && !p.willRetain && p.willQos == QoS0
    ensures |daByp| < 3 ==> r == Returns(p.(ackCode := ClientInotv))
    ensures (|daByp| >= 3 && BE16(daByp[0], daByp[1]) < 0xFFFE &&
      (BE16(daByp[0], daByp[1]) == 0 || |daByp| < 2 + BE16(daByp[0], daByp[1]))) ==>
      r.Returns? && r.value.ackCode == ClientInotv
    ensures (|daByp| >= 3 && 1 <= BE16(daByp[0], daByp[1]) < 0xFFFE && 2 + BE16(daByp[0], daByp[1]) <= |daByp|
      && Bit(p.connectFlag, 0)) ==> r.Returns? && r.value.ackCode == Malformed_Packet
    ensures r.Returns? ==> r.value.ackCode in UnPackCodes && r.value.fixed == p.fixed
    ensures r.Returns? && r.value.ackCode == Success ==>
      Accepted(p.fixed, r.value)
      && r.value.connectFlag == p.connectFlag && r.value.props == p.props
      && r.value.keepAlive == p.keepAlive && r.value.propertiesLength == p.propertiesLength
  {
    if |daByp| < 3 then Returns(p.(ackCode := ClientInotv))
    else
      var cid := By2LenNameBE(daByp);
      if !cid.Returns? then Panics
      else
        var p1 := p.(clientIDLength := cid.value.blen, clientID := cid.value.name);
        if p1.clientIDLength < 1 || p1.clientID == [] then Returns(p1.(ackCode := ClientInotv))
        else
          var daByp2 := daByp[Add16(2, p1.clientIDLength)..];
          var bs := Binary8(p.connectFlag);
          if bs[7] != '0' then Returns(p1.(ackCode := Malformed_Packet))
          else
            var p2 := if bs[6] == '1' then p1.(cleanStart := true) else p1;
            if bs[5] == '1' then
              var w := Will(p2, daByp2);
              if w.Panics? then Panics
              else if w.Diverges? then Diverges
              else if w.value.0.ackCode != Success then Returns(w.value.0)
              else Credentials(w.value.0, w.value.1)
            else Credentials(p2, daByp2)
  }

  /** The will: at least seven bytes, the will property block, then the will
   *  topic and message. Returns the structure and the bytes after the will;
   *  a refusal is a reason code other than `Success`. */
  function Will(p: Connect, d2: seq<byte>): (r: Run<(Connect, seq<byte>)>)
    requires p.ackCode == Success && !p.willFlag && !p.willRetain && p.willQos == QoS0
    ensures |d2| < 7 ==> r == Returns((p.(ackCode := Malformed_Packet), d2))
    ensures r.Returns? ==> var q := r.value.0;
      && q.ackCode in {Success, Malformed_Packet, Topic_Name_invalid}
      && q.fixed == p.fixed && q.protoNameLen == p.protoNameLen && q.protoName == p.protoName
      && q.version == p.version && q.connectFlag == p.connectFlag && q.keepAlive == p.keepAlive
      && q.propertiesLength == p.propertiesLength && q.props == p.props
      && q.clientIDLength == p.clientIDLength && q.clientID == p.clientID && q.cleanStart == p.cleanStart
      && q.userNameLength == p.userNameLength && q.passwordLength == p.passwordLength
      && q.userName == p.userName && q.password == p.password
    ensures r.Returns? && r.value.0.ackCode == Success ==> var q := r.value.0;
      && q.willFlag && 1 <= q.willTopicLength == |q.willTopic| && 1 <= q.willMessageLength == |q.willMessage|
      && (q.willRetain <==> Bit(p.connectFlag, 5)) && q.willQos == WillQos(p.connectFlag)
  {
    if |d2| < 7 then Returns((p.(ackCode := Malformed_Packet), d2))
    else
      var field := By2Len32AndIndex(d2);
      if !field.Returns? then Panics
      else
        var (wp, idx) := field.value;
        var p1 := p.(willProperties := wp);
        if wp == 0 then WillTopic(p1, d2)
        else if idx + wp > |d2| then Panics
        else
          var w := WillLoop(d2, idx, wp, 0, p1.will);
          if w.Panics? then Panics
          else if w.Diverges? then Diverges
          else WillTopic(p1.(will := w.value), d2[idx + wp..])
  }

  /** The will topic and message, each a non-empty prefixed string; then the
   *  will flag, retain and QoS. The cursor past them is a `uint16` sum. */
  function WillTopic(p: Connect, d3: seq<byte>): (r: Run<(Connect, seq<byte>)>)
    requires p.ackCode == Success && !p.willFlag && !p.willRetain && p.willQos == QoS0
    ensures !r.Diverges?
    ensures r.Returns? ==> var q := r.value.0;
      && q.ackCode in {Success, Topic_Name_invalid}
      && q == p.(willTopicLength := q.willTopicLength, willTopic := q.willTopic,
                 willMessageLength := q.willMessageLength, willMessage := q.willMessage,
                 willFlag := q.willFlag, willRetain := q.willRetain, willQos := q.willQos, ackCode := q.ackCode)
    ensures r.Returns? && r.value.0.ackCode == Success ==> var q := r.value.0;
      && q.willFlag && 1 <= q.willTopicLength == |q.willTopic| && 1 <= q.willMessageLength == |q.willMessage|
      && (q.willRetain <==> Bit(p.connectFlag, 5)) && q.willQos == WillQos(p.connectFlag)
  {
    var t := By2LenNameBE(d3);
    if !t.Returns? then Panics
    else
      var p1 := p.(willTopicLength := t.value.blen, willTopic := t.value.name);
      if p1.willTopicLength < 1 || p1.willTopic == [] then Returns((p1.(ackCode := Topic_Name_invalid), d3))
      else
        var m := By2LenNameBE(d3[Add16(2, p1.willTopicLength)..]);
        if !m.Returns? then Panics
        else
          var p2 := p1.(willMessageLength := m.value.blen, willMessage := m.value.name);
          if p2.willMessageLength < 1 || p2.willMessage == [] then Returns((p2.(ackCode := Topic_Name_invalid), d3))
          else
            var bs := Binary8(p.connectFlag);
            var p3 := p2.(willFlag := true);
            var p4 := if bs[2] == '1' then p3.(willRetain := true) else p3;
            var p5 := if bs[3] == '0' && bs[4] == '1' then p4.(willQos := QoS1) else p4;
            var p6 := if bs[3] == '1' && bs[4] == '0' then p5.(willQos := QoS2) else p5;
            var e := Add16(Add16(Add16(2, p2.willTopicLength), 2), p2.willMessageLength);
            Returns((p6, d3[e..]))
  }

  /** The refusals of `WillTopic`: fewer than two bytes or a topic length of
   *  65534 or more panics; a zero topic length, a topic reaching past the
   *  bytes, or a zero message length is `Topic_Name_invalid`. */
  lemma WillTopicCases(p: Connect, d3: seq<byte>)
    requires p.ackCode == Success && !p.willFlag && !p.willRetain && p.willQos == QoS0
    ensures |d3| < 2 || BE16(d3[0], d3[1]) >= 0xFFFE ==> WillTopic(p, d3).Panics?
    ensures |d3| >= 2 && BE16(d3[0], d3[1]) == 0 ==>
      WillTopic(p, d3) == Returns((p.(willTopicLength := 0, willTopic := [], ackCode := Topic_Name_invalid), d3))
    ensures |d3| >= 2 ==> var tl := BE16(d3[0], d3[1]);
      0 < tl < 0xFFFE && |d3| < 2 + tl ==>
      WillTopic(p, d3).Returns? && WillTopic(p, d3).value.0.ackCode == Topic_Name_invalid
    ensures |d3| >= 2 ==> var tl := BE16(d3[0], d3[1]);
      0 < tl < 0xFFFE && 2 + tl + 2 <= |d3| && BE16(d3[2 + tl], d3[3 + tl]) == 0 ==>
      WillTopic(p, d3).Returns? && WillTopic(p, d3).value.0.ackCode == Topic_Name_invalid
  {
    if |d3| >= 2 && BE16(d3[0], d3[1]) < 0xFFFE {
      var tl := BE16(d3[0], d3[1]);
      assert Add16(2, tl) == 2 + tl;
      if 0 < tl && 2 + tl + 2 <= |d3| {
        var rest := d3[2 + tl..];
        assert rest[0] == d3[2 + tl] && rest[1] == d3[3 + tl];
      }
    }
  }

  /** Where an accepted will sits in the bytes: the topic behind the BE16
   *  length at the start, the message behind the BE16 length after it. */
  lemma WillTopicBytes(p: Connect, d3: seq<byte>)
    requires p.ackCode == Success && !p.willFlag && !p.willRetain && p.willQos == QoS0
    ensures var r := WillTopic(p, d3);
      r.Returns? && r.value.0.ackCode == Success ==> var q := r.value.0;
      && 2 + q.willTopicLength + 2 + q.willMessageLength <= |d3|
      && q.willTopicLength == BE16(d3[0], d3[1]) && q.willTopic == d3[2..2 + q.willTopicLength]
      && q.willMessageLength == BE16(d3[2 + q.willTopicLength], d3[3 + q.willTopicLength])
      && q.willMessage == d3[4 + q.willTopicLength..4 + q.willTopicLength + q.willMessageLength]
  {
    WillTopicNames(p, d3);
    TwoNames(d3);
  }

  /** An accepted will holds the two names `By2LenNameBE` reads, one after the other. */
  lemma WillTopicNames(p: Connect, d3: seq<byte>)
    requires p.ackCode == Success && !p.willFlag && !p.willRetain && p.willQos == QoS0
    ensures var r := WillTopic(p, d3);
      r.Returns? && r.value.0.ackCode == Success ==> var q := r.value.0;
      var t := By2LenNameBE(d3);
      && t.Returns? && t.value.ok && q.willTopicLength == t.value.blen && q.willTopic == t.value.name
      && var m := By2LenNameBE(d3[2 + t.value.blen..]);
      && m.Returns? && m.value.ok && q.willMessageLength == m.value.blen && q.willMessage == m.value.name
  {
    var t := By2LenNameBE(d3);
    if t.Returns? && t.value.ok {
      assert Add16(2, t.value.blen) == 2 + t.value.blen;
    }
  }

  /** The user name, if bit 7 is set, and the password, if bit 6 is: each must
   *  be present, at least three bytes remaining, and non-empty. */
  function Credentials(p: Connect, d: seq<byte>): (r: Run<Connect>)
    requires p.ackCode == Success
    ensures !r.Diverges?
    ensures r.Returns? ==> var q := r.value;
      && q.ackCode in {Success, BadUNorP}
      && q == p.(userNameLength := q.userNameLength, userName := q.userName,
                 passwordLength := q.passwordLength, password := q.password, ackCode := q.ackCode)
    ensures Bit(p.connectFlag, 7) && |d| < 3 ==> r == Returns(p.(ackCode := BadUNorP))
    ensures r.Returns? && r.value.ackCode == Success ==> var q := r.value;
      && (Bit(p.connectFlag, 7) ==> 1 <= q.userNameLength == |q.userName|)
      && (!Bit(p.connectFlag, 7) ==> q.userNameLength == p.userNameLength && q.userName == p.userName)
      && (Bit(p.connectFlag, 6) ==> 1 <= q.passwordLength == |q.password|)
      && (!Bit(p.connectFlag, 6) ==> q.passwordLength == p.passwordLength && q.password == p.password)
  {
    var bs := Binary8(p.connectFlag);
    if bs[0] == '1' then
      if |d| < 3 then Returns(p.(ackCode := BadUNorP))
      else
        var u := By2LenNameBE(d);
        if !u.Returns? then Panics
        else
          var p1 := p.(userNameLength := u.value.blen, userName := u.value.name);
          if p1.userNameLength < 1 || p1.userName == [] then Returns(p1.(ackCode := BadUNorP))
          else Password(p1, d[Add16(2, p1.userNameLength)..])
    else Password(p, d)
  }

  /** The password, if bit 6 is set, under the same rules as the user name. */
  function Password(p: Connect, d: seq<byte>): (r: Run<Connect>)
    requires p.ackCode == Success
    ensures !r.Diverges?
    ensures r.Returns? ==> var q := r.value;
      && q.ackCode in {Success, BadUNorP}
      && q == p.(passwordLength := q.passwordLength, password := q.password, ackCode := q.ackCode)
    ensures Bit(p.connectFlag, 6) && |d| < 3 ==> r == Returns(p.(ackCode := BadUNorP))
    ensures r.Returns? && r.value.ackCode == Success ==> var q := r.value;
      && (Bit(p.connectFlag, 6) ==> (1 <= q.passwordLength == |q.password| && 2 + q.passwordLength <= |d|
          && q.passwordLength == BE16(d[0], d[1]) && q.password == d[2..2 + q.passwordLength]))
      && (!Bit(p.connectFlag, 6) ==> q == p)
    ensures !Bit(p.connectFlag, 6) ==> r == Returns(p)
    ensures Bit(p.connectFlag, 6) && |d| >= 3 && BE16(d[0], d[1]) >= 0xFFFE ==> r.Panics?
    ensures Bit(p.connectFlag, 6) && |d| >= 3 && BE16(d[0], d[1]) == 0 ==>
      r == Returns(p.(passwordLength := 0, password := [], ackCode := BadUNorP))
    ensures Bit(p.connectFlag, 6) && |d| >= 3 ==> var n := BE16(d[0], d[1]);
      0 < n < 0xFFFE && |d| < 2 + n ==> r == Returns(p.(passwordLength := n, password := [], ackCode := BadUNorP))
    ensures Bit(p.connectFlag, 6) && |d| >= 3 ==> var n := BE16(d[0], d[1]);
      0 < n < 0xFFFE && 2 + n <= |d| ==> r == Returns(p.(passwordLength := n, password := d[2..2 + n]))
  {
    var bs := Binary8(p.connectFlag);
    if bs[1] == '1' then
      if |d| < 3 then Returns(p.(ackCode := BadUNorP))
      else
        var w := By2LenNameBE(d);
        if !w.Returns? then Panics
        else
          var p1 := p.(passwordLength := w.value.blen, password := w.value.name);
          if p1.passwordLength < 1 || p1.password == [] then Returns(p1.(ackCode := BadUNorP))
          else Returns(p1)
    else Returns(p)
  }

  /** Where an accepted user name sits in the bytes: behind the BE16 length
   *  at the start. */
  lemma CredentialsBytes(p: Connect, d: seq<byte>)
    requires p.ackCode == Success
    ensures var r := Credentials(p, d);
      r.Returns? && r.value.ackCode == Success && Bit(p.connectFlag, 7) ==> var q := r.value;
      && 2 + q.userNameLength <= |d| && q.userNameLength == BE16(d[0], d[1])
      && q.userName == d[2..2 + q.userNameLength]
  {
    var u := By2LenNameBE(d);
    if Bit(p.connectFlag, 7) && |d| >= 3 && u.Returns? && 1 <= u.value.blen && u.value.name != [] {
      var p1 := p.(userNameLength := u.value.blen, userName := u.value.name);
      assert Credentials(p, d) == Password(p1, d[Add16(2, p1.userNameLength)..]);
    }
  }

  /** Where an accepted client id sits in the payload: behind the BE16 length
   *  at the start. */
  lemma PayloadBytes(p: Connect, daByp: seq<byte>)
    requires p.ackCode == Success && p.protoNameLen == 4 && p.protoName == MqttName && p.version == 5
    requires !p.cleanStart && !p.willFlag && !p.willRetain && p.willQos == QoS0
    ensures var r := Payload(p, daByp);
      r.Returns? && r.value.ackCode == Success ==>
      && 2 + r.value.clientIDLength <= |daByp| && r.value.clientIDLength == BE16(daByp[0], daByp[1])
      && r.value.clientID == daByp[2..2 + r.value.clientIDLength]
  {
  }

  /** What `Credentials` does with each kind of user-name field: without bit 7
   *  it goes straight to the password; with bit 7 and three bytes or more, a
   *  length of 65534 or more panics, a zero length or one past the end answers
   *  `BadUNorP`, and a name that fits is stored before the password is read
   *  from the bytes after it. */
  lemma CredentialsCases(p: Connect, d: seq<byte>)
    requires p.ackCode == Success
    ensures !Bit(p.connectFlag, 7) ==> Credentials(p, d) == Password(p, d)
    ensures Bit(p.connectFlag, 7) && |d| >= 3 && BE16(d[0], d[1]) >= 0xFFFE ==> Credentials(p, d).Panics?
    ensures Bit(p.connectFlag, 7) && |d| >= 3 && BE16(d[0], d[1]) == 0 ==>
      Credentials(p, d) == Returns(p.(userNameLength := 0, userName := [], ackCode := BadUNorP))
    ensures Bit(p.connectFlag, 7) && |d| >= 3 ==> var n := BE16(d[0], d[1]);
      0 < n < 0xFFFE && |d| < 2 + n ==> Credentials(p, d) == Returns(p.(userNameLength := n, userName := [], ackCode := BadUNorP))
    ensures Bit(p.connectFlag, 7) && |d| >= 3 ==> var n := BE16(d[0], d[1]);
      0 < n < 0xFFFE && 2 + n <= |d| ==> Credentials(p, d) == Password(p.(userNameLength := n, userName := d[2..2 + n]), d[2 + n..])
  {
  }

  // ------------------------------------------------------------ property block lemmas

  /** A CONNECT property the decoder understands, as a client would encode it. */
  datatype Property =
    | SessionExpiry(interval: seq<byte>)
    | MaximumPacket(size: seq<byte>)
    | ReceiveMax(count: seq<byte>)
    | TopicAliasMax(count: seq<byte>)
    | User(key: seq<byte>, val: seq<byte>)

  /** The value bytes have the width the identifier calls for; strings fit a
   *  two-byte length. */
  predicate Encodable(p: Property)
  {
    match p
    case SessionExpiry(v) => |v| == 4
    case MaximumPacket(v) => |v| == 4
    case ReceiveMax(v) => |v| == 2
    case TopicAliasMax(v) => |v| == 2
    case User(k, v) => |k| < 0x1_0000 && |v| < 0x1_0000
  }

  /** The properties a client sends, in order. */
  datatype PropertyList = Nil | Cons(head: Property, tail: PropertyList)

  predicate AllEncodable(ps: PropertyList)
  {
    ps.Nil? || (Encodable(ps.head) && AllEncodable(ps.tail))
  }

  /** The wire form of one property: its identifier, then its value. */
  function EncodeProperty(p: Property): (r: seq<byte>)
    requires Encodable(p)
    ensures |r| >= 3
  {
    match p
    case SessionExpiry(v) => [SessionEI] + v
    case MaximumPacket(v) => [MaximumPS] + v
    case ReceiveMax(v) => [ReceiveMaximum] + v
    case TopicAliasMax(v) => [TopicAM] + v
    case User(k, v) => [UserProperty] + Prefixed(k) + Prefixed(v)
  }

  function EncodeProperties(ps: PropertyList): (r: seq<byte>)
    requires AllEncodable(ps)
  {
    if ps.Nil? then [] else EncodeProperty(ps.head) + EncodeProperties(ps.tail)
  }

  /** What storing property `p` does to the decoded properties: a number is
   *  its bytes read big-endian. */
  function Apply(acc: Props, p: Property): (r: Props)
  {
    match p
    case SessionExpiry(v) => acc.(sessionExpiryInterval := if |v| == 4 then BE32(v) else 0)
    case MaximumPacket(v) => acc.(maximumPacketSize := if |v| == 4 then BE32(v) else 0)
    case ReceiveMax(v) => acc.(receiveMaximum := if |v| == 2 then BE16(v[0], v[1]) else 0)
    case TopicAliasMax(v) => acc.(topicAliasMaximum := if |v| == 2 then BE16(v[0], v[1]) else 0)
    case User(k, v) => acc.(userProperty := acc.userProperty[k := v])
  }

  function ApplyAll(acc: Props, ps: PropertyList): (r: Props)
    decreases ps
  {
    if ps.Nil? then acc else ApplyAll(Apply(acc, ps.head), ps.tail)
  }

  /** Where `e` sits in `buf` at `t`, every piece of `e` sits there too. */
  lemma SubSlice(buf: seq<byte>, t: nat, e: seq<byte>, a: nat, b: nat)
    requires t + |e| <= |buf| && buf[t..t + |e|] == e && a <= b <= |e|
    ensures buf[t + a..t + b] == e[a..b]
    ensures a < |e| ==> buf[t + a] == e[a]
  {
    forall i | 0 <= i < b - a
      ensures buf[t + a..t + b][i] == e[a..b][i]
    {
      assert buf[t + a + i] == buf[t..t + |e|][a + i];
    }
    if a < |e| {
      assert buf[t + a] == buf[t..t + |e|][a];
    }
  }

  /** One pass over a user property whose key and value fit the buffer. */
  lemma UserPropertyStep(buf: seq<byte>, len: nat, t: nat, key: seq<byte>, val: seq<byte>, acc: Props)
    requires len <= |buf| && t < len && t + 5 + |key| + |val| <= |buf|
    requires buf[t] == UserProperty && BE16(buf[t + 1], buf[t + 2]) == |key|
    requires buf[t + 3..t + 3 + |key|] == key
    requires BE16(buf[t + 3 + |key|], buf[t + 4 + |key|]) == |val|
    requires buf[t + 5 + |key|..t + 5 + |key| + |val|] == val
    ensures PropertyAt(buf, len, t, acc) == Next(t + 5 + |key| + |val|, acc.(userProperty := acc.userProperty[key := val]))
  {
  }

  /** The user property's encoding, read where it sits. */
  lemma UserPropertyEncoded(buf: seq<byte>, len: nat, t: nat, p: Property, acc: Props)
    requires p.User? && Encodable(p) && len <= |buf|
    requires Past(t, p) <= len
    requires buf[t..Past(t, p)] == EncodeProperty(p)
    ensures PropertyAt(buf, len, t, acc) == Next(Past(t, p), Apply(acc, p))
  {
    var k := p.key;
    var v := p.val;
    var e := EncodeProperty(p);
    var pk := Prefixed(k);
    var pv := Prefixed(v);
    assert e == [UserProperty] + pk + pv;
    assert e[1..3 + |k|] == pk && e[3 + |k|..] == pv;
    SubSlice(buf, t, e, 0, 1);
    SubSlice(buf, t, e, 1, 3 + |k|);
    SubSlice(buf, t, e, 3 + |k|, |e|);
    var pkAt := buf[t + 1..t + 3 + |k|];
    assert pkAt[0] == buf[t + 1] && pkAt[1] == buf[t + 2] && pkAt[2..] == buf[t + 3..t + 3 + |k|];
    var pvAt := buf[t + 3 + |k|..t + |e|];
    assert pvAt[0] == buf[t + 3 + |k|] && pvAt[1] == buf[t + 4 + |k|] && pvAt[2..] == buf[t + 5 + |k|..t + |e|];
    UserPropertyStep(buf, len, t, k, v, acc);
  }

  /** A four-byte property's encoding, read where it sits. */
  lemma Number32Encoded(buf: seq<byte>, len: nat, t: nat, p: Property, acc: Props)
    requires (p.SessionExpiry? || p.MaximumPacket?) && Encodable(p) && len <= |buf|
    requires Past(t, p) <= len
    requires buf[t..Past(t, p)] == EncodeProperty(p)
    ensures PropertyAt(buf, len, t, acc) == Next(Past(t, p), Apply(acc, p))
  {
    var e := EncodeProperty(p);
    var v := if p.SessionExpiry? then p.interval else p.size;
    assert |e| == 5 && e[1..5] == v;
    SubSlice(buf, t, e, 0, 1);
    SubSlice(buf, t, e, 1, 5);
  }

  /** A two-byte property's encoding, read where it sits. */
  lemma Number16Encoded(buf: seq<byte>, len: nat, t: nat, p: Property, acc: Props)
    requires (p.ReceiveMax? || p.TopicAliasMax?) && Encodable(p) && len <= |buf|
    requires Past(t, p) <= len
    requires buf[t..Past(t, p)] == EncodeProperty(p)
    ensures PropertyAt(buf, len, t, acc) == Next(Past(t, p), Apply(acc, p))
  {
    var e := EncodeProperty(p);
    assert |e| == 3 && e[1..] == p.count;
    SubSlice(buf, t, e, 0, 1);
    SubSlice(buf, t, e, 1, 2);
    SubSlice(buf, t, e, 2, 3);
  }

  /** One property, read at cursor `t` where its encoding starts, is stored and
   *  the cursor moves exactly past it. */
  lemma PropertyStep(buf: seq<byte>, len: nat, t: nat, p: Property, acc: Props)
    requires Encodable(p) && len <= |buf|
    requires Past(t, p) <= len
    requires buf[t..Past(t, p)] == EncodeProperty(p)
    ensures PropertyAt(buf, len, t, acc) == Next(Past(t, p), Apply(acc, p))
  {
    if p.SessionExpiry? || p.MaximumPacket? {
      Number32Encoded(buf, len, t, p, acc);
    } else if p.ReceiveMax? || p.TopicAliasMax? {
      Number16Encoded(buf, len, t, p, acc);
    } else {
      UserPropertyEncoded(buf, len, t, p, acc);
    }
  }

  /** A non-empty encoded block is its first property followed by the rest. */
  lemma BlockSplit(buf: seq<byte>, t: nat, pl: nat, ps: PropertyList)
    requires ps.Cons? && AllEncodable(ps)
    requires pl == t + |EncodeProperties(ps)| <= |buf|
    requires buf[t..pl] == EncodeProperties(ps)
    ensures pl == Past(t, ps.head) + |EncodeProperties(ps.tail)|
    ensures buf[t..Past(t, ps.head)] == EncodeProperty(ps.head)
    ensures buf[Past(t, ps.head)..pl] == EncodeProperties(ps.tail)
  {
    SplitSlice(buf, t, pl, EncodeProperty(ps.head), EncodeProperties(ps.tail));
  }

  /** The cursor just past the encoding of `p` laid out from `t`. */
  function Past(t: nat, p: Property): nat
    requires Encodable(p)
  {
    t + |EncodeProperty(p)|
  }

  /** Where the block of `ps` laid out from `t` ends. */
  function BlockEnd(t: nat, ps: PropertyList): (r: nat)
    requires AllEncodable(ps)
    ensures r >= t
    decreases ps
  {
    if ps.Nil? then t else BlockEnd(Past(t, ps.head), ps.tail)
  }

  /** The encodings of `ps` sit in `buf` one after the other from `t`. */
  predicate BlockAt(buf: seq<byte>, t: nat, ps: PropertyList)
    requires AllEncodable(ps)
    decreases ps
  {
    ps.Nil? ||
    (Past(t, ps.head) <= |buf| &&
     buf[t..Past(t, ps.head)] == EncodeProperty(ps.head) &&
     BlockAt(buf, Past(t, ps.head), ps.tail))
  }

  /** An encoded block in `buf` is its properties laid out one after the other. */
  lemma {:induction false} BlockLaidOut(buf: seq<byte>, t: nat, pl: nat, ps: PropertyList)
    requires AllEncodable(ps)
    requires pl == t + |EncodeProperties(ps)| <= |buf|
    requires buf[t..pl] == EncodeProperties(ps)
    ensures BlockAt(buf, t, ps) && BlockEnd(t, ps) == pl
    decreases ps
  {
    if ps.Cons? {
      BlockSplit(buf, t, pl, ps);
      BlockLaidOut(buf, Past(t, ps.head), pl, ps.tail);
    }
  }

  /** Past its first property, a laid-out block is the rest laid out. */
  lemma BlockTail(buf: seq<byte>, t: nat, ps: PropertyList)
    requires ps.Cons? && AllEncodable(ps) && BlockAt(buf, t, ps)
    ensures Past(t, ps.head) <= |buf|
    ensures buf[t..Past(t, ps.head)] == EncodeProperty(ps.head)
    ensures AllEncodable(ps.tail) && BlockAt(buf, Past(t, ps.head), ps.tail)
    ensures BlockEnd(t, ps) == BlockEnd(Past(t, ps.head), ps.tail)
  {
  }

  /** From `t`, each property of `ps` in turn is one pass of the loop. */
  predicate Chained(buf: seq<byte>, len: nat, t: nat, ps: PropertyList, acc: Props)
    requires len <= |buf| && AllEncodable(ps)
    decreases ps
  {
    ps.Nil? ||
    (t < len &&
     PropertyAt(buf, len, t, acc) == Next(Past(t, ps.head), Apply(acc, ps.head)) &&
     Chained(buf, len, Past(t, ps.head), ps.tail, Apply(acc, ps.head)))
  }

  /** Laid-out properties are read one per pass. */
  lemma {:induction false} StepsOverBlock(buf: seq<byte>, len: nat, t: nat, ps: PropertyList, acc: Props)
    requires AllEncodable(ps) && BlockAt(buf, t, ps)
    requires BlockEnd(t, ps) <= len <= |buf|
    ensures Chained(buf, len, t, ps, acc)
    decreases ps
  {
    if ps.Cons? {
      var t2, acc2 := Past(t, ps.head), Apply(acc, ps.head);
      BlockTail(buf, t, ps);
      assert t < t2 <= BlockEnd(t2, ps.tail) == BlockEnd(t, ps) <= len;
      PropertyStep(buf, len, t, ps.head, acc);
      StepsOverBlock(buf, len, t2, ps.tail, acc2);
      ChainCons(buf, len, t, ps, acc);
    }
  }

  /** A chain is a first pass followed by a chain. */
  lemma ChainCons(buf: seq<byte>, len: nat, t: nat, ps: PropertyList, acc: Props)
    requires ps.Cons? && len <= |buf| && AllEncodable(ps) && t < len
    requires PropertyAt(buf, len, t, acc) == Next(Past(t, ps.head), Apply(acc, ps.head))
    requires Chained(buf, len, Past(t, ps.head), ps.tail, Apply(acc, ps.head))
    ensures Chained(buf, len, t, ps, acc)
  {
  }

  /** The first pass of a chain, and what is left of it. */
  lemma ChainHead(buf: seq<byte>, len: nat, pl: nat, t: nat, ps: PropertyList, acc: Props)
    requires ps.Cons? && len <= |buf| && AllEncodable(ps) && Chained(buf, len, t, ps, acc)
    requires pl == BlockEnd(t, ps)
    ensures t < pl && t < len
    ensures PropertyAt(buf, len, t, acc) == Next(Past(t, ps.head), Apply(acc, ps.head))
    ensures AllEncodable(ps.tail) && Chained(buf, len, Past(t, ps.head), ps.tail, Apply(acc, ps.head))
    ensures pl == BlockEnd(Past(t, ps.head), ps.tail)
    ensures ApplyAll(acc, ps) == ApplyAll(Apply(acc, ps.head), ps.tail)
  {
  }

  /** Passes that each read one property end, at the block's end, with all of them stored. */
  lemma {:induction false} LoopOverChain(buf: seq<byte>, len: nat, pl: nat, t: nat, ps: PropertyList, acc: Props)
    requires len <= |buf| && AllEncodable(ps) && Chained(buf, len, t, ps, acc)
    requires pl == BlockEnd(t, ps)
    ensures PropertyLoop(buf, len, pl, t, acc) == Returns(ApplyAll(acc, ps))
    decreases ps
  {
    if ps.Nil? {
      LoopAtEnd(buf, len, pl, acc);
    } else {
      var t2, acc2 := Past(t, ps.head), Apply(acc, ps.head);
      ChainTail(buf, len, pl, t, ps, acc);
      ChainAdvance(buf, len, pl, t, ps, acc);
      LoopOverChain(buf, len, pl, t2, ps.tail, acc2);
    }
  }

  /** At the declared property length the loop stops with what it has stored. */
  lemma LoopAtEnd(buf: seq<byte>, len: nat, pl: nat, acc: Props)
    requires len <= |buf|
    ensures PropertyLoop(buf, len, pl, pl, acc) == Returns(acc)
  {
  }

  /** The first pass of a chain moves the loop on to the rest of the chain. */
  lemma ChainAdvance(buf: seq<byte>, len: nat, pl: nat, t: nat, ps: PropertyList, acc: Props)
    requires ps.Cons? && len <= |buf| && AllEncodable(ps) && Chained(buf, len, t, ps, acc)
    requires t < pl
    ensures PropertyLoop(buf, len, pl, t, acc)
            == PropertyLoop(buf, len, pl, Past(t, ps.head), Apply(acc, ps.head))
  {
    PropertyAdvance(buf, len, pl, t, acc);
  }

  /** What is left of a chain past its first pass. */
  lemma ChainTail(buf: seq<byte>, len: nat, pl: nat, t: nat, ps: PropertyList, acc: Props)
    requires ps.Cons? && len <= |buf| && AllEncodable(ps) && Chained(buf, len, t, ps, acc)
    requires pl == BlockEnd(t, ps)
    ensures AllEncodable(ps.tail) && Chained(buf, len, Past(t, ps.head), ps.tail, Apply(acc, ps.head))
    ensures pl == BlockEnd(Past(t, ps.head), ps.tail)
    ensures ApplyAll(acc, ps) == ApplyAll(Apply(acc, ps.head), ps.tail)
  {
    ChainHead(buf, len, pl, t, ps, acc);
  }

  /** The first pass of a chain reads its first property. */
  lemma ChainFirst(buf: seq<byte>, len: nat, t: nat, ps: PropertyList, acc: Props)
    requires ps.Cons? && len <= |buf| && AllEncodable(ps) && Chained(buf, len, t, ps, acc)
    ensures t < len && PropertyAt(buf, len, t, acc) == Next(Past(t, ps.head), Apply(acc, ps.head))
  {
  }

  lemma PropertyAdvanceTo(buf: seq<byte>, len: nat, pl: nat, t: nat, acc: Props, t2: nat, acc2: Props)
    requires len <= |buf| && t < pl && t < len && PropertyAt(buf, len, t, acc) == Next(t2, acc2)
    ensures PropertyLoop(buf, len, pl, t, acc) == PropertyLoop(buf, len, pl, t2, acc2)
  {
    PropertyAdvance(buf, len, pl, t, acc);
  }

  /** A property block a client encodes from understood properties decodes to
   *  those properties, stored in order, wherever the block sits in the buffer
   *  and whatever follows it: read from cursor `t` where the block starts,
   *  with the block's end as the property length `pl`, the loop returns them. */
  lemma PropertyBlockRoundTrip(buf: seq<byte>, len: nat, pl: nat, t: nat, ps: PropertyList, acc: Props)
    requires AllEncodable(ps)
    requires pl == t + |EncodeProperties(ps)| && pl <= len <= |buf|
    requires buf[t..pl] == EncodeProperties(ps)
    ensures PropertyLoop(buf, len, pl, t, acc) == Returns(ApplyAll(acc, ps))
  {
    BlockLaidOut(buf, t, pl, ps);
    StepsOverBlock(buf, len, t, ps, acc);
    LoopOverChain(buf, len, pl, t, ps, acc);
  }

  /** An identifier the loop does not understand, among them the four it
   *  announces and never reads (authentication method 0x15, authentication
   *  data 0x16, request problem information 0x17, request response
   *  information 0x19), stops the cursor for good. */
  lemma UnknownPropertyStalls(buf: seq<byte>, len: nat, pl: nat, t: nat, acc: Props)
    requires len <= |buf| && t < pl && t < len
    requires buf[t] !in {SessionEI, MaximumPS, ReceiveMaximum, TopicAM, UserProperty}
    ensures PropertyLoop(buf, len, pl, t, acc) == Diverges
  {
  }

  /** The payload format indicator in the first slot of a will block whose
   *  length takes one byte is read from the identifier itself: whatever value
   *  the client sent, the decoder stores 0x01. */
  lemma WillPayloadFormatReadsIdentifier(v: byte, rest: seq<byte>, acc: WillProps)
    ensures WillLoop([2, PayloadFI, v] + rest, 1, 2, 0, acc) == Returns(acc.(payloadFormatIndicator := PayloadFI))
  {
    var d2 := [2, PayloadFI, v] + rest;
    assert d2[1] == PayloadFI;
  }

  /** A payload format indicator after another property moves the cursor to
   *  `2t + 2` instead of `t + 2`: in the block [message expiry 9, payload
   *  format 1, message expiry 7] the second expiry is jumped over. */
  lemma WillPayloadFormatSkips(acc: WillProps)
    ensures var block := [MessageEI, 0, 0, 0, 9, PayloadFI, 1, MessageEI, 0, 0, 0, 7];
      WillLoop([12] + block, 1, 12, 0, acc)
        == Returns(acc.(messageExpiryInterval := 9, payloadFormatIndicator := PayloadFI))
  {
    var block: seq<byte> := [MessageEI, 0, 0, 0, 9, PayloadFI, 1, MessageEI, 0, 0, 0, 7];
    var d2 := [12] + block;
    assert d2[2..6] == [0, 0, 0, 9];
    assert BE32([0, 0, 0, 9]) == 9;
  }

  /** A will without properties, as a client lays it out: property length 0,
   *  then the prefixed topic and message. Since the cursor is moved past the
   *  property block only when its length is positive, the topic length is
   *  read from the property-length byte and the first byte of the topic's
   *  own length; for a topic under 256 bytes both are zero and the will is
   *  refused with `Topic_Name_invalid`. */
  lemma WillWithoutPropertiesRefused(p: Connect, topic: seq<byte>, message: seq<byte>)
    requires p.ackCode == Success && !p.willFlag && !p.willRetain && p.willQos == QoS0
    requires 1 <= |topic| < 0x100 && 1 <= |message| < 0x1_0000
    ensures var d2 := [0] + Prefixed(topic) + Prefixed(message);
      Will(p, d2) == Returns((p.(willProperties := 0, willTopicLength := 0, willTopic := [],
                                 ackCode := Topic_Name_invalid), d2))
  {
    var d2 := [0] + Prefixed(topic) + Prefixed(message);
    assert d2[0] == 0 && d2[1] == Prefixed(topic)[0];
    assert Prefixed(topic)[0] == 0 by {
      assert BE16(Prefixed(topic)[0], Prefixed(topic)[1]) == |topic|;
    }
    assert By2Len32AndIndex(d2) == Returns((0, 1)) by {
      assert d2[..1] == [0] && d2[..1][1..] == [];
      assert Sum(d2[..1]) == 0;
      assert Field(d2, 1) == 0;
    }
  }

  // ------------------------------------------------------------ Pack and the client constructor

  /** `NewCONNECTProtocolClient`: flags 0xC2 (user name, password, clean start),
   *  keep-alive 60, no properties. Each length is `uint16(len(...))`, and the
   *  remaining length `11 + 2 + ClientIDLength + 2 + UserNameLength + 2 +
   *  PasswordLength` is summed in `uint16`, that is modulo 2^16. The
   *  user-property map is nil. */
  function NewClient(clientID: seq<byte>, user: seq<byte>, psd: seq<byte>): (c: Connect)
    ensures c.fixed.headerFlag == CONNECT && c.fixed.data == [] && c.ackCode == Success
    ensures c.clientID == clientID && c.userName == user && c.password == psd
    ensures c.fixed.msgLen < 0x1_0000
  {
    var cl := Wrap16(|clientID|);
    var ul := Wrap16(|user|);
    var pw := Wrap16(|psd|);
    Connect(Fixed(CONNECT, Wrap16(17 + cl + ul + pw), []),
            4, MqttName, 5, 0xC2, 60, 0, NoProps, cl, clientID, 0, NoWillProps, 0, [], 0, [],
            ul, user, pw, psd, false, false, false, QoS0, Success)
  }

  /** `Pack`: header byte and remaining length, then the variable header and
   *  the payload `Body` lays out. */
  function Pack(c: Connect): (r: seq<byte>)
    requires c.protoNameLen < 0x1_0000 && c.keepAlive < 0x1_0000
    requires c.clientIDLength < 0x1_0000 && c.userNameLength < 0x1_0000 && c.passwordLength < 0x1_0000
    ensures |r| == 1 + |Code(c.fixed.msgLen)| + |Code(c.propertiesLength)| + 12
                 + |c.protoName| + |c.clientID| + |c.userName| + |c.password|
    ensures r[0] == c.fixed.headerFlag
  {
    [c.fixed.headerFlag] + Code(c.fixed.msgLen) + Body(c)
  }

  /** What `Pack` appends after the fixed header: protocol name, level, flags,
   *  keep-alive, property length, then client id, user name and password,
   *  each behind its recorded length, whatever the flags say. */
  function Body(c: Connect): (r: seq<byte>)
    requires c.protoNameLen < 0x1_0000 && c.keepAlive < 0x1_0000
    requires c.clientIDLength < 0x1_0000 && c.userNameLength < 0x1_0000 && c.passwordLength < 0x1_0000
    ensures |r| == 12 + |Code(c.propertiesLength)| + |c.protoName| + |c.clientID| + |c.userName| + |c.password|
  {
    Int16ToByBig(c.protoNameLen) + c.protoName + [c.version, c.connectFlag]
    + Int16ToByBig(c.keepAlive) + Code(c.propertiesLength)
    + Int16ToByBig(c.clientIDLength) + c.clientID
    + Int16ToByBig(c.userNameLength) + c.userName
    + Int16ToByBig(c.passwordLength) + c.password
  }

  /** The client's declared remaining length is the number of bytes `Pack`
   *  writes after it exactly when the sum stays below 2^16. */
  lemma ClientMsgLen(clientID: seq<byte>, user: seq<byte>, psd: seq<byte>)
    requires |clientID| < 0x1_0000 && |user| < 0x1_0000 && |psd| < 0x1_0000
    ensures var c := NewClient(clientID, user, psd);
      |Pack(c)| == 1 + |Code(c.fixed.msgLen)| + 17 + |clientID| + |user| + |psd|
    ensures var c := NewClient(clientID, user, psd);
      c.fixed.msgLen == 17 + |clientID| + |user| + |psd| <==> 17 + |clientID| + |user| + |psd| < 0x1_0000
  {
    CodeSmall(0);
  }

  /** The bytes `Pack` writes after the remaining length of a client CONNECT. */
  function ClientBody(clientID: seq<byte>, user: seq<byte>, psd: seq<byte>): (r: seq<byte>)
    requires |clientID| < 0x1_0000 && |user| < 0x1_0000 && |psd| < 0x1_0000
    ensures |r| == 17 + |clientID| + |user| + |psd|
  {
    [0, 4] + MqttName + [5, 0xC2, 0, 60, 0] + Prefixed(clientID) + Prefixed(user) + Prefixed(psd)
  }

  lemma ClientFrame(clientID: seq<byte>, user: seq<byte>, psd: seq<byte>)
    requires 17 + |clientID| + |user| + |psd| < 0x1_0000
    ensures Pack(NewClient(clientID, user, psd)) == Frame(CONNECT, ClientBody(clientID, user, psd))
  {
    ClientBodyBytes(clientID, user, psd);
  }

  /** The client's body is its fixed variable header and the three prefixed strings. */
  lemma ClientBodyBytes(clientID: seq<byte>, user: seq<byte>, psd: seq<byte>)
    requires 17 + |clientID| + |user| + |psd| < 0x1_0000
    ensures Body(NewClient(clientID, user, psd)) == ClientBody(clientID, user, psd)
  {
    var c := NewClient(clientID, user, psd);
    var hdr := Int16ToByBig(4) + MqttName + [5, 0xC2] + Int16ToByBig(60) + Code(0);
    CodeSmall(0);
    assert hdr == [0, 4] + MqttName + [5, 0xC2, 0, 60, 0] by {
      assert Int16ToByBig(4) == [0, 4];
      assert Int16ToByBig(60) == [0, 60];
    }
    AppendAssoc(hdr, Int16ToByBig(|clientID|), clientID);
    AppendAssoc(hdr + Prefixed(clientID), Int16ToByBig(|user|), user);
    AppendAssoc(hdr + Prefixed(clientID) + Prefixed(user), Int16ToByBig(|psd|), psd);
  }

  /** The connect-flag bits of 0xC2. */
  lemma ClientFlags()
    ensures var bs := Binary8(0xC2); bs[7] == '0' && bs[6] == '1' && bs[5] == '0' && bs[0] == '1' && bs[1] == '1'
  {
  }

  /** The structure the decoder has built when it reaches the client id. */
  function ClientHeader(f: Fixed): (p: Connect)
    ensures p.ackCode == Success && p.fixed == f
  {
    NewConnect(f).(protoNameLen := 4, protoName := MqttName, version := 5,
                   connectFlag := 0xC2, keepAlive := 60, propertiesLength := 0)
  }

  lemma ClientVariableHeader(clientID: seq<byte>, user: seq<byte>, psd: seq<byte>)
    requires 17 + |clientID| + |user| + |psd| < 0x1_0000
    ensures var body := ClientBody(clientID, user, psd); var f := Fixed(CONNECT, |body|, body);
      UnPack(f) == Payload(ClientHeader(f), Prefixed(clientID) + Prefixed(user) + Prefixed(psd))
  {
    var creds := Prefixed(clientID) + Prefixed(user) + Prefixed(psd);
    var body := ClientBody(clientID, user, psd);
    assert body[..10] == [0, 4] + MqttName + [5, 0xC2, 0, 60] && body[10..] == [0] + creds by {
      assert body == ([0, 4] + MqttName + [5, 0xC2, 0, 60]) + ([0] + creds);
    }
    assert body[0] == 0 && body[1] == 4 && body[2..6] == MqttName && body[6] == 5 && body[7] == 0xC2
      && body[8] == 0 && body[9] == 60 by {
      assert body[..10][2..6] == body[2..6];
    }
    assert By2Len32AndIndex(body[10..]) == Returns((0, 1)) by {
      CodeSmall(0);
      ReadEncoded(0, creds);
    }
    assert body[11..] == creds;
  }

  /** Past the variable header: the client id is read, clean start is set and
   *  the credentials follow. */
  lemma ClientId(p: Connect, clientID: seq<byte>, rest: seq<byte>)
    requires p.ackCode == Success && p.protoNameLen == 4 && p.protoName == MqttName && p.version == 5
    requires !p.cleanStart && !p.willFlag && !p.willRetain && p.willQos == QoS0 && p.connectFlag == 0xC2
    requires 1 <= |clientID| < 0xFFFE
    ensures Payload(p, Prefixed(clientID) + rest)
            == Credentials(p.(clientIDLength := |clientID|, clientID := clientID, cleanStart := true), rest)
  {
    ReadPrefixed(clientID, rest);
    assert (Prefixed(clientID) + rest)[Add16(2, |clientID|)..] == rest;
    ClientFlags();
  }

  /** Both credentials present and non-empty: stored, and the packet accepted. */
  lemma ClientCredentials(p: Connect, user: seq<byte>, psd: seq<byte>)
    requires p.ackCode == Success && p.connectFlag == 0xC2
    requires 1 <= |user| < 0xFFFE && 1 <= |psd| < 0xFFFE
    ensures Credentials(p, Prefixed(user) + Prefixed(psd))
            == Returns(p.(userNameLength := |user|, userName := user, passwordLength := |psd|, password := psd))
  {
    ClientFlags();
    ReadPrefixed(user, Prefixed(psd));
    assert (Prefixed(user) + Prefixed(psd))[Add16(2, |user|)..] == Prefixed(psd);
    ReadPrefixed(psd, []);
    assert Prefixed(psd) + [] == Prefixed(psd);
  }

  /** An empty user name behind the user-name flag is refused. */
  lemma ClientEmptyCredentials(p: Connect, psd: seq<byte>)
    requires p.ackCode == Success && p.connectFlag == 0xC2 && |psd| < 0x1_0000
    ensures Credentials(p, Prefixed([]) + Prefixed(psd))
            == Returns(p.(userNameLength := 0, userName := [], ackCode := BadUNorP))
  {
    var p1 := p.(userNameLength := 0, userName := []);
    assert p1.(ackCode := BadUNorP) == p.(userNameLength := 0, userName := [], ackCode := BadUNorP);
    ClientFlags();
    ReadPrefixedEmpty(Prefixed(psd));
  }

  /** The client's bytes frame as one CONNECT packet whose data is the body. */
  lemma ClientFramed(clientID: seq<byte>, user: seq<byte>, psd: seq<byte>)
    requires 17 + |clientID| + |user| + |psd| < 0x1_0000
    ensures var bytes := Pack(NewClient(clientID, user, psd)); var body := ClientBody(clientID, user, psd);
      UnPackFixed(bytes) == Ok((Fixed(CONNECT, |body|, body), |bytes| as nat))
  {
    var body := ClientBody(clientID, user, psd);
    ClientFrame(clientID, user, psd);
    FrameRoundTrip(CONNECT, body, []);
    assert Frame(CONNECT, body) + [] == Frame(CONNECT, body);
  }

  /** What the server decodes from a client body with non-empty credentials. */
  lemma ClientDecoded(clientID: seq<byte>, user: seq<byte>, psd: seq<byte>)
    requires 1 <= |clientID| && 1 <= |user| && 1 <= |psd|
    requires 17 + |clientID| + |user| + |psd| < 0x1_0000
    ensures var body := ClientBody(clientID, user, psd); var f := Fixed(CONNECT, |body|, body);
      UnPack(f) == Returns(ClientHeader(f).(clientIDLength := |clientID|, clientID := clientID, cleanStart := true,
                   userNameLength := |user|, userName := user, passwordLength := |psd|, password := psd))
  {
    var body := ClientBody(clientID, user, psd);
    var f := Fixed(CONNECT, |body|, body);
    var p := ClientHeader(f).(clientIDLength := |clientID|, clientID := clientID, cleanStart := true);
    ClientVariableHeader(clientID, user, psd);
    ClientId(ClientHeader(f), clientID, Prefixed(user) + Prefixed(psd));
    AppendAssoc(Prefixed(clientID), Prefixed(user), Prefixed(psd));
    ClientCredentials(p, user, psd);
  }

  /** The bytes of a client CONNECT with non-empty client id, user name and
   *  password whose remaining length fits `uint16` frame as one packet, and
   *  the server's decoder accepts it with the same three strings, clean start,
   *  no will, keep-alive 60 and no properties. */
  lemma ClientRoundTrip(clientID: seq<byte>, user: seq<byte>, psd: seq<byte>)
    requires 1 <= |clientID| && 1 <= |user| && 1 <= |psd|
    requires 17 + |clientID| + |user| + |psd| < 0x1_0000
    ensures var bytes := Pack(NewClient(clientID, user, psd));
      var u := UnPackFixed(bytes);
      && u.Ok? && u.value.1 == |bytes|
      && var q := UnPack(u.value.0);
      && q.Returns? && q.value.ackCode == Success
      && q.value.clientID == clientID && q.value.userName == user && q.value.password == psd
      && q.value.cleanStart && !q.value.willFlag && q.value.keepAlive == 60 && q.value.propertiesLength == 0
  {
    ClientFramed(clientID, user, psd);
    ClientDecoded(clientID, user, psd);
  }
}
