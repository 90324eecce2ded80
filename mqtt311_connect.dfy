/**
 * `unPackCONNECTProtocol` of `mqtt311/server/MqttDataPack.go`: the first packet
 * of a 3.1.1 connection, read from the connection's stream and checked field
 * by field. The result is the decoded structure (absent on the early
 * refusals), the CONNACK return code and whether an error value came back.
 * The connect flags are read through their `%08b` rendering, as the source does.
 */
module Connect311 {
  import opened Bytes
  import opened RemainingLength
  import opened FixedHeader
  import opened LengthPrefixed
  import opened Proto311
  import opened ConnectFlags

  /** The three results of `unPackCONNECTProtocol`, and the bytes of the stream consumed. */
  datatype ConnectResult = ConnectResult(packet: Option<Connect>, code: byte, failed: bool, used: nat)

  /** The structure as the decoder first creates it: clean session set, no will. */
  function NewConnect(h: Header): Connect
  {
    Connect(h, 0, [], 0, 0, 0, 0, [], 0, [], 0, [], 0, [], 0, [], true, false, false, QoS0)
  }

  /** `unPackCONNECTProtocol`: the fixed header, then the rest of the packet. */
  function UnPackCONNECT(s: seq<byte>): (r: Run<ConnectResult>)
    ensures !r.Diverges?
    ensures UnPackFixed(s).Err? ==> r == Returns(ConnectResult(None, RefusedProtocolVersion, true, 0))
    ensures UnPackFixed(s).Ok? ==> r == ConnectBody(UnPackFixed(s).value.0, UnPackFixed(s).value.1)
    ensures r.Returns? && r.value.packet.Some? ==> UnPackFixed(s).Ok? && r.value.used == UnPackFixed(s).value.1
  {
    var fixed := UnPackFixed(s);
    if fixed.Err? then Returns(ConnectResult(None, RefusedProtocolVersion, true, 0))
    else ConnectBody(fixed.value.0, fixed.value.1)
  }

  /** The variable header of a CONNECT whose fixed header `f` was read with
   *  `used` bytes: protocol name, level, flags, keep-alive. A name other than
   *  "MQTT", a header byte other than CONNECT or a level other than 4 is
   *  refused with an error; so is a payload of fewer than three bytes. */
  function ConnectBody(f: Fixed, used: nat): (r: Run<ConnectResult>)
    ensures !r.Diverges?
    ensures r.Returns? && r.value.packet.None? ==> r.value.failed
    ensures r.Returns? && r.value.failed ==> r.value.packet.None? && r.value.code in {RefusedProtocolVersion, RefusedIdentifierRejected}
    ensures r.Returns? ==> r.value.used == used
    ensures r.Returns? && r.value.packet.Some? ==>
      var p := r.value.packet.value;
      && p.header == Header(CONNECT, f.msgLen)
      && p.protoName == MqttName && p.version == 4
      && 1 <= |p.clientID| == p.clientIDLength
      && r.value.code in {ConnectionAccepted, RefusedProtocolVersion, RefusedIdentifierRejected, RefusedBadUserNameOrPassword}
      && (r.value.code == RefusedProtocolVersion <==> Bit(p.connectFlag, 0))
      && (!Bit(p.connectFlag, 0) ==> (p.cleanSession <==> Bit(p.connectFlag, 1)))
    ensures r.Returns? && r.value.packet.Some? && r.value.code == ConnectionAccepted ==>
      var p := r.value.packet.value;
      && (p.willFlag <==> Bit(p.connectFlag, 2))
      && (p.willFlag ==> 1 <= |p.willTopic| && 1 <= |p.willMessage|)
      && (p.willFlag ==> (p.willRetain <==> Bit(p.connectFlag, 5)))
      && (p.willFlag ==> p.willQos == WillQos(p.connectFlag))
      && (Bit(p.connectFlag, 7) ==> 1 <= |p.userName|)
      && (Bit(p.connectFlag, 6) ==> 1 <= |p.password|)
    ensures r.Returns? && r.value.packet.None? && r.value.code == RefusedIdentifierRejected ==> |f.data| < 13
  {
    var daBy := f.data;
    if |daBy| < 2 then Panics
    else
      var pnl := BE16(daBy[0], daBy[1]);
      var e := Add16(2, pnl);
      if e < 2 || e > |daBy| || e >= |daBy| || Add16(e, 1) >= |daBy| then Panics
      else if Add16(e, 2) > Add16(e, 4) || Add16(e, 4) > |daBy| then Panics
      else
        var keep := daBy[Add16(e, 2)..Add16(e, 4)];
        var p := NewConnect(Header(f.headerFlag, f.msgLen)).(
          protoNameLen := pnl, protoName := daBy[2..e], version := daBy[e],
          connectFlag := daBy[Add16(e, 1)],
          keepAlive := if |keep| == 2 then BE16(keep[0], keep[1]) else 0);
        if p.protoName != MqttName || f.headerFlag != CONNECT || p.version != 4 then
          Returns(ConnectResult(None, RefusedProtocolVersion, true, used))
        else
          assert pnl == 4 && Add16(e, 4) == 10;
          var daByp := daBy[10..];
          if |daByp| < 3 then Returns(ConnectResult(None, RefusedIdentifierRejected, true, used))
          else Accept(ConnectPayload(p, daByp), used)
  }

  /** The refusals of `ConnectBody` that come with an error: a variable header
   *  that fits but names another protocol, type or level gives code 1, and a
   *  correct header followed by fewer than three payload bytes gives code 2. */
  lemma ConnectBodyCases(f: Fixed, used: nat)
    ensures |f.data| >= 2 ==> var pnl := BE16(f.data[0], f.data[1]);
      pnl < 0xFFF0 && 2 + pnl + 4 <= |f.data|
      && (f.data[2..2 + pnl] != MqttName || f.headerFlag != CONNECT || f.data[2 + pnl] != 4) ==>
      ConnectBody(f, used) == Returns(ConnectResult(None, RefusedProtocolVersion, true, used))
    ensures (10 <= |f.data| < 13 && f.data[..2] == [0, 4] && f.data[2..6] == MqttName
      && f.headerFlag == CONNECT && f.data[6] == 4) ==>
      ConnectBody(f, used) == Returns(ConnectResult(None, RefusedIdentifierRejected, true, used))
  {
    var d := f.data;
    if |d| >= 2 {
      var pnl := BE16(d[0], d[1]);
      if pnl < 0xFFF0 && 2 + pnl + 4 <= |d| {
        assert Add16(2, pnl) == 2 + pnl;
        assert Add16(2 + pnl, 4) == 2 + pnl + 4;
      }
      if 10 <= |d| < 13 && d[..2] == [0, 4] && d[2..6] == MqttName && f.headerFlag == CONNECT && d[6] == 4 {
        assert d[0] == 0 && d[1] == 4;
        assert pnl == 4 && Add16(2, pnl) == 6;
      }
    }
  }

  /** Where a returned structure's fields sit in the variable header and
   *  payload: name length `[0, 4]`, "MQTT", level 4, the flag byte, the
   *  keep-alive, then the client id behind its length. */
  lemma ConnectBodyBytes(f: Fixed, used: nat)
    ensures var r := ConnectBody(f, used);
      r.Returns? && r.value.packet.Some? ==> var p := r.value.packet.value;
      && |f.data| >= 12 + p.clientIDLength && f.data[..2] == [0, 4] && f.data[2..6] == MqttName
      && f.data[6] == 4 && p.connectFlag == f.data[7] && p.keepAlive == BE16(f.data[8], f.data[9])
      && p.clientIDLength == BE16(f.data[10], f.data[11]) && p.clientID == f.data[12..12 + p.clientIDLength]
  {
    var d := f.data;
    if |d| >= 2 {
      var pnl := BE16(d[0], d[1]);
      var e := Add16(2, pnl);
      if !(e < 2 || e > |d| || e >= |d| || Add16(e, 1) >= |d|)
         && !(Add16(e, 2) > Add16(e, 4) || Add16(e, 4) > |d|)
         && d[2..e] == MqttName && f.headerFlag == CONNECT && d[e] == 4
      {
        assert |d[2..e]| == 4;
        assert e == 6 && pnl == 4;
        assert d[0] == 0 && d[1] == 4;
        assert d[..2] == [0, 4];
        assert d[Add16(e, 2)..Add16(e, 4)] == d[8..10];
        var p := NewConnect(Header(f.headerFlag, f.msgLen)).(
          protoNameLen := pnl, protoName := d[2..e], version := d[e],
          connectFlag := d[7], keepAlive := BE16(d[8], d[9]));
        var daByp := d[10..];
        if |daByp| >= 3 {
          assert ConnectBody(f, used) == Accept(ConnectPayload(p, daByp), used);
          var c := ConnectPayload(p, daByp);
          if c.Returns? {
            var q := c.value.0;
            assert daByp[0] == d[10] && daByp[1] == d[11];
            assert daByp[2..2 + q.clientIDLength] == d[12..12 + q.clientIDLength];
          }
        }
      }
    }
  }

  /** The payload's outcome as `unPackCONNECTProtocol` returns it: the
   *  structure, its code and no error. */
  function Accept(r: Run<(Connect, byte)>, used: nat): (a: Run<ConnectResult>)
    ensures r.Returns? <==> a.Returns?
    ensures a.Returns? ==> a.value == ConnectResult(Some(r.value.0), r.value.1, false, used)
  {
    if r.Returns? then Returns(ConnectResult(Some(r.value.0), r.value.1, false, used)) else Panics
  }

  /** The structure once the variable header of an accepted name and level has been read. */
  function HeaderRead(msgLen: nat, flag: byte, keepAlive: nat): (p: Connect)
    ensures p.protoName == MqttName && p.version == 4 && p.cleanSession && !p.willFlag
    ensures p.header == Header(CONNECT, msgLen) && p.connectFlag == flag && p.keepAlive == keepAlive
  {
    NewConnect(Header(CONNECT, msgLen)).(protoNameLen := 4, protoName := MqttName, version := 4,
                                          connectFlag := flag, keepAlive := keepAlive)
  }

  /** The payload after the variable header: client id, the connect flags'
   *  reserved bit and clean session, then the will and the credentials. A
   *  missing client id reaches `err.Error()` on a nil error and panics. */
  function ConnectPayload(p: Connect, daByp: seq<byte>): (r: Run<(Connect, byte)>)
    requires |daByp| >= 3 && p.protoName == MqttName && p.version == 4
    requires p.cleanSession && !p.willFlag && p.header.headerFlag == CONNECT
    ensures !r.Diverges?
    ensures r.Returns? ==> var q := r.value.0;
      && q.header == p.header && q.protoName == p.protoName && q.version == p.version
      && q.connectFlag == p.connectFlag && q.keepAlive == p.keepAlive
      && 1 <= |q.clientID| == q.clientIDLength && 2 + q.clientIDLength <= |daByp|
      && q.clientIDLength == BE16(daByp[0], daByp[1]) && q.clientID == daByp[2..2 + q.clientIDLength]
      && r.value.1 in {ConnectionAccepted, RefusedProtocolVersion, RefusedIdentifierRejected, RefusedBadUserNameOrPassword}
      && (r.value.1 == RefusedProtocolVersion <==> Bit(p.connectFlag, 0))
      && (!Bit(p.connectFlag, 0) ==> (q.cleanSession <==> Bit(p.connectFlag, 1)))
    ensures BE16(daByp[0], daByp[1]) == 0 || |daByp| < 2 + BE16(daByp[0], daByp[1]) ==> r.Panics?
    ensures r.Returns? && r.value.1 == ConnectionAccepted ==> var q := r.value.0;
      && (q.willFlag <==> Bit(p.connectFlag, 2))
      && (q.willFlag ==> 1 <= |q.willTopic| && 1 <= |q.willMessage|)
      && (q.willFlag ==> (q.willRetain <==> Bit(p.connectFlag, 5)))
      && (q.willFlag ==> q.willQos == WillQos(p.connectFlag))
      && (Bit(p.connectFlag, 7) ==> 1 <= |q.userName|)
      && (Bit(p.connectFlag, 6) ==> 1 <= |q.password|)
  {
    var cid := By2LenNameBE(daByp);
    if !cid.Returns? then Panics
    else
      var p1 := p.(clientIDLength := cid.value.blen, clientID := cid.value.name);
      if p1.clientIDLength < 1 || p1.clientID == [] then Panics
      else
        ConnectFlagged(p1, daByp[Add16(2, p1.clientIDLength)..])
  }

  /** The payload after the client id, read as the connect flags direct: the
   *  reserved bit refuses the connection, clean-session is taken from bit 1,
   *  and the will (bit 2) and the credentials (bits 6 and 7) are read from `daByp2`. */
  function ConnectFlagged(p1: Connect, daByp2: seq<byte>): (r: Run<(Connect, byte)>)
    requires p1.cleanSession && !p1.willFlag
    ensures !r.Diverges?
    ensures r.Returns? ==> var q := r.value.0;
      && q.header == p1.header && q.protoName == p1.protoName && q.version == p1.version
      && q.connectFlag == p1.connectFlag && q.keepAlive == p1.keepAlive
      && q.clientIDLength == p1.clientIDLength && q.clientID == p1.clientID
      && r.value.1 in {ConnectionAccepted, RefusedProtocolVersion, RefusedIdentifierRejected, RefusedBadUserNameOrPassword}
      && (r.value.1 == RefusedProtocolVersion <==> Bit(p1.connectFlag, 0))
      && (!Bit(p1.connectFlag, 0) ==> (q.cleanSession <==> Bit(p1.connectFlag, 1)))
    ensures r.Returns? && r.value.1 == ConnectionAccepted ==> var q := r.value.0;
      && (q.willFlag <==> Bit(p1.connectFlag, 2))
      && (q.willFlag ==> 1 <= |q.willTopic| && 1 <= |q.willMessage|)
      && (q.willFlag ==> (q.willRetain <==> Bit(p1.connectFlag, 5)))
      && (q.willFlag ==> q.willQos == WillQos(p1.connectFlag))
      && (Bit(p1.connectFlag, 7) ==> 1 <= |q.userName|)
      && (Bit(p1.connectFlag, 6) ==> 1 <= |q.password|)
  {
    var bs := Binary8(p1.connectFlag);
    if bs[7] != '0' then Returns((p1, RefusedProtocolVersion))
    else
      var p2 := if bs[6] == '0' then p1.(cleanSession := false) else p1;
      if bs[5] == '1' then
        var w := ConnectWill(p2, daByp2);
        if !w.Returns? then Panics
        else if w.value.2 then ConnectCredentials(w.value.0, w.value.1)
        else Returns((w.value.0, RefusedIdentifierRejected))
      else ConnectCredentials(p2, daByp2)
  }

  /** The will topic and message. After them the cursor is moved past
   *  `2 + ClientIDLength + 2 + WillMessageLength + 1` bytes: the client id's
   *  length where the will topic's belongs, one byte too many, in wrapping
   *  `uint16` arithmetic, and a slice beyond the remaining bytes panics.
   *  The third result is false where the source answers "identifier rejected". */
  function ConnectWill(p: Connect, daByp2: seq<byte>): (r: Run<(Connect, seq<byte>, bool)>)
    requires !p.willFlag
    ensures !r.Diverges?
    ensures r.Returns? ==> var q := r.value.0;
      && q.header == p.header && q.protoName == p.protoName && q.version == p.version
      && q.connectFlag == p.connectFlag && q.keepAlive == p.keepAlive && q.cleanSession == p.cleanSession
      && q.clientID == p.clientID && q.clientIDLength == p.clientIDLength
    ensures r.Returns? && r.value.2 ==> var q := r.value.0;
      && q.willFlag && 1 <= |q.willTopic| && 1 <= |q.willMessage|
      && (q.willRetain <==> Bit(p.connectFlag, 5)) && q.willQos == WillQos(p.connectFlag)
      && WillSkip(p.clientIDLength, q.willMessageLength) <= |daByp2|
      && r.value.1 == daByp2[WillSkip(p.clientIDLength, q.willMessageLength)..]
    ensures r.Returns? && !r.value.2 ==> !r.value.0.willFlag
    ensures |daByp2| < 6 ==> r == Returns((p, daByp2, false))
  {
    if |daByp2| < 6 then Returns((p, daByp2, false))
    else
      var wt := By2LenNameBE(daByp2);
      if !wt.Returns? then Panics
      else
        var p1 := p.(willTopicLength := wt.value.blen, willTopic := wt.value.name);
        if p1.willTopicLength < 1 || p1.willTopic == [] then Returns((p1, daByp2, false))
        else
          var wm := By2LenNameBE(daByp2[Add16(2, p1.willTopicLength)..]);
          if !wm.Returns? then Panics
          else
            var p2 := p1.(willMessageLength := wm.value.blen, willMessage := wm.value.name);
            if p2.willMessageLength < 1 || p2.willMessage == [] then Returns((p2, daByp2, false))
            else
              var bs := Binary8(p.connectFlag);
              var p3 := p2.(willFlag := true, willRetain := bs[2] == '1',
                            willQos := WillQos(p.connectFlag));
              var next := WillSkip(p.clientIDLength, p2.willMessageLength);
              if next > |daByp2| then Panics
              else Returns((p3, daByp2[next..], true))
  }

  /** A will found holds the two names `By2LenNameBE` reads, one after the other. */
  lemma ConnectWillNames(p: Connect, daByp2: seq<byte>)
    requires !p.willFlag
    ensures var r := ConnectWill(p, daByp2);
      r.Returns? && r.value.2 ==> var q := r.value.0;
      var t := By2LenNameBE(daByp2);
      && t.Returns? && t.value.ok && q.willTopicLength == t.value.blen && q.willTopic == t.value.name
      && var m := By2LenNameBE(daByp2[2 + t.value.blen..]);
      && m.Returns? && m.value.ok && q.willMessageLength == m.value.blen && q.willMessage == m.value.name
  {
    var t := By2LenNameBE(daByp2);
    if t.Returns? && t.value.ok {
      assert Add16(2, t.value.blen) == 2 + t.value.blen;
    }
  }

  /** A will found has its topic behind the first big-endian length and its
   *  message behind the big-endian length that follows the topic. */
  lemma ConnectWillBytes(p: Connect, daByp2: seq<byte>)
    requires !p.willFlag
    ensures var r := ConnectWill(p, daByp2);
      r.Returns? && r.value.2 ==> var q := r.value.0; var tl := q.willTopicLength;
      && 4 + tl <= |daByp2| && tl == BE16(daByp2[0], daByp2[1]) && q.willTopic == daByp2[2..2 + tl]
      && q.willMessageLength == BE16(daByp2[2 + tl], daByp2[3 + tl])
      && 4 + tl + q.willMessageLength <= |daByp2|
      && q.willMessage == daByp2[4 + tl..4 + tl + q.willMessageLength]
  {
    ConnectWillNames(p, daByp2);
    TwoNames(daByp2);
  }

  /** The cases in which `ConnectWill` finds no will: a will-topic length of
   *  65534 or more panics; a zero length, a topic reaching past the bytes, or
   *  a zero message length is refused. */
  lemma ConnectWillCases(p: Connect, daByp2: seq<byte>)
    requires !p.willFlag && |daByp2| >= 6
    ensures BE16(daByp2[0], daByp2[1]) >= 0xFFFE ==> ConnectWill(p, daByp2).Panics?
    ensures var tl := BE16(daByp2[0], daByp2[1]);
      (tl == 0 || (tl < 0xFFFE && |daByp2| < 2 + tl)) ==>
      ConnectWill(p, daByp2).Returns? && !ConnectWill(p, daByp2).value.2
    ensures var tl := BE16(daByp2[0], daByp2[1]);
      1 <= tl < 0xFFFE && 2 + tl + 2 <= |daByp2| && BE16(daByp2[2 + tl], daByp2[3 + tl]) == 0 ==>
      ConnectWill(p, daByp2).Returns? && !ConnectWill(p, daByp2).value.2
  {
  }

  /** The `uint16` cursor `2 + ClientIDLength + 2 + WillMessageLength + 1`. */
  function WillSkip(clientIDLength: nat, willMessageLength: nat): (r: nat)
    ensures clientIDLength + willMessageLength + 5 < 0x1_0000 ==> r == clientIDLength + willMessageLength + 5
  {
    Add16(Add16(Add16(Add16(2, clientIDLength), 2), willMessageLength), 1)
  }

  /** The user name, if bit 7 is set: fewer than three bytes, a zero length or
   *  a length past the end answers "bad user name or password"; otherwise the
   *  name is stored and the password is read from the bytes after it. */
  function ConnectCredentials(p: Connect, daByp2: seq<byte>): (r: Run<(Connect, byte)>)
    ensures !r.Diverges?
    ensures r.Returns? ==> r.value.1 in {ConnectionAccepted, RefusedBadUserNameOrPassword}
    ensures r.Returns? ==> var q := r.value.0;
      q == p.(userNameLength := q.userNameLength, userName := q.userName,
              passwordLength := q.passwordLength, password := q.password)
    ensures r.Returns? && r.value.1 == ConnectionAccepted && Bit(p.connectFlag, 7) ==> var q := r.value.0;
      && 1 <= q.userNameLength == |q.userName| && 2 + q.userNameLength <= |daByp2|
      && q.userNameLength == BE16(daByp2[0], daByp2[1]) && q.userName == daByp2[2..2 + q.userNameLength]
    ensures r.Returns? && r.value.1 == ConnectionAccepted ==>
      (Bit(p.connectFlag, 7) ==> 1 <= |r.value.0.userName|) && (Bit(p.connectFlag, 6) ==> 1 <= |r.value.0.password|)
  {
    var bs := Binary8(p.connectFlag);
    if bs[0] == '1' then
      if |daByp2| < 3 then Returns((p, RefusedBadUserNameOrPassword))
      else
        var n := By2LenNameBE(daByp2);
        if !n.Returns? then Panics
        else
          var p1 := p.(userNameLength := n.value.blen, userName := n.value.name);
          if p1.userNameLength < 1 || p1.userName == [] then Returns((p1, RefusedBadUserNameOrPassword))
          else ConnectPassword(p1, daByp2[Add16(2, p1.userNameLength)..])
    else ConnectPassword(p, daByp2)
  }

  /** The branches of `ConnectCredentials`: without bit 7 the password is read
   *  at once; with it, under three bytes, a zero length or a user name
   *  reaching past the bytes is refused with code 4, a length of 65534 or more
   *  panics, and a user name that fits is stored and the password read after it. */
  lemma ConnectCredentialsCases(p: Connect, daByp2: seq<byte>)
    ensures !Bit(p.connectFlag, 7) ==> ConnectCredentials(p, daByp2) == ConnectPassword(p, daByp2)
    ensures Bit(p.connectFlag, 7) && |daByp2| < 3 ==> ConnectCredentials(p, daByp2) == Returns((p, RefusedBadUserNameOrPassword))
    ensures Bit(p.connectFlag, 7) && |daByp2| >= 3 && BE16(daByp2[0], daByp2[1]) >= 0xFFFE ==> ConnectCredentials(p, daByp2).Panics?
    ensures Bit(p.connectFlag, 7) && |daByp2| >= 3 && BE16(daByp2[0], daByp2[1]) == 0 ==>
      ConnectCredentials(p, daByp2) == Returns((p.(userNameLength := 0, userName := []), RefusedBadUserNameOrPassword))
    ensures Bit(p.connectFlag, 7) && |daByp2| >= 3 ==> var n := BE16(daByp2[0], daByp2[1]);
      0 < n < 0xFFFE && |daByp2| < 2 + n ==>
      ConnectCredentials(p, daByp2) == Returns((p.(userNameLength := n, userName := []), RefusedBadUserNameOrPassword))
    ensures Bit(p.connectFlag, 7) && |daByp2| >= 3 ==> var n := BE16(daByp2[0], daByp2[1]);
      0 < n < 0xFFFE && 2 + n <= |daByp2| ==>
      ConnectCredentials(p, daByp2) == ConnectPassword(p.(userNameLength := n, userName := daByp2[2..2 + n]), daByp2[2 + n..])
  {
  }

  /** The password, if bit 6 is set, under the same three rules as the user
   *  name; the connection is accepted once it, or its absence, is read. */
  function ConnectPassword(p: Connect, d: seq<byte>): (r: Run<(Connect, byte)>)
    ensures !r.Diverges?
    ensures r.Returns? ==> var q := r.value.0;
      q == p.(passwordLength := q.passwordLength, password := q.password)
    ensures !Bit(p.connectFlag, 6) ==> r == Returns((p, ConnectionAccepted))
    ensures Bit(p.connectFlag, 6) && |d| < 3 ==> r == Returns((p, RefusedBadUserNameOrPassword))
    ensures Bit(p.connectFlag, 6) && |d| >= 3 && BE16(d[0], d[1]) >= 0xFFFE ==> r.Panics?
    ensures Bit(p.connectFlag, 6) && |d| >= 3 && BE16(d[0], d[1]) == 0 ==>
      r == Returns((p.(passwordLength := 0, password := []), RefusedBadUserNameOrPassword))
    ensures Bit(p.connectFlag, 6) && |d| >= 3 ==> var n := BE16(d[0], d[1]);
      0 < n < 0xFFFE && |d| < 2 + n ==>
      r == Returns((p.(passwordLength := n, password := []), RefusedBadUserNameOrPassword))
    ensures Bit(p.connectFlag, 6) && |d| >= 3 ==> var n := BE16(d[0], d[1]);
      0 < n < 0xFFFE && 2 + n <= |d| ==>
      r == Returns((p.(passwordLength := n, password := d[2..2 + n]), ConnectionAccepted))
  {
    var bs := Binary8(p.connectFlag);
    if bs[1] == '1' then
      if |d| < 3 then Returns((p, RefusedBadUserNameOrPassword))
      else
        var n := By2LenNameBE(d);
        if !n.Returns? then Panics
        else
          var p1 := p.(passwordLength := n.value.blen, password := n.value.name);
          if p1.passwordLength < 1 || p1.password == [] then Returns((p1, RefusedBadUserNameOrPassword))
          else Returns((p1, ConnectionAccepted))
    else Returns((p, ConnectionAccepted))
  }

  // ---------------------------------------------------------------- properties

  /** The CONNECT a 3.1.1 client sends with a client id and no will, user name
   *  or password: header, "MQTT", level 4, the flags, keep-alive, the id. */
  function EncodeConnect(flag: byte, keepAlive: nat, clientId: seq<byte>): seq<byte>
    requires keepAlive < 0x1_0000 && |clientId| < 0x1_0000
  {
    Frame(CONNECT, Prefixed(MqttName) + [4, flag] + Int16ToByBig(keepAlive) + Prefixed(clientId))
  }

  /** A variable header naming "MQTT" at level 4 is read into `HeaderRead`,
   *  and the decoder goes on to the payload that follows it. */
  lemma ConnectHeader(flag: byte, keepAlive: nat, payload: seq<byte>, used: nat)
    requires keepAlive < 0x1_0000 && |payload| >= 3
    ensures var body := Prefixed(MqttName) + [4, flag] + Int16ToByBig(keepAlive) + payload;
      ConnectBody(Fixed(CONNECT, |body|, body), used)
      == Accept(ConnectPayload(HeaderRead(|body|, flag, keepAlive), payload), used)
  {
    var body := Prefixed(MqttName) + [4, flag] + Int16ToByBig(keepAlive) + payload;
    assert body[..10] == Prefixed(MqttName) + [4, flag] + Int16ToByBig(keepAlive) && body[10..] == payload;
    assert body[0] == 0 && body[1] == 4 && body[2..6] == MqttName by {
      assert body[..10][..6] == Prefixed(MqttName);
      assert body[..10][2..6] == body[2..6];
    }
    assert body[6] == 4 && body[7] == flag && body[8..10] == Int16ToByBig(keepAlive) by {
      assert body[..10][6] == 4 && body[..10][7] == flag;
      assert body[..10][8..10] == body[8..10];
    }
  }

  /** A payload that is only a nonempty client id: the id is stored, the
   *  code is 1 if the reserved bit is set and 0 otherwise, and neither will
   *  nor credentials are read. */
  lemma ConnectIdOnly(p: Connect, clientId: seq<byte>)
    requires p.protoName == MqttName && p.version == 4 && p.cleanSession && !p.willFlag
    requires p.header.headerFlag == CONNECT && 1 <= |clientId| < 0xFFFE
    requires !Bit(p.connectFlag, 2) && !Bit(p.connectFlag, 6) && !Bit(p.connectFlag, 7)
    ensures var r := ConnectPayload(p, Prefixed(clientId));
      && r.Returns? && r.value.0.clientID == clientId && !r.value.0.willFlag
      && r.value.1 == (if Bit(p.connectFlag, 0) then RefusedProtocolVersion else ConnectionAccepted)
  {
    ReadPrefixed(clientId, []);
    assert Prefixed(clientId) + [] == Prefixed(clientId);
    assert Prefixed(clientId)[Add16(2, |clientId|)..] == [];
  }

  /** Such a CONNECT is accepted with code 0, and the decoded structure carries
   *  the client id, keep-alive and clean-session bit that were sent; a set
   *  reserved bit gives code 1 instead. */
  lemma ConnectAccepted(flag: byte, keepAlive: nat, clientId: seq<byte>, rest: seq<byte>)
    requires keepAlive < 0x1_0000 && 1 <= |clientId| < 0xFFF0
    requires !Bit(flag, 2) && !Bit(flag, 6) && !Bit(flag, 7)
    ensures var r := UnPackCONNECT(EncodeConnect(flag, keepAlive, clientId) + rest);
      && r.Returns? && r.value.packet.Some? && !r.value.failed
      && r.value.used == |EncodeConnect(flag, keepAlive, clientId)|
      && r.value.code == (if Bit(flag, 0) then RefusedProtocolVersion else ConnectionAccepted)
      && r.value.packet.value.clientID == clientId && r.value.packet.value.keepAlive == keepAlive
      && r.value.packet.value.connectFlag == flag
      && (!Bit(flag, 0) ==> (r.value.packet.value.cleanSession <==> Bit(flag, 1)))
      && !r.value.packet.value.willFlag
  {
    var body := Prefixed(MqttName) + [4, flag] + Int16ToByBig(keepAlive) + Prefixed(clientId);
    FrameRoundTrip(CONNECT, body, rest);
    ConnectHeader(flag, keepAlive, Prefixed(clientId), |EncodeConnect(flag, keepAlive, clientId)|);
    ConnectIdOnly(HeaderRead(|body|, flag, keepAlive), clientId);
  }

  /** A CONNECT whose payload ends right after a will and whose client id is at
   *  least as long as the will topic panics: the cursor moved past the will
   *  counts the client id's length and one byte more. */
  lemma WillCursorPanics(p: Connect, willTopic: seq<byte>, willMessage: seq<byte>)
    requires 1 <= |willTopic| < 0x1000 && 1 <= |willMessage| < 0x1000
    requires |willTopic| <= p.clientIDLength < 0x1000 && !p.willFlag
    ensures ConnectWill(p, Prefixed(willTopic) + Prefixed(willMessage)) == Panics
  {
    var bs := Prefixed(willTopic) + Prefixed(willMessage);
    ReadPrefixed(willTopic, Prefixed(willMessage));
    assert bs[2 + |willTopic|..] == Prefixed(willMessage) + [];
    ReadPrefixed(willMessage, []);
  }

  /** A zero client-id length followed by further payload does not refuse the
   *  connection with "identifier rejected": the decoder panics. */
  lemma EmptyClientIdPanics(flag: byte, keepAlive: nat, more: seq<byte>)
    requires keepAlive < 0x1_0000 && 1 <= |more| < 0x1000
    ensures UnPackCONNECT(Frame(CONNECT, Prefixed(MqttName) + [4, flag] + Int16ToByBig(keepAlive) + ([0, 0] + more))) == Panics
  {
    var body := Prefixed(MqttName) + [4, flag] + Int16ToByBig(keepAlive) + ([0, 0] + more);
    FrameRoundTrip(CONNECT, body, []);
    assert Frame(CONNECT, body) + [] == Frame(CONNECT, body);
    ConnectHeader(flag, keepAlive, [0, 0] + more, |Frame(CONNECT, body)|);
    ReadZeroLength(more);
  }
}
