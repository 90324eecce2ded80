# ghmqtt core in Dafny

A model of the sequential core of the ghmqtt MQTT broker, a Go server that
comes in two near-parallel trees: `mqtt311` for MQTT 3.1.1 and `mqtt5` for
MQTT 5.0. What is modelled, and proved about it:

- **Wire codec of both versions.** The one-to-four-byte remaining length
  (section 2.2.3 of MQTT 3.1.1, the Variable Byte Integer of section 1.5.5 of
  MQTT 5.0), big-endian 16-bit fields and length-prefixed strings, the fixed
  header parser, every packet encoder and decoder of the core, CONNECT
  validation with its return and reason codes, and the MQTT 5.0 property
  blocks of CONNECT, the will and DISCONNECT.
- **Topic and connection registries of the 3.1.1 server** (`TopicManager`,
  `ConnManager`) as classes whose maps and sets are updated in place, with
  the sends they cause recorded on a shared trace.
- **The 3.1.1 connection** (`Conn`): the client-id handshake, the teardown
  guard and its ordered effects, and the key-value attributes.
- **The 3.1.1 demo routers** (`mqttRouter.go`): each default `Handle` as the
  effects it runs on the QoS 2 in-flight set, the registries and the reply.
- **MQTT 5.0 fan-out** (`TopicWork.go`): the wildcard candidates `MatchTopic`
  and `dfs` enumerate, their count and their shape, and the de-duplicated
  send of `matchSend` and `sendPub`.
- **MQTT 5.0 dispatch** (`RouterManager.go`): the default router table, the
  Pre/Handle/Post order, the connect verifier, and the worker queue chosen by
  `dHash(clientId) % workPoolSize`, with `dHash` as 32-bit FNV-1a.

| file | module | models |
|---|---|---|
| bytes.dfy | Bytes | bytes, Go outcomes (return, panic, endless loop), `uint16` sums, big-endian fields |
| remaining_length.dfy | RemainingLength | `msgLenCode`, `msgLenEnCode`, `by2Len32`, `by2Len32AndIndex`, `unPackPropertyLength` |
| length_prefixed.dfy | LengthPrefixed | `by2LenNameBE` |
| fixed_header.dfy | FixedHeader | `unPackFixed` as a parser over the bytes that arrive |
| connect_flags.dfy | ConnectFlags | the `%08b` rendering of the connect flags and the will QoS bits |
| filter_list.dfy | FilterList | the SUBSCRIBE and UNSUBSCRIBE filter loops |
| mqtt311_proto.dfy | Proto311 | `mqtt311/proto/MQTT.go` |
| mqtt311_codec.dfy | Pack311 | `mqtt311/server/MqttDataPack.go` apart from CONNECT |
| mqtt311_connect.dfy | Connect311 | `unPackCONNECTProtocol` of 3.1.1 |
| server311.dfy | Server311 | `ConnManager.go`, `TopicManager.go`, `Conn.go` |
| router311.dfy | Router311 | `mqtt311/demo/router/mqttRouter.go` |
| mqtt5_proto.dfy | Proto5 | `mqtt5/proto/MQTT.go` and the plain `Fixed` methods |
| mqtt5_connect.dfy | Connect5 | `mqtt5/proto/CONNECT.go` |
| mqtt5_packets.dfy | Packets5 | CONNACK, PUBLISH, PUBACK, PUBREC, PUBREL, PUBCOMP, SUBSCRIBE, UNSUBSCRIBE, UNSUBACK, AUTH, PINGRESP |
| mqtt5_disconnect.dfy | Disconnect5 | `mqtt5/proto/DISCONNECT.go` |
| mqtt5_server.dfy | Server5 | `mqtt5/server/MqttDataPack.go` |
| topic_work.dfy | TopicWork5 | `mqtt5/server/TopicWork.go` |
| router_manager.dfy | RouterManager5 | `mqtt5/server/RouterManager.go` |

The three copies of the remaining-length codec (`mqtt311/server/MqttDataPack.go`,
`mqtt5/proto/Fixed.go`, `mqtt5/server/MqttDataPack.go`) are the same code and
are defined once; rows below cite whichever copy they were read against.

A Go call that returns is `Returns(v)`, with Go's error value inside `v`; a
slice out of range or a write into a nil map is `Panics`; a loop that can
never finish is `Diverges`. The decoders work on the `Data` after the fixed
header, whose length `unPackFixed` makes equal to `MsgLen`.

## Behaviour modelled as the code has it

These paths are modelled literally and their consequences are proved:

- An empty client id in a 3.1.1 CONNECT reaches `err.Error()` on a nil error
  (`mqtt311/server/MqttDataPack.go:388-392`): the decoder panics
  (`Connect311.EmptyClientIdPanics`).
- `finalStop` closes the connection's write channel before it sends the will
  (`mqtt311/server/Conn.go:272-279`), and `sendByte` sends on that channel
  (`mqtt311/server/Conn.go:256`). A client subscribed to its own will topic
  therefore makes the will send panic; nothing recovers, and the will and the
  registry entry are not removed (`Server311.Conn.FinalStop`,
  `Server311.FinalStopSelfWillPanics`). Any send to a closed connection
  panics in the model (`Server311.Conn.SendByte`).
- The 3.1.1 decoder skips the will using `ClientIDLength` where the will-topic
  length belongs (`mqtt311/server/MqttDataPack.go:451`), so a will at the end
  of a payload can panic (`Connect311.WillCursorPanics`).
- `setRetainMsg` with an empty payload deletes the entry and then stores the
  empty payload again (`mqtt311/server/TopicManager.go:166-181`); the topic
  stays mapped and nothing is sent to new subscribers.
- `getTopSubList` returns `tlen` empty strings before the `tlen` subscribers
  (`mqtt311/server/TopicManager.go:117-136`).
- A reused QoS 2 identifier stops the connection, but the handler goes on: it
  records the identifier again and sends the PUBREC
  (`Router311.Qos2DuplicateGoesOn`).
- The MQTT 5.0 property loops of CONNECT and DISCONNECT do not advance over
  an identifier they do not handle, since `break` only leaves the `switch`:
  they spin forever (`Connect5.UnknownPropertyStalls`,
  `Disconnect5.UnknownPropertyStalls`). A DISCONNECT user property is written
  into a nil map and panics (`Disconnect5.UserPropertyPanics`).
- The will payload format indicator is read from `daByp2` and the cursor
  moves by `tinx += tinx+1+1` (`mqtt5/proto/CONNECT.go:372-376`)
  (`Connect5.WillPayloadFormatReadsIdentifier`, `Connect5.WillPayloadFormatSkips`).
- `dfs` recurses without bound for a topic containing no '/'
  (`mqtt5/server/TopicWork.go:195-212`); `MatchTopic` therefore requires a
  topic with a '/' or the topic "#".
- A 5.0 will whose property length is 0 leaves the cursor on the
  property-length byte (`mqtt5/proto/CONNECT.go:352-440`), so a topic
  shorter than 256 bytes is read with length 0 and the CONNECT is refused
  with `Topic_Name_invalid` (`Connect5.WillWithoutPropertiesRefused`).
- PUBLISH flags 0x35 to 0x3D decode as QoS 2 in 3.1.1 and as QoS 1 in 5.0
  (`Packets5.QosDisagreement`).

Where a reader of MQTT 3.1.1 or MQTT 5.0 would expect otherwise, the model
follows the code:

- a retained PUBLISH with an empty payload does not remove the retained
  message (section 3.3.1.3 of MQTT 3.1.1 says it should); it is kept as an
  empty entry (see above);
- a PUBLISH reusing a QoS 2 identifier that is still in flight stops the
  connection but is still recorded and acknowledged (see above);
- an MQTT 5.0 property identifier that the decoder does not handle is not
  reported as a malformed packet (section 2.2.2.2 of MQTT 5.0); the loop
  never ends;
- a CONNECT whose decoding returns an error is answered with no CONNACK,
  although section 3.1.4 of MQTT 3.1.1 answers an unsupported protocol level
  with return code 1 before closing;
- the MQTT 5.0 default table has no router for AUTH (section 3.15 of MQTT
  5.0) or for the PUBLISH header bytes 0x35 to 0x3D, although section 3.3.1
  of MQTT 5.0 allows 0x35 (a retained QoS 2 message) and 0x3A to 0x3D (DUP
  set on QoS 1 or 2); of the rest, 0x36 and 0x37 ask for QoS 3 and 0x38 and
  0x39 set DUP on QoS 0, which that section makes malformed. All of them
  decode and are then dropped;
- a will is sent only to subscribers of exactly the will topic; section
  3.1.2.5 of MQTT 3.1.1 has it published like any message, so wildcard
  subscribers would receive it too.

## Model

| member | source | states |
|---|---|---|
| Bytes.Add16 | mqtt311/server/MqttDataPack.go:496-516 | a `uint16` sum: the true sum below 2^16, the sum less 2^16 above it, never 2^16 or more |
| Bytes.Wrap16 | mqtt311/server/MqttDataPack.go:451 | a `uint16(...)` conversion keeps values below 2^16 and always yields one below 2^16 |
| Bytes.BE16 | mqtt311/server/MqttDataPack.go:363-364 | two bytes read big-endian give a `uint16` |
| Bytes.Int16ToByBig | mqtt311/server/MqttDataPack.go:878-883 | two bytes that read back big-endian as the value |
| Bytes.Int16ZeroBytes | mqtt5/proto/Fixed.go:204-209 | zero is written as two zero bytes |
| Bytes.BE16Inverse | mqtt5/proto/Fixed.go:204-209 | writing back a big-endian read gives the same two bytes |
| ConnectFlags.Binary8 | mqtt311/server/MqttDataPack.go:397 | the `%08b` text has eight characters, character i being '1' exactly when bit 7-i is set |
| ConnectFlags.WillQos | mqtt311/server/MqttDataPack.go:440-448 | bits 4..3 = 01 give QoS 1, 10 give QoS 2, 00 and 11 leave QoS 0 |
| FilterList.UnPackSubscribeFilters | mqtt311/server/MqttDataPack.go:666-704 | the Go loop over the SUBSCRIBE filters computes the reference `SubscribeFilters` |
| FilterList.UnPackUnsubscribeFilters | mqtt311/server/MqttDataPack.go:706-741 | the Go loop over the UNSUBSCRIBE filters computes the reference `UnsubscribeFilters` |
| FilterList.UnsubscribeTerminates | mqtt311/server/MqttDataPack.go:706-741 | the UNSUBSCRIBE filter loop never runs forever |
| FilterList.SubscribeFiltersRoundTrip | mqtt5/proto/SUBSCRIBE.go:44-112 | encoded SUBSCRIBE filters are read back in order, each taking 2 + length + 1 bytes, and a trailing fragment under four bytes is ignored |
| FilterList.SubscribeFilterHead | mqtt5/proto/SUBSCRIBE.go:44-112 | one prefixed filter and its QoS byte at the front are read back whole and the loop goes on after them |
| FilterList.UnsubscribeFiltersRoundTrip | mqtt5/proto/UNSUBSCRIBE.go:34-100 | encoded UNSUBSCRIBE filters are read back in order, each taking 2 + length bytes, and a trailing fragment under three bytes is ignored |
| FilterList.UnsubscribeFilterHead | mqtt5/proto/UNSUBSCRIBE.go:34-100 | one prefixed filter at the front is read back whole and the loop goes on after it |
| FilterList.SubscribeLoopStalls | mqtt311/server/MqttDataPack.go:666-704 | a SUBSCRIBE filter of length 65533 wraps the `uint16` cursor back to where it was, so the loop never ends |
| FixedHeader.UnPackFixed | mqtt311/server/MqttDataPack.go:241-326 | a header byte other than 0; one to four length bytes, each before the last with bit 7 set; `MsgLen` is the base-128 value of those length bytes, at most 268435455, and `Data` is exactly that many bytes after them; header byte 0 is refused; an empty stream or a length field cut short is a read error, and with a readable field and a nonzero header byte the read succeeds exactly when the stream holds the whole body, and otherwise is a read error |
| FixedHeader.FrameRoundTrip | mqtt5/server/MqttDataPack.go:39-124 | reading a frame gives back its header byte, its length and its body, and consumes exactly the frame, whatever bytes follow it |
| LengthPrefixed.Prefixed | mqtt5/proto/CONNECT.go:153-165 | the string with its big-endian length in front |
| LengthPrefixed.By2LenNameBE | mqtt5/proto/Fixed.go:51-71 | it panics exactly when there are fewer than two bytes or the length is 65534 or 65535 (the `uint16` guard wraps); otherwise it succeeds exactly when the length is nonzero and fits, and the name is the bytes after the length |
| LengthPrefixed.ReadPrefixed | mqtt311/server/MqttDataPack.go:496-516 | a prefixed nonempty string reads back as itself and its length, whatever follows it |
| LengthPrefixed.ReadZeroLength | mqtt311/server/MqttDataPack.go:496-516 | a zero length reads back as not found, whatever follows it |
| LengthPrefixed.ReadPrefixedEmpty | mqtt5/proto/Fixed.go:51-71 | the empty string, written as two zero bytes, reads back as length 0 and not found |
| RemainingLength.CodeSmall | mqtt311/server/MqttDataPack.go:559-589 | a length below 128 is written as the single byte it names |
| RemainingLength.CodeShape | mqtt311/server/MqttDataPack.go:559-589 | one to four bytes up to 268435455, bit 7 set on all but the last, the width growing at 128, 16384 and 2097152; nothing above 268435455 |
| RemainingLength.EnCodeBound | mqtt311/server/MqttDataPack.go:526-550 | the decoded value never exceeds 268435455 |
| RemainingLength.RoundTrip | mqtt311/server/MqttDataPack.go:526-589 | decoding the zero-padded encoding of n gives n back, for every n up to 268435455 |
| RemainingLength.MsgLenCode | mqtt5/server/MqttDataPack.go:191-221 | the append loop produces `Code(n)`, whose shape and inverse are the two lemmas above |
| RemainingLength.MsgLenEnCode | mqtt5/server/MqttDataPack.go:158-182 | the accumulator loop computes `EnCode(bs)`: 0 unless one to four bytes are given, else their base-128 value |
| RemainingLength.By2Len32AndIndex | mqtt5/proto/Fixed.go:104-136 | the value is the base-128 value of the first k bytes, k from 1 to 4, every byte before the k-th having bit 7 set and the k-th not (when k < 4); it panics exactly when fewer than four bytes all have bit 7 set |
| RemainingLength.By2Len32 | mqtt5/proto/Fixed.go:74-101 | it never runs forever; it panics exactly when `by2Len32AndIndex` does (the field is cut short), and otherwise returns the same base-128 value, never more than 268435455 |
| RemainingLength.ReadEncoded | mqtt5/proto/Fixed.go:74-136 | an encoded length reads back as itself and the width of its field, whatever follows it |
| RemainingLength.UnPackPropertyLength | mqtt5/proto/Fixed.go:211-215 | it panics exactly when the field is cut short; otherwise it returns the base-128 value of the field's bytes and the input with exactly the field's one to four bytes dropped, the width `by2Len32AndIndex` reports |
| RemainingLength.PropertyLengthEncoded | mqtt5/proto/Fixed.go:211-215 | an encoded property length reads back as itself, followed by exactly the bytes after it |
| Proto311.TypeNibble | mqtt311/proto/MQTT.go:4-28 | the high nibble of a packet-type byte |
| Proto311.LowFlags | mqtt311/proto/MQTT.go:4-28 | the low nibble, the two together giving the byte back |
| Proto311.PacketTypesWellFormed | mqtt311/proto/MQTT.go:4-28 | the packet types are pairwise distinct, their type nibbles run 1 to 14 in the order of section 2.2.1 of MQTT 3.1.1, and only PUBREL, SUBSCRIBE and UNSUBSCRIBE carry the low flags 0b0010 |
| Proto311.PublishFlagsWellFormed | mqtt311/proto/MQTT.go:6-16 | 0x30 to 0x3D keep the PUBLISH nibble; retain is bit 0 and QoS bits 1-2 for 0x31 to 0x34; `PUBLISHMAX` is 0x3D |
| Proto311.CodesWellFormed | mqtt311/proto/MQTT.go:34-49 | the CONNACK codes are 0 to 5 in the order of section 3.2.2.3 of MQTT 3.1.1, the QoS levels 0 to 2, and `Failure` is 0x80 |
| Pack311.PackCONNACK | mqtt311/server/MqttDataPack.go:74-109 | exactly [0x20, 2, 0, code], which reads back as a CONNACK of length 2 |
| Pack311.PackPINGRESP | mqtt311/server/MqttDataPack.go:114-129 | two bytes, the header byte and `uint8(MsgLen)`; with length 0 it reads back as a PINGRESP |
| Pack311.PackProto | mqtt311/server/MqttDataPack.go:26-68 | it succeeds exactly for 0xD0, 0x90, 0xB0, 0x30, 0x40, 0x50, 0x62 and 0x70 given their own structure; any other header byte is refused as unknown |
| Pack311.PackedFramesRead | mqtt311/server/MqttDataPack.go:136-234 | the SUBACK, UNSUBACK, PUBLISH and acknowledgement encoders, with `MsgLen` counting the body, each lay out one frame that reads back whole |
| Pack311.SubackPacked | mqtt311/server/MqttDataPack.go:136-154 | a SUBACK is the fixed header, then the identifier's two bytes, then the return codes, `BodyLength` bytes after the header |
| Pack311.PublishPacked | mqtt311/server/MqttDataPack.go:180-211 | a PUBLISH is the fixed header, then the topic behind its BE16 length, the identifier only above QoS 0, then the payload, `BodyLength` bytes after the header |
| Pack311.IdentifierPacked | mqtt311/server/MqttDataPack.go:159-234 | an UNSUBACK or acknowledgement is the fixed header and then the identifier's two bytes |
| Pack311.UnPackPUBLISH | mqtt311/server/MqttDataPack.go:746-826 | the topic is the prefixed name at the start, QoS and retain come from the header byte, an identifier is read exactly above QoS 0, and the payload is the rest |
| Pack311.PublishQos | mqtt311/server/MqttDataPack.go:766-823 | 0x30 and 0x31 are QoS 0, 0x32 and 0x33 QoS 1, 0x34 and 0x35 to 0x3D QoS 2 |
| Pack311.PublishRetain | mqtt311/server/MqttDataPack.go:766-823 | retain is set exactly for 0x31 and 0x33 |
| Pack311.UnPackIdentifier | mqtt311/server/MqttDataPack.go:846-919 | the identifier bytes and their big-endian value; it panics exactly on fewer than two bytes |
| Pack311.UnPackSUBSCRIBE | mqtt311/server/MqttDataPack.go:666-704 | the identifier from the first two bytes and the filters the SUBSCRIBE loop reads after them; fewer than two bytes panic |
| Pack311.UnPackUNSUBSCRIBE | mqtt311/server/MqttDataPack.go:706-741 | the identifier from the first two bytes and the filters the UNSUBSCRIBE loop reads after them; fewer than two bytes panic |
| Pack311.GetProtoByFixed | mqtt311/server/MqttDataPack.go:598-659 | CONNECT is refused as a repeat, a header byte the server does not receive is refused as unknown, 0x30 to 0x3D go to the PUBLISH decoder, PINGREQ and DISCONNECT carry nothing; PUBLISH panics exactly when its decoder does, an ack exactly on fewer than two bytes, and SUBSCRIBE and UNSUBSCRIBE return, panic or spin exactly as their decoders do, returning the decoded structure |
| Pack311.PublishBodyDecodes | mqtt311/server/MqttDataPack.go:746-826 | a PUBLISH body reads back as its topic, its payload, the QoS and retain of the header byte and, when present, its identifier |
| Pack311.PublishRoundTrip | mqtt311/server/MqttDataPack.go:180-211 | decoding what `packPUBLISH` wrote recovers topic, payload and, above QoS 0, the message id, when the header byte agrees with the QoS |
| Pack311.PackPublishIsFrame | mqtt311/server/MqttDataPack.go:180-211 | `packPUBLISH` writes header byte, remaining length, topic, identifier only above QoS 0, then payload |
| Pack311.PackSUBACK | mqtt311/server/MqttDataPack.go:136-154 | only a SUBACK structure is encoded, otherwise the wrong-structure error; `SubackPacked` states the layout and `PackedFramesRead` reads the frame back whole |
| Pack311.PackIdentifier | mqtt311/server/MqttDataPack.go:216-234 | `packUNSUBACK`, `packPUBACK`, `packPUBREC`, `packPUBREL` and `packPUBCOMP` (lines 159-175, 216-234, 828-844, 921-939, 860-876): only the structure of the named type is encoded, otherwise the wrong-structure error; `IdentifierPacked` states the layout and `PackedFramesRead` reads the frame back whole |
| Pack311.PackPUBLISH | mqtt311/server/MqttDataPack.go:180-211 | only a PUBLISH structure is encoded, otherwise the wrong-structure error; its layout is stated by `PackPublishIsFrame` and its decoding by `PublishRoundTrip` |
| Connect311.UnPackCONNECT | mqtt311/server/MqttDataPack.go:335-341 | a fixed header that cannot be read gives code 1 with an error; otherwise the result of reading the rest of the packet |
| Connect311.NewConnect | mqtt311/server/MqttDataPack.go:343-358 | definition: the structure starts with clean session set and no will; `HeaderRead` states what the decoder then stores in it |
| Connect311.ConnectBody | mqtt311/server/MqttDataPack.go:359-392 | no structure means an error, and an error is code 1 or 2 without a structure; code 2 without a structure happens only with fewer than 13 bytes; a structure returned has the CONNECT header, "MQTT", level 4 and a non-empty client id, code 1 exactly when the reserved bit is set, clean session from bit 1, will fields iff bit 2 with retain from bit 5 and QoS from bits 4..3, and non-empty credentials where flagged; the refusal cases are `ConnectBodyCases`, the byte positions `ConnectBodyBytes` |
| Connect311.ConnectBodyCases | mqtt311/server/MqttDataPack.go:359-392 | with a variable header that fits, a name other than "MQTT", a header byte other than CONNECT or a level other than 4 gives code 1 with an error; after a correct header, 10 to 12 bytes give code 2 with an error |
| Connect311.ConnectBodyBytes | mqtt311/server/MqttDataPack.go:359-392 | a structure returned has its name length [0, 4] at bytes 0..2, "MQTT" at bytes 2..6, level 4 at byte 6, the flags of byte 7, the keep-alive BE16 of bytes 8..10, and the client id behind the BE16 length of bytes 10..12 |
| Connect311.Accept | mqtt311/server/MqttDataPack.go:489 | a payload's outcome is returned unchanged, with no error |
| Connect311.HeaderRead | mqtt311/server/MqttDataPack.go:344-371 | clean session set, no will, the flags and keep-alive as read |
| Connect311.ConnectPayload | mqtt311/server/MqttDataPack.go:381-394 | the client-id length is the BE16 of the first two payload bytes and the id is the bytes behind it; a zero length or one reaching past the payload panics; the code is one of 0, 1, 2 and 4 |
| Connect311.ConnectFlagged | mqtt311/server/MqttDataPack.go:396-489 | the reserved bit gives code 1; clean session is false iff bit 1 is clear; the will and the credentials are read as their flags direct |
| Connect311.ConnectWill | mqtt311/server/MqttDataPack.go:414-453 | fewer than 6 bytes find no will; a will is never found by looping; the connection fields are kept; a will found has the will flag, a non-empty topic and message, retain from bit 5, QoS from bits 4..3, and the rest starts at the `uint16` cursor `WillSkip`; no will found leaves the will flag clear; the refusal cases are `ConnectWillCases`, the byte positions `ConnectWillBytes` |
| Connect311.ConnectWillCases | mqtt311/server/MqttDataPack.go:414-453 | a will-topic length of 65534 or more panics; a zero topic length, a topic reaching past the bytes, or a zero message length finds no will |
| Connect311.ConnectWillBytes | mqtt311/server/MqttDataPack.go:414-453 | a will found has its topic behind the first BE16 length and its message behind the BE16 length that follows the topic |
| Connect311.WillSkip | mqtt311/server/MqttDataPack.go:451 | the cursor after a will is `2 + ClientIDLength + 2 + WillMessageLength + 1`, in `uint16` |
| Connect311.ConnectCredentials | mqtt311/server/MqttDataPack.go:455-471 | the code is 0 or 4 and only the credential fields change; accepted with bit 7, the user name is the non-empty bytes behind the BE16 length at the start; accepted, every flagged credential is non-empty; the cases are `ConnectCredentialsCases` |
| Connect311.ConnectCredentialsCases | mqtt311/server/MqttDataPack.go:455-471 | without bit 7 the password is read from the same bytes; with bit 7, under three bytes, a zero user-name length or one reaching past the bytes gives code 4, a length of 65534 or more panics, and otherwise the user name is the bytes behind the BE16 length and the password is read from the bytes after it |
| Connect311.ConnectPassword | mqtt311/server/MqttDataPack.go:472-489 | without bit 6 the code is 0 and nothing changes; with bit 6, under three bytes, a zero password length or one reaching past the bytes gives code 4 and a length of 65534 or more panics; otherwise the password is the bytes behind the BE16 length and the code is 0 |
| Connect311.ConnectHeader | mqtt311/server/MqttDataPack.go:359-381 | a variable header naming "MQTT" at level 4 is read and decoding goes on to the payload after it |
| Connect311.ConnectIdOnly | mqtt311/server/MqttDataPack.go:383-489 | a payload holding only a nonempty client id stores it, reads neither will nor credentials, and answers 1 if the reserved bit is set and 0 otherwise |
| Connect311.ConnectAccepted | mqtt311/server/MqttDataPack.go:335-490 | the CONNECT a client sends with only an id is accepted with code 0 (1 if the reserved bit is set), keeping the id, keep-alive and clean-session bit |
| Connect311.WillCursorPanics | mqtt311/server/MqttDataPack.go:451 | a will at the end of the payload, with a client id at least as long as the will topic, makes the cursor slice panic |
| Connect311.EmptyClientIdPanics | mqtt311/server/MqttDataPack.go:388-392 | a zero client-id length reaches `err.Error()` on a nil error and panics instead of answering code 2 |
| Proto5.FixedPack | mqtt5/proto/Fixed.go:29-33 | the plain fixed header packs to no bytes and no error |
| Proto5.FixedUnPack | mqtt5/proto/Fixed.go:35-39 | the plain fixed header unpacks with no error |
| Proto5.FixedGetAckCode | mqtt5/proto/Fixed.go:41-45 | the plain fixed header's code is `Success` |
| Proto5.PacketTypesDistinct | mqtt5/proto/MQTT.go:5-30 | the fifteen packet-type bytes are pairwise distinct; the first fourteen are exactly the 3.1.1 packet types in the same order (mqtt311/proto/MQTT.go), and AUTH, the fifteenth, is not among them |
| Proto5.ConnackCodes | mqtt5/proto/MQTT.go:37-58 | `Success` is 0 and every CONNACK refusal is distinct and at least 0x80 |
| Proto5.ConnectValidationCodes | mqtt5/proto/MQTT.go:37-50 | the codes CONNECT validation gives are pairwise distinct |
| Proto5.PropertyIdsDistinct | mqtt5/proto/MQTT.go:94-120 | the 27 property identifiers are pairwise distinct, as in section 2.2.2.2 of MQTT 5.0 |
| Router311.AckPacket | mqtt311/demo/router/mqttRouter.go:155-193 | an acknowledgement of the given type with `MsgLen` 2, its own structure, and the echoed identifier |
| Router311.CheckConn | mqtt311/demo/router/mqttRouter.go:10-17 | definition: the demo hook accepts every CONNECT; `CheckConnRegisters` proves such a CONNECT is routed, answered with code 0 and registered |
| Router311.HandleCONNECT | mqtt311/demo/router/mqttRouter.go:24-28 | definition: only logs; `FixedHandlers` states it takes no action |
| Router311.HandleDISCONNECT | mqtt311/demo/router/mqttRouter.go:36-39 | definition: stops the connection; `FixedHandlers` states it sends nothing and stops |
| Router311.HandlePINGREQ | mqtt311/demo/router/mqttRouter.go:47-59 | definition: replies PINGRESP; `FixedHandlers` states the reply is `[0xD0, 0]` and reads back as one frame |
| Router311.HandlePUBACK | mqtt311/demo/router/mqttRouter.go:211-215 | definition: only logs; `FixedHandlers` states it takes no action |
| Router311.HandlePUBCOMP | mqtt311/demo/router/mqttRouter.go:284-288 | definition: only logs; `FixedHandlers` states it takes no action |
| Router311.CheckConnRegisters | mqtt311/demo/router/mqttRouter.go:10-17 | with the demo's hook, a well-formed CONNECT without will, credentials or reserved bit is routed, answered with code 0 and registered |
| Router311.FixedHandlers | mqtt311/demo/router/mqttRouter.go:24-59 | CONNECT, PUBACK and PUBCOMP only log; DISCONNECT only stops the connection; PINGREQ only replies `[0xD0, 0]`, which reads back as one whole PINGRESP frame |
| Router311.SubackFor | mqtt311/demo/router/mqttRouter.go:66-91 | the SUBACK answers the SUBSCRIBE's identifier and is well-typed |
| Router311.HandleSUBSCRIBE | mqtt311/demo/router/mqttRouter.go:66-91 | one subscription per filter, in order, then the SUBACK as the only reply |
| Router311.SubackFrames | mqtt311/demo/router/mqttRouter.go:66-91 | the SUBACK is type 0x90 with `MsgLen` 2 + n, the identifier and n zero return codes, one whole frame |
| Router311.UnsubackFor | mqtt311/demo/router/mqttRouter.go:98-119 | the UNSUBACK answers the UNSUBSCRIBE's identifier and is well-typed |
| Router311.HandleUNSUBSCRIBE | mqtt311/demo/router/mqttRouter.go:98-119 | one unsubscription per filter, in order, then the UNSUBACK as the only reply |
| Router311.UnsubackBytes | mqtt311/demo/router/mqttRouter.go:98-119 | the UNSUBACK is the four bytes `[0xB0, 2, msb, lsb]` |
| Router311.HandlePUBLISH | mqtt311/demo/router/mqttRouter.go:126-201 | the packet goes to the pool first; it is stored iff retained; QoS 1 is answered PUBACK, QoS 2 PUBREC with the identifier recorded; the connection is stopped iff a QoS 2 identifier is already in flight; QoS 0 gets no reply |
| Router311.PoolActions | mqtt311/demo/router/mqttRouter.go:126-150 | the pool hand-off comes first, the retained store follows iff the packet is retained, and nothing is stopped |
| Router311.AfterPool | mqtt311/demo/router/mqttRouter.go:150-201 | after the pool, an optional stop and at most one reply, which is then the only packet sent |
| Router311.HandlePUBREL | mqtt311/demo/router/mqttRouter.go:226-245 | the identifier leaves the in-flight set and PUBCOMP with it is the only reply |
| Router311.HandlePUBREC | mqtt311/demo/router/mqttRouter.go:257-274 | PUBREL with the identifier is the only reply |
| Router311.AckRoundTrip | mqtt311/demo/router/mqttRouter.go:155-274 | every acknowledgement sent is `[flag, 2, msb, lsb]`, one frame, decoded by `getProtoByFixed` back into the same kind, identifier and `MsgId` |
| Router311.AckFrameRead | mqtt311/server/MqttDataPack.go:241-326 | the four bytes of an acknowledgement are read back as one frame with `MsgLen` 2 and the identifier as its data |
| Router311.Qos2Handshake | mqtt311/demo/router/mqttRouter.go:175-245 | a QoS 2 PUBLISH with a fresh identifier records it and is answered PUBREC; the PUBREL then restores the earlier set and is answered PUBCOMP |
| Router311.Qos2DuplicateGoesOn | mqtt311/demo/router/mqttRouter.go:175-194 | a reused QoS 2 identifier stops the connection but the handler goes on: the set keeps it and the PUBREC is still sent after the stop |
| Server311.ServerPublish | mqtt311/server/TopicManager.go:213-226 | the PUBLISH built for a retained message or a will is well-typed, flag 0x30, QoS 0 and not retained |
| Server311.PublishBytesDecode | mqtt311/server/TopicManager.go:211-228 | the bytes a subscriber is sent read back as exactly one frame, which decodes to the same topic and payload at QoS 0 without retain |
| Server311.PublishBytes | mqtt311/server/TopicManager.go:211-228 | definition: the bytes `packPUBLISH` writes for a server-built PUBLISH; `PublishBytesDecode` states they are one frame decoding to the topic and payload |
| Server311.ConnManager.constructor | mqtt311/server/ConnManager.go:17-22 | a registry starts empty |
| Server311.ConnManager.AddConn | mqtt311/server/ConnManager.go:29-38 | the connection is stored under its client id, replacing any earlier entry; the result is always true |
| Server311.ConnManager.GetLen | mqtt311/server/ConnManager.go:43-52 | the number of registered connections |
| Server311.ConnManager.GetConn | mqtt311/server/ConnManager.go:57-69 | a result iff the id is registered, and then the stored connection |
| Server311.ConnManager.GetConnList | mqtt311/server/ConnManager.go:74-87 | every registered id exactly once, so its length is `getLen` |
| Server311.ConnManager.RemoveConn | mqtt311/server/ConnManager.go:94-102 | only that id leaves the registry; an absent id changes nothing |
| Server311.ConnManager.ClearConn | mqtt311/server/ConnManager.go:109-124 | every registered connection is stopped exactly once, in the walk order, and the registry ends empty |
| Server311.SubscribeProperties | mqtt311/server/TopicManager.go:79-93 | the client joins that topic's set alone, no topic is left empty, and subscribing twice is the same as once |
| Server311.UnsubscribeProperties | mqtt311/server/TopicManager.go:98-112 | the client leaves that topic's set, other topics are untouched, a topic with nobody left is deleted, and an unknown topic changes nothing |
| Server311.SubscribeThenUnsubscribe | mqtt311/server/TopicManager.go:79-112 | unsubscribing a client that only this subscription added restores the map |
| Server311.RetainProperties | mqtt311/server/TopicManager.go:166-239 | a stored payload is what a lookup finds and other topics keep theirs; a nonempty one is sent to a registered subscriber as one QoS 0 PUBLISH, an empty one stays stored under the key and nothing is sent |
| Server311.TopicManager.constructor | mqtt311/server/TopicManager.go:48-66 | all four maps start empty |
| Server311.TopicManager.SubTopic | mqtt311/server/TopicManager.go:79-93 | the subscription map gains the client under the topic, the other maps stay, and then the retained message of that exact topic is sent; the send panics, with nothing sent, exactly when it goes to a closed connection |
| Server311.TopicManager.UnSubTopic | mqtt311/server/TopicManager.go:98-112 | the subscription map loses the client under the topic and nothing else changes |
| Server311.TopicManager.GetTopSubList | mqtt311/server/TopicManager.go:117-136 | n empty strings followed by each of the topic's n subscribers exactly once |
| Server311.TopicManager.GetTopList | mqtt311/server/TopicManager.go:141-160 | every subscribed topic exactly once |
| Server311.TopicManager.SetRetainMsg | mqtt311/server/TopicManager.go:166-181 | the topic is mapped to the payload, even an empty one, and no other map changes |
| Server311.TopicManager.GetRetainMsg | mqtt311/server/TopicManager.go:186-198 | found iff the topic has a retained payload, and then that payload; an empty payload otherwise |
| Server311.TopicManager.SendRetainMsg | mqtt311/server/TopicManager.go:203-239 | the retained payload of exactly that topic, if nonempty, goes once to the client's registered connection; otherwise nothing is sent; a send to a closed connection panics and sends nothing |
| Server311.TopicManager.SetQos2ID | mqtt311/server/TopicManager.go:245-250 | the id joins the in-flight set and no other map changes |
| Server311.TopicManager.GetQos2ID | mqtt311/server/TopicManager.go:255-261 | true iff the id is in flight |
| Server311.TopicManager.RemoveQos2ID | mqtt311/server/TopicManager.go:266-272 | the id leaves the in-flight set, other ids stay, and no other map changes |
| Server311.TopicManager.SetClientWill | mqtt311/server/TopicManager.go:277-282 | one will per client, the last one set; no other map changes |
| Server311.TopicManager.GetClientWill | mqtt311/server/TopicManager.go:287-300 | a will iff the client has one, and then the stored will |
| Server311.TopicManager.RemoveClientWill | mqtt311/server/TopicManager.go:305-311 | the client's will is deleted and no other map changes |
| Server311.TopicManager.SendClientWill | mqtt311/server/TopicManager.go:317-359 | nothing without a will; otherwise the will as one QoS 0 PUBLISH to registered subscribers of exactly the will topic, each at most once; it panics iff one of them has a closed connection, and otherwise reaches all of them |
| Server311.SendEach | mqtt311/server/TopicManager.go:349-357 | the loop sends the bytes at most once to each id of the set that has a registered connection, and to no other; it panics iff one of those connections is closed, and otherwise sends to every one |
| Server311.ConnectSetsUp | mqtt311/server/Conn.go:192-232 | a well-formed CONNECT without will or credentials is answered with the code the reserved bit or the verify hook gives; only code 0 reaches the router and registers; a failed CONNACK write registers nothing |
| Server311.Conn.constructor | mqtt311/server/Conn.go:42-60 | a new connection has no client id, is open and has no attributes |
| Server311.Conn.Stop | mqtt311/server/Conn.go:103-106 | one stop event and nothing else |
| Server311.Conn.SendByte | mqtt311/server/Conn.go:255-257 | one send event with exactly those bytes on an open connection; on a closed one (its write channel closed by `finalStop`) a panic and no send |
| Server311.Conn.SetClientID | mqtt311/server/Conn.go:183-245 | an assigned client id makes it fail with no effect; a decode error sends no CONNACK and registers nothing; the verify hook runs only on code 0; the CONNACK carries the final code; only code 0 after a successful write sets the client id, registers the connection and stores the will iff `WillFlag` |
| Server311.Conn.Answer | mqtt311/server/Conn.go:194-243 | the outcome, the events (route when the final code is 0, then the CONNACK) and the registration from the decoded CONNECT, the verify hook and the write |
| Server311.Conn.Register | mqtt311/server/Conn.go:229-241 | the client id is taken, the connection is registered and the will, copied from the CONNECT, is stored iff `WillFlag` |
| Server311.Conn.FinalStop | mqtt311/server/Conn.go:262-289 | a second call does nothing; the first closes the write channel, the live channel and the socket in that order, then sends the will to its subscribers, and the will and registry entry are removed; a will subscriber with a closed connection, this one included when it subscribes to its own will topic, makes the send panic and leaves the will and the registry entry in place |
| Server311.Conn.ReleaseWill | mqtt311/server/Conn.go:278-285 | the will goes once to each registered subscriber of its topic and is then removed together with the registry entry; a subscriber with a closed connection makes the send panic and both stay |
| Server311.FinalStopSelfWillPanics | mqtt311/server/Conn.go:256-285 | a registered client with a will, subscribed to its own will topic, panics on teardown and stays registered |
| Server311.Conn.SetKeyValue | mqtt311/server/Conn.go:295-300 | the key maps to the value; other fields stay |
| Server311.Conn.GetKeyValue | mqtt311/server/Conn.go:305-315 | a value iff the key is set, and then its value |
| Server311.Conn.RemoveKeyValue | mqtt311/server/Conn.go:320-327 | the key is deleted; other fields stay |
| Server311.KeyValueProperties | mqtt311/server/Conn.go:295-327 | a value set is the value got back, a removed key is absent, and other keys are unchanged |
| Connect5.NewConnect | mqtt5/proto/CONNECT.go:80-87 | a fresh structure keeps its fixed header, starts at `Success` with an empty user-property map, no clean start and no will |
| Connect5.PropertyAt | mqtt5/proto/CONNECT.go:239-305 | a pass of the property loop that continues always moves the cursor forward |
| Connect5.PropertyAdvance | mqtt5/proto/CONNECT.go:239-309 | a pass that moves the cursor continues the loop from the new cursor and the stored values |
| Connect5.PropertyLoop | mqtt5/proto/CONNECT.go:239-309 | definition of the property loop from a cursor; `PropertyAdvance`, `ReadProperties` and `PropertyBlockRoundTrip` state what it reads |
| Connect5.ReadProperty | mqtt5/proto/CONNECT.go:241-305 | the `switch` over one identifier agrees with one pass of the loop |
| Connect5.ReadProperties | mqtt5/proto/CONNECT.go:234-309 | the cursor loop over the property block agrees with the loop definition, including its panics and its endless spin |
| Connect5.WillAt | mqtt5/proto/CONNECT.go:369-433 | a pass of the will property loop that continues always moves the cursor forward |
| Connect5.WillAdvance | mqtt5/proto/CONNECT.go:369-433 | a pass that moves the will cursor continues the loop from there |
| Connect5.WillLoop | mqtt5/proto/CONNECT.go:369-433 | definition of the will property loop; `WillAdvance` and `ReadWillProperties` state what it reads |
| Connect5.ReadWillProperty | mqtt5/proto/CONNECT.go:371-432 | the `switch` over one will identifier agrees with one pass of the will loop |
| Connect5.ReadWillProperties | mqtt5/proto/CONNECT.go:362-435 | the will property loop agrees with its definition |
| Connect5.UnPack | mqtt5/proto/CONNECT.go:169-514 | `MsgLen` < 14 or a header other than CONNECT is `Malformed_Packet`; a name length other than 4, a name other than "MQTT" or a level other than 5 is `Protocol_Error`; every result keeps the fixed header and has one of the validation codes; a `Success` result has a non-empty client id, reserved bit clear, clean start iff bit 1, will fields iff bit 2, will retain from bit 5, will QoS from bits 4..3, and non-empty credentials where flagged |
| Connect5.Payload | mqtt5/proto/CONNECT.go:318-513 | fewer than 3 payload bytes, or an empty or missing client id, is `ClientInotv`; bit 0 set is `Malformed_Packet`; every result has one of the validation codes and keeps the fixed header; a `Success` result is accepted for its header and keeps the flags, properties and keep-alive; where the client id sits is `PayloadBytes` |
| Connect5.PayloadBytes | mqtt5/proto/CONNECT.go:318-331 | a `Success` result's client-id length is the BE16 of the first two payload bytes and its id the bytes behind it |
| Connect5.Will | mqtt5/proto/CONNECT.go:352-471 | fewer than 7 bytes is `Malformed_Packet`; the result changes only the will fields and the code; on `Success` the will flag is set, topic and message are non-empty, retain follows bit 5 and QoS bits 4..3 |
| Connect5.WillTopic | mqtt5/proto/CONNECT.go:437-470 | the code is `Success` or `Topic_Name_invalid` and only will fields change; on `Success` the will flag is set, topic and message are non-empty with their lengths, retain follows bit 5 and QoS bits 4..3; the refusals are `WillTopicCases`, the byte positions `WillTopicBytes` |
| Connect5.WillTopicCases | mqtt5/proto/CONNECT.go:437-470 | fewer than 2 bytes or a topic length of 65534 or more panics; a zero topic length (stored as length 0 and an empty topic), a topic reaching past the bytes, or a zero message length is `Topic_Name_invalid` |
| Connect5.WillTopicBytes | mqtt5/proto/CONNECT.go:437-470 | on `Success` the topic and message lengths are the BE16 values at the start and right after the topic, and both strings are the bytes behind them |
| Connect5.Credentials | mqtt5/proto/CONNECT.go:475-494 | a flagged user name with under 3 bytes left is `BadUNorP`; the code is `Success` or `BadUNorP` and only credential fields and the code change; on `Success` every flagged credential is non-empty with its length and every unflagged one is kept; the cases are `CredentialsCases`, the byte positions `CredentialsBytes` |
| Connect5.CredentialsCases | mqtt5/proto/CONNECT.go:475-494 | without bit 7 the password is read at once; with bit 7 and at least 3 bytes, a length of 65534 or more panics, a zero length or one reaching past the bytes is `BadUNorP` with the length stored and an empty name, and a name that fits is stored and the password is read from the bytes after it |
| Connect5.CredentialsBytes | mqtt5/proto/CONNECT.go:475-494 | on `Success` with bit 7 the user-name length is the BE16 of the first two bytes and the name the bytes behind it |
| Connect5.Password | mqtt5/proto/CONNECT.go:496-513 | without bit 6 nothing changes; with bit 6, under 3 bytes is `BadUNorP`, a length of 65534 or more panics, a zero length or one reaching past the bytes is `BadUNorP`; on `Success` the password length is the BE16 of the first two bytes and the password the bytes behind it |
| Connect5.PropertyStep | mqtt5/proto/CONNECT.go:241-288 | each understood property, read where its encoding starts, is stored and the cursor moves exactly past it (5 bytes for 0x11 and 0x27, 3 for 0x21 and 0x22, 1+2+k+2+v for 0x26) |
| Connect5.PropertyBlockRoundTrip | mqtt5/proto/CONNECT.go:234-309 | a block of understood properties decodes to those properties stored in order, whatever follows it |
| Connect5.UnknownPropertyStalls | mqtt5/proto/CONNECT.go:290-305 | an identifier other than 0x11, 0x21, 0x22, 0x26 and 0x27, including 0x15, 0x16, 0x17 and 0x19, makes the loop spin forever |
| Connect5.WillPayloadFormatReadsIdentifier | mqtt5/proto/CONNECT.go:372-376 | the payload format indicator first in a will block is read from `daByp2`, so 0x01 is stored whatever value was sent |
| Connect5.WillWithoutPropertiesRefused | mqtt5/proto/CONNECT.go:352-440 | a will whose property length is 0, followed by a prefixed topic shorter than 256 bytes and a prefixed non-empty message, is refused with `Topic_Name_invalid`: the cursor stays on the property-length byte, so the topic length is read as 0 |
| Connect5.WillPayloadFormatSkips | mqtt5/proto/CONNECT.go:372-376 | `tinx += tinx+1+1` moves the cursor to 2t+2, so a property after a payload format indicator can be jumped over |
| Connect5.NewClient | mqtt5/proto/CONNECT.go:88-136 | a client CONNECT with header 0x10, empty data, `Success` and the three strings given, and a `uint16` remaining length |
| Connect5.Pack | mqtt5/proto/CONNECT.go:138-167 | the header byte first, and exactly the header, two remaining-length fields, twelve fixed bytes and the name and three strings |
| Connect5.Body | mqtt5/proto/CONNECT.go:145-165 | the bytes after the remaining length: fixed variable header, property length, then the three length-prefixed strings |
| Connect5.ClientMsgLen | mqtt5/proto/CONNECT.go:131-136 | the client's `MsgLen` is the byte count after the fixed header exactly when that count is below 2^16 |
| Connect5.ClientFramed | mqtt5/proto/CONNECT.go:138-167 | a client's bytes read back as one CONNECT frame whose data is the body |
| Connect5.ClientDecoded | mqtt5/proto/CONNECT.go:169-514 | the server decodes a client body with non-empty strings to the same three strings and clean start |
| Connect5.ClientRoundTrip | mqtt5/proto/CONNECT.go:88-514 | a client CONNECT with non-empty strings frames as one packet and is accepted with `Success`, the same client id, user name and password, clean start and no will |
| Connect5.ClientCredentials | mqtt5/proto/CONNECT.go:475-513 | a user name and a password both flagged, present and non-empty are stored and the packet stays at `Success` |
| Connect5.ClientEmptyCredentials | mqtt5/proto/CONNECT.go:482-489 | an empty user name behind the user-name flag is refused with `BadUNorP` |
| Packets5.SkipProperties | mqtt5/proto/PUBLISH.go:127-135 | the property-length field is read and exactly that many bytes are dropped; what is left is a suffix of the input; a short input panics |
| Packets5.SkipEncodedProperties | mqtt5/proto/SUBSCRIBE.go:80-88 | an encoded property block is skipped exactly, leaving what follows it |
| Packets5.SkipShortProperties | mqtt5/proto/SUBSCRIBE.go:80-88 | a block shorter than its declared length is a slice out of range |
| Packets5.PackConnack | mqtt5/proto/CONNACK.go:125-137 | header byte, remaining length, then the acknowledge flags and the return code as the last two bytes |
| Packets5.UnPackConnack | mqtt5/proto/CONNACK.go:139-153 | `MsgLen` < 2 is an error with nothing read; otherwise the flags are `Data[0]`, the code `Data[1]`, and the result is an error iff the code is not `Success` |
| Packets5.NewConnack | mqtt5/proto/CONNACK.go:41-70 | definition: remaining length 2, no flags; `ConnackRoundTrip` states its bytes `[0x20, 2, 0, code]` |
| Packets5.NewConnackF | mqtt5/proto/CONNACK.go:71-97 | definition: the header read, fields zero; `ConnackRoundTrip` decodes through it |
| Packets5.ConnackRoundTrip | mqtt5/proto/CONNACK.go:41-153 | `NewCONNACKProtocol(c).Pack()` is `[0x20, 2, 0, c]`, one whole frame, which decodes back to code c and is an error iff c is not `Success` |
| Packets5.PublishQos | mqtt5/proto/PUBLISH.go:89-199 | 0x30 and 0x31 give QoS 0, 0x32 and 0x33 QoS 1, 0x34 QoS 2, and 0x35 to 0x3D QoS 1 |
| Packets5.PublishRetain | mqtt5/proto/PUBLISH.go:89-199 | retain iff the flag is 0x31 or 0x33 |
| Packets5.QosDisagreement | mqtt5/proto/PUBLISH.go:186-199 | the two versions give a PUBLISH flag different QoS exactly for 0x35 to 0x3D: QoS 1 in MQTT 5, QoS 2 in 3.1.1 |
| Packets5.UnPackPublish | mqtt5/proto/PUBLISH.go:76-202 | `MsgLen` < 5 is `Malformed_Packet` and an error; a data slice too short for the topic length panics; what is read is described by the three lemmas below |
| Packets5.PublishReadsTopic | mqtt5/proto/PUBLISH.go:84-118 | a decoded PUBLISH keeps its header and code, has the topic behind its BE16 length and QoS from the flag; retain is set for 0x31 and 0x33 and otherwise left as it was |
| Packets5.PublishReadsNoIdentifier | mqtt5/proto/PUBLISH.go:89-118 | for 0x30 and 0x31 no identifier is read, `MsgId` is unchanged, and the payload is what follows the property block |
| Packets5.PublishReadsIdentifier | mqtt5/proto/PUBLISH.go:119-135 | for the other flags the identifier follows the topic, `MsgId` is its BE16 value, and the payload follows the property block |
| Packets5.PublishRest | mqtt5/proto/PUBLISH.go:93-101 | the property block is skipped and the rest is the payload; only those two fields change |
| Packets5.PublishIdentified | mqtt5/proto/PUBLISH.go:119-135 | the two bytes after the topic are the identifier and its BE16 value; the property block and payload follow |
| Packets5.PackPublish | mqtt5/proto/PUBLISH.go:204-229 | header, remaining length, BE16 topic length, topic, the identifier iff QoS > 0, property length, then the payload as the last bytes |
| Packets5.PublishBodyDecodes | mqtt5/proto/PUBLISH.go:76-202 | a body laid out as topic, identifier for the QoS > 0 flags, property block and payload decodes to that topic, identifier, property length and payload |
| Packets5.PublishBodyPlain | mqtt5/proto/PUBLISH.go:89-118 | under 0x30 and 0x31 such a body decodes to its topic, property length and payload, with the QoS and retain of the header byte |
| Packets5.PublishBodyIdentified | mqtt5/proto/PUBLISH.go:119-201 | under the other header bytes such a body also decodes to the message id of its identifier bytes |
| Packets5.PackPublishIsFrame | mqtt5/proto/PUBLISH.go:204-229 | with the right `MsgLen` and no properties, the packed bytes are one frame of the header byte and the PUBLISH body |
| Packets5.NewPublish | mqtt5/proto/PUBLISH.go:49-70 | definition: fields zero, QoS 0, not retained, `Success`; `PublishRoundTrip` and `PublishReadsTopic` decode through it |
| Packets5.PublishRoundTrip | mqtt5/proto/PUBLISH.go:76-229 | with `PropertiesLength` 0 and a flag that agrees with the QoS, the packed bytes frame as one packet that decodes to the same topic, identifier, QoS, retain and payload |
| Packets5.NewAckF | mqtt5/proto/PUBACK.go:47-57 | the identifier comes from the first two data bytes; fewer than two panic |
| Packets5.UnPackAck | mqtt5/proto/PUBACK.go:81-105 | `MsgLen` < 3 is an error (and `Malformed_Packet` for PUBREL and PUBCOMP); otherwise `MsgId` is the BE16 identifier, the reason code `Data[2]`, and the property length is read only when `MsgLen` > 3 |
| Packets5.PackAck | mqtt5/proto/PUBACK.go:59-79 | header, remaining length, identifier, reason code, then the property length |
| Packets5.NewAck | mqtt5/proto/PUBACK.go:32-46 | definition of `NewPUBACKProtocol`, and of the PUBREC and PUBCOMP constructors: remaining length 4; `AckRoundTrip` states the bytes and their decoding |
| Packets5.AckRoundTrip | mqtt5/proto/PUBACK.go:32-105 | `NewPUBACKProtocol(pid, rc).Pack()`, and likewise for PUBREC and PUBCOMP, is `[flag, 4, msb, lsb, rc, 0]`, one whole frame, and decodes back to the identifier and the reason code |
| Packets5.AckBodyRead | mqtt5/proto/PUBREC.go:46-102 | a four-byte body with a zero property length decodes to its identifier, reason code and no properties |
| Packets5.PubrelRoundTrip | mqtt5/proto/PUBREL.go:32-92 | a PUBREL built from its bytes packs back to `[0x62, 4, msb, lsb, 0, 0]` and decodes to the identifier and `Success` |
| Packets5.ShortAckRefused | mqtt5/proto/PUBREL.go:44-51 | an acknowledgement with `MsgLen` < 3 is an error, and PUBREL and PUBCOMP also set `Malformed_Packet` |
| Packets5.SubscriptionHead | mqtt5/proto/SUBSCRIBE.go:75-88 | the identifier is the first two bytes and the property block after it is skipped exactly |
| Packets5.UnPackSubscribe | mqtt5/proto/SUBSCRIBE.go:68-112 | `MsgLen` < 7 is `Malformed_Packet`; otherwise the identifier and `MsgId` come from the first two bytes, the property block is skipped, and the filters are those the loop takes from the rest, appended in wire order |
| Packets5.UnPackUnsubscribe | mqtt5/proto/UNSUBSCRIBE.go:57-100 | `MsgLen` < 6 is `Malformed_Packet`; otherwise the identifier and `MsgId` come from the first two bytes, the property block is skipped, and the filters follow in wire order |
| Packets5.NewSubscription | mqtt5/proto/SUBSCRIBE.go:44-57 | definition of the SUBSCRIBE and UNSUBSCRIBE constructors; `SubscribeRoundTrip` and `UnsubscribeRoundTrip` decode through it |
| Packets5.SubscribeRoundTrip | mqtt5/proto/SUBSCRIBE.go:68-112 | a SUBSCRIBE body of identifier, property block and encoded filters decodes to that identifier, property length and the same filters, with `Success` |
| Packets5.UnsubscribeRoundTrip | mqtt5/proto/UNSUBSCRIBE.go:57-100 | an UNSUBSCRIBE body of identifier, property block and encoded filters decodes to the same identifier and filters |
| Packets5.PackUnsuback | mqtt5/proto/UNSUBACK.go:42-59 | header, remaining length, the identifier, the property length, then the reason codes as the last bytes |
| Packets5.NewUnsuback | mqtt5/proto/UNSUBACK.go:26-40 | definition: `MsgLen` is `3 + tfl` in `uint32`; `UnsubackLength` and `UnsubackFramed` state the frame |
| Packets5.UnsubackLength | mqtt5/proto/UNSUBACK.go:26-59 | `MsgLen` = 3 + tfl is the byte count after the fixed header iff tfl is the number of reason codes |
| Packets5.UnsubackFramed | mqtt5/proto/UNSUBACK.go:26-59 | with tfl the number of codes, the bytes are one frame: identifier, one 0 byte, then the codes |
| Packets5.UnPackAuth | mqtt5/proto/AUTH.go:53-75 | never an error; `MsgLen` 0 reads nothing; otherwise the reason code is `Data[0]` and the property length is read only when `MsgLen` > 1 |
| Packets5.PackAuth | mqtt5/proto/AUTH.go:77-95 | header, remaining length, the reason code, then the property length |
| Packets5.NewAuth | mqtt5/proto/AUTH.go:35-51 | definition: remaining length 2, reason 0; `AuthRoundTrip` states its bytes |
| Packets5.NewAuthF | mqtt5/proto/AUTH.go:22-34 | definition: the header read, fields zero; `AuthRoundTrip` decodes through it |
| Packets5.AuthRoundTrip | mqtt5/proto/AUTH.go:35-95 | `NewAUTHProtocol().Pack()` is `[0xF0, 2, 0, 0]`, one whole frame, which decodes to reason code 0 |
| Packets5.PackPingresp | mqtt5/proto/PINGRESP.go:24-31 | exactly two bytes, the header byte and 0, whatever `MsgLen` says |
| Packets5.NewPingresp | mqtt5/proto/PINGRESP.go:15-22 | definition: the header alone; `PingrespRoundTrip` states its bytes `[0xD0, 0]` |
| Packets5.PingrespRoundTrip | mqtt5/proto/PINGRESP.go:15-31 | `NewPINGRESPProtocol().Pack()` is `[0xD0, 0]`, one whole frame |
| Disconnect5.NewDisconnect | mqtt5/proto/DISCONNECT.go:28-38 | definition: every field zero or empty; `DisconnectRoundTrip` decodes through it |
| Disconnect5.DisconnectAt | mqtt5/proto/DISCONNECT.go:63-123 | a pass of the property loop that continues always moves the cursor forward |
| Disconnect5.DisconnectAdvance | mqtt5/proto/DISCONNECT.go:63-126 | a pass that moves the cursor continues the loop from there |
| Disconnect5.DisconnectLoop | mqtt5/proto/DISCONNECT.go:63-126 | definition of the property loop; `DisconnectAdvance`, `ReadDisconnectProperties` and `BlockRead` state what it reads |
| Disconnect5.ReadDisconnectProperty | mqtt5/proto/DISCONNECT.go:65-123 | the `switch` over one identifier agrees with one pass of the loop |
| Disconnect5.ReadDisconnectProperties | mqtt5/proto/DISCONNECT.go:60-126 | the cursor loop agrees with the loop definition, including its panic and its endless spin |
| Disconnect5.UnPackDisconnect | mqtt5/proto/DISCONNECT.go:40-131 | never an error; `MsgLen` 0 gives reason 0; `MsgLen` 1 gives reason `Data[0]` and reads no properties; any longer packet takes its reason from `Data[0]` and keeps its fixed header |
| Disconnect5.UnPackWalksBlock | mqtt5/proto/DISCONNECT.go:52-126 | a non-empty property block inside `Data` is walked by the loop, started after the length field |
| Disconnect5.PropertiesKeep | mqtt5/proto/DISCONNECT.go:63-126 | the loop writes only the property fields: header, reason code and property length are kept |
| Disconnect5.PropertyStep | mqtt5/proto/DISCONNECT.go:66-95 | session expiry advances 5 bytes and is stored; server reference and reason string advance 3 plus their length and are stored |
| Disconnect5.BlockRead | mqtt5/proto/DISCONNECT.go:63-126 | an encoded block is read property by property and stored in order |
| Disconnect5.DisconnectRoundTrip | mqtt5/proto/DISCONNECT.go:40-131 | a body of a reason code and a property block decodes to that reason, the block's length and every property in it, a later one overriding an earlier one of its kind |
| Disconnect5.UserPropertyPanics | mqtt5/proto/DISCONNECT.go:96-118 | a user property is written into the nil map, which panics |
| Disconnect5.UnknownPropertyStalls | mqtt5/proto/DISCONNECT.go:120-123 | any identifier other than 0x11, 0x1C, 0x1F and 0x26 makes the loop spin forever |
| Server5.PackConnackCode | mqtt5/server/MqttDataPack.go:25-32 | `packCONNACK(code)` is `[0x20, 2, 0, code]` and reads back as one frame |
| Server5.UnPackConnectProtocol | mqtt5/server/MqttDataPack.go:133-148 | a fixed header that cannot be read gives no structure and `Malformed_Packet`; otherwise the CONNECT decoder's structure and its reason code; `Success` means an accepted CONNECT |
| Server5.ClientConnectAccepted | mqtt5/server/MqttDataPack.go:133-148 | a client's own CONNECT with non-empty strings is answered `Success` with the same client id, user name and password |
| Server5.Lift | mqtt5/server/MqttDataPack.go:241-298 | a decoder's outcome becomes the dispatcher's: the structure and the decoder's error value, panics kept |
| Server5.GetProtoByFixed | mqtt5/server/MqttDataPack.go:230-298 | a second CONNECT and an unknown header byte are refused with no structure; any structure returned has the kind its header byte calls for; PINGREQ is never decoded; DISCONNECT and AUTH never return an error |
| Server5.DispatchKeepsFixed | mqtt5/server/MqttDataPack.go:230-298 | every structure returned keeps the fixed header it was given |
| Server5.PublishRoute | mqtt5/server/MqttDataPack.go:243-247 | every byte 0x30 to 0x3D goes to the PUBLISH decoder and its result is returned |
| Server5.AckRoute | mqtt5/server/MqttDataPack.go:250-266 | PUBACK, PUBREC, PUBREL and PUBCOMP are built from the header and decoded by their own `UnPack` |
| Server5.SubscribeRoute | mqtt5/server/MqttDataPack.go:268-271 | SUBSCRIBE goes to its decoder |
| Server5.UnsubscribeRoute | mqtt5/server/MqttDataPack.go:272-275 | UNSUBSCRIBE goes to its decoder |
| Server5.DisconnectRoute | mqtt5/server/MqttDataPack.go:281-286 | DISCONNECT goes to its decoder |
| Server5.AuthRoute | mqtt5/server/MqttDataPack.go:287-292 | AUTH goes to its decoder |
| Server5.PublishDispatched | mqtt5/server/MqttDataPack.go:39-298 | a PUBLISH the server packs, read and dispatched, has the same topic and payload, the QoS and retain of its header byte and, above QoS 0, the same identifier |
| Server5.AckDispatched | mqtt5/server/MqttDataPack.go:39-298 | a PUBACK, PUBREC or PUBCOMP the server packs, read and dispatched, has the same identifier and reason code and no error |
| Server5.SubscribeDispatched | mqtt5/server/MqttDataPack.go:39-298 | a framed SUBSCRIBE is dispatched holding its identifier and filters in order |
| Server5.UnsubscribeDispatched | mqtt5/server/MqttDataPack.go:39-298 | a framed UNSUBSCRIBE is dispatched holding its identifier and filter names in order |
| Server5.DisconnectDispatched | mqtt5/server/MqttDataPack.go:39-298 | a framed DISCONNECT is dispatched holding its reason and every property, without error |
| Server5.AuthDispatched | mqtt5/server/MqttDataPack.go:39-298 | the default AUTH packet, read and dispatched, has reason 0 and no properties |
| TopicWork5.Count | mqtt5/server/TopicWork.go:188 | `strings.Count(topic, "/")`: at most the topic's length; `CountAppend` and `SplitCount` relate it to concatenation and to `Split` |
| TopicWork5.Split | mqtt5/server/TopicWork.go:187 | `strings.Split(topic, "/")`: never empty; `SplitSlashFree`, `SplitJoin` and `JoinSplit` state its meaning |
| TopicWork5.FirstSlash | mqtt5/server/TopicWork.go:187 | the position of the first '/' of a topic that has one |
| TopicWork5.SplitSlashFree | mqtt5/server/TopicWork.go:187 | `strings.Split` on '/' gives levels without '/', and a single level exactly when the topic has no '/' |
| TopicWork5.SplitCount | mqtt5/server/TopicWork.go:187-188 | there is one more level than `strings.Count(topic, "/")` |
| TopicWork5.SplitJoin | mqtt5/server/TopicWork.go:187 | joining the levels with '/' gives back the topic |
| TopicWork5.JoinSplit | mqtt5/server/TopicWork.go:187 | splitting levels joined with '/' gives back those levels, when none contains '/' |
| TopicWork5.MatchTopic | mqtt5/server/TopicWork.go:183-194 | "/" and "#" have no candidates; a topic without '/' other than "#" is excluded, since `dfs` would recurse without bound on it |
| TopicWork5.Dfs | mqtt5/server/TopicWork.go:195-212 | definition of one `dfs` call; `GroupCount`, `GroupHasLiteral` and `GroupShape` state what the calls emit |
| TopicWork5.Group | mqtt5/server/TopicWork.go:190-192 | definition of the three `dfs` calls of a loop (also lines 209-211); `GroupCount` states it emits 2^(n+1)-1 candidates and `GroupShape` that each is the topic with levels replaced by `+` or a `#` tail |
| TopicWork5.GroupCount | mqtt5/server/TopicWork.go:195-212 | the three calls of `dfs` at one level together emit 2^(n+1) - 1 candidates for the n levels left |
| TopicWork5.MatchTopicCount | mqtt5/server/TopicWork.go:187-193 | a topic with s slashes has exactly 2^(s+1) - 1 candidates, the capacity reserved at line 189 |
| TopicWork5.GroupHasLiteral | mqtt5/server/TopicWork.go:199-207 | taking the literal level at every step is one of the emitted candidates |
| TopicWork5.ExactTopicMatched | mqtt5/server/TopicWork.go:183-212 | the topic itself is among its candidates |
| TopicWork5.GroupShape | mqtt5/server/TopicWork.go:195-212 | every emitted candidate is the prefix followed by levels each '+' or the literal level, possibly ending in '#' |
| TopicWork5.PatternMatches | mqtt5/server/TopicWork.go:195-212 | such a level sequence matches the topic's remaining levels by the wildcard rules: '+' one level, a final '#' the rest |
| TopicWork5.GroupComplete | mqtt5/server/TopicWork.go:195-212 | conversely, every prefix followed by levels each '+' or the literal level, possibly ended early by '#', is emitted |
| TopicWork5.PatternHead | mqtt5/server/TopicWork.go:199-207 | such a level list other than a lone '#' starts with '+' or the literal level and continues with such a list from the next level |
| TopicWork5.MatchTopicComplete | mqtt5/server/TopicWork.go:183-212 | every filter of the topic's first level followed by '+' or literal levels, possibly ended early by '#', is a candidate |
| TopicWork5.WildcardCandidates | mqtt5/server/TopicWork.go:183-212 | `a/+/c` and `a/b/#` are both candidates of `a/b/c` |
| TopicWork5.NoSlashNotEnumerable | mqtt5/server/TopicWork.go:183-212 | a topic other than '#' without '/' has a single level, is excluded from `MatchTopic`, and no group can start on it |
| TopicWork5.CandidateMatches | mqtt5/server/TopicWork.go:183-212 | every candidate keeps the topic's first level, has no more levels than the topic, has each later level '+' or literal with '#' only last, and matches the topic |
| TopicWork5.SendToSubscribers | mqtt5/server/TopicWork.go:154-173 | the inner loop sends to each registered connection of the subscribers not yet sent to, once each, and records it in `conMap` |
| TopicWork5.MatchSend | mqtt5/server/TopicWork.go:143-176 | no connection is sent to twice; a connection is sent to iff it belongs to a subscriber of some candidate; no candidates means no sends |
| TopicWork5.Republish | mqtt5/server/TopicWork.go:117-131 | the re-encoded PUBLISH has flag 0x30, no properties, QoS 0, the same topic and payload, and `MsgLen` the `uint32` sum 3 + `TopicNameLength` + payload length |
| TopicWork5.SendPub | mqtt5/server/TopicWork.go:113-141 | the bytes sent are the packed re-encoding, and they go once to each connection `matchSend` reaches |
| TopicWork5.RepublishDecodes | mqtt5/server/TopicWork.go:113-141 | the bytes subscribers receive read back as one frame with header 0x30 that decodes to the original topic and payload at QoS 0 without retain |
| RouterManager5.DefaultTable | mqtt5/server/RouterManager.go:56-88 | definition of the table `newRouterManager` fills; `DefaultTableFlags` states which header bytes it maps |
| RouterManager5.DefaultTableFlags | mqtt5/server/RouterManager.go:56-88 | the default table has routers for exactly 0x10, 0xE0, 0xC0, 0x82, 0xA2, 0x30 to 0x34, 0x40, 0x62, 0x50 and 0x70; AUTH and 0x35 to 0x3D, which the decoder accepts, have none |
| RouterManager5.Fnv1a | mqtt5/server/RouterManager.go:189-194 | definition of FNV-1a over the bytes; `Fnv1aVectors` checks it against published values and `DHash` proves the loop computes it |
| RouterManager5.Fnv1aVectors | mqtt5/server/RouterManager.go:189-194 | the hash agrees with 32-bit FNV-1a on "" and "a" |
| RouterManager5.DHash | mqtt5/server/RouterManager.go:189-194 | the byte-by-byte loop computes FNV-1a of the client id |
| RouterManager5.ShardIndex | mqtt5/server/RouterManager.go:176-186 | the worker index is below the pool size, which must be positive |
| RouterManager5.RouterManager.constructor | mqtt5/server/RouterManager.go:36-92 | the default table, a verifier that gives 0 for every CONNECT, one empty queue per worker and the pool off |
| RouterManager5.RouterManager.SetConnectVerify | mqtt5/server/RouterManager.go:97-99 | the new verifier replaces the old and nothing else changes |
| RouterManager5.RouterManager.AddRouter | mqtt5/server/RouterManager.go:106-111 | only entry i changes, to the new router |
| RouterManager5.RouterManager.DoRouterFunc | mqtt5/server/RouterManager.go:119-134 | an unmapped header byte runs nothing; a mapped one runs its router's PreHandle, Handle and PostHandle once each, in that order |
| RouterManager5.RouterManager.WorkPoolIsOn | mqtt5/server/RouterManager.go:139-141 | whether the pool was started |
| RouterManager5.RouterManager.StartWorkerPool | mqtt5/server/RouterManager.go:146-158 | every worker's queue is replaced by a fresh empty one, the pool is marked on, and the table, connect verifier and pool size stay as they were |
| RouterManager5.RouterManager.SendReqToTaskQueue | mqtt5/server/RouterManager.go:176-186 | once the pool is on, the request joins the end of the queue `dHash(clientId) % workPoolSize` picks; no other queue changes |

## Left out

- Goroutines, channels, `sync.RWMutex`, `context` cancellation and the worker loops (`startWorker`, the goroutines of `startWorkerPool`, `Conn.read`, `Conn.write`, the liveness `select` of `Conn.start`): their point is concurrency. The registries are sequential state and the teardown guard is the `isClose` flag.
- TCP I/O (`io.ReadFull`, `net.TCPConn`, `Server.start`, `stop`, `run`): parsing is over the byte sequence that arrives, and writes are events on an abstract trace.
- Channel capacity and blocking: a task queue or write channel is the sequence of what was put on it.
- Whether a CONNACK write succeeds is a parameter of `Server311.Conn.SetClientID`, and the connect hook is a function parameter.
- `TopicWork.sendReqToTaskQueue` (`mqtt5/server/TopicWork.go:97-108`): it picks a random worker with `rand` and `time`.
- The subscription map and the connection registry that `matchSend` reads through `s.ofTopic` are parameters of `TopicWork5.MatchSend`, and a connection is a reference number; the bytes one send would write are the `data` of `TopicWork5.SendPub`.
- The bodies of the MQTT 5.0 routers: only the order in which `doRouterFunc` calls PreHandle, Handle and PostHandle is modelled.
- The `hash/fnv` package: `dHash` is modelled directly as 32-bit FNV-1a.
- `mqtt311/server/Request.go` and `mqtt311/server/RouterManager.go` are not part of this model: `getCONNECT` is taken to be `unPackCONNECTProtocol` on the connection's stream, and `sendCONNACK` to be `packCONNACK` followed by a write.
- `mqtt5/proto/PINGREQ.go`, `mqtt5/proto/impl.go`, `mqtt5/server/Request.go`, `mqtt5/server/Index.go`, `mqtt311/server/BaseRouter.go`, the demo clients and HTTP demos, configuration and logging are not part of this model.
- All logging calls.
- Go `interface{}` values of `Conn.keyValue` are byte strings.
- Go map iteration order is an arbitrary choice; contracts that depend on it state sets and the absence of repeats instead of an order.
- Connect5.ClientRoundTrip: the MQTT 5.0 CONNECT round trip is proved for the packets `NewCONNECTProtocolClient` builds (user name, password, clean start, no will, no properties), not for every flag combination; the will and the property block are covered by their own lemmas.
- Disconnect5.DisconnectRoundTrip: proved for blocks of session expiry, server reference and reason string; a user property panics instead.
- Packets5.PublishRoundTrip: proved for `PropertiesLength` 0, as the server writes PUBLISH; decoding with a property block is covered by `Packets5.PublishBodyDecodes`.
