/**
 * The MQTT 3.1.1 vocabulary of the `mqtt311/proto` package: packet-type
 * bytes, CONNACK return codes, QoS levels and the packet structures. Every
 * structure embeds the fixed header; its `Data` is kept only by the decoders
 * that need it, so the embedded part is `Header` here.
 */
module Proto311 {
  import opened Bytes
  import opened FilterList

  const CONNECT: byte := 0x10
  const CONNACK: byte := 0x20
  const PUBLISH: byte := 0x30
  const PUBLISH31: byte := 0x31
  const PUBLISH32: byte := 0x32
  const PUBLISH33: byte := 0x33
  const PUBLISH34: byte := 0x34
  const PUBLISHMAX: byte := 0x3D
  const PUBACK: byte := 0x40
  const PUBREC: byte := 0x50
  const PUBREL: byte := 0x62
  const PUBCOMP: byte := 0x70
  const SUBSCRIBE: byte := 0x82
  const SUBACK: byte := 0x90
  const UNSUBSCRIBE: byte := 0xA2
  const UNSUBACK: byte := 0xB0
  const PINGREQ: byte := 0xC0
  const PINGRESP: byte := 0xD0
  const DISCONNECT: byte := 0xE0

  /** CONNACK return codes, in the order of section 3.2.2.3 of MQTT 3.1.1. */
  const ConnectionAccepted: byte := 0
  const RefusedProtocolVersion: byte := 1
  const RefusedIdentifierRejected: byte := 2
  const RefusedServerUnavailable: byte := 3
  const RefusedBadUserNameOrPassword: byte := 4
  const RefusedNotAuthorized: byte := 5

  const QoS0: byte := 0
  const QoS1: byte := 1
  const QoS2: byte := 2
  const Failure: byte := 0x80

  /** Every control packet type the package names. */
  const PacketTypes: seq<byte> := [CONNECT, CONNACK, PUBLISH, PUBACK, PUBREC, PUBREL, PUBCOMP,
    SUBSCRIBE, SUBACK, UNSUBSCRIBE, UNSUBACK, PINGREQ, PINGRESP, DISCONNECT]

  /** The embedded `*Fixed` of an outgoing or decoded packet. */
  datatype Header = Header(headerFlag: byte, msgLen: nat)

  /** A `PacketIdentifier [2]byte`: most significant byte first. */
  datatype Pid = Pid(msb: byte, lsb: byte)

  datatype Will = Will(willTopic: seq<byte>, willMessage: seq<byte>, willRetain: bool, willQos: byte)

  datatype Connect = Connect(
    header: Header,
    protoNameLen: nat, protoName: seq<byte>, version: byte, connectFlag: byte, keepAlive: nat,
    clientIDLength: nat, clientID: seq<byte>,
    willTopicLength: nat, willTopic: seq<byte>,
    willMessageLength: nat, willMessage: seq<byte>,
    userNameLength: nat, userName: seq<byte>,
    passwordLength: nat, password: seq<byte>,
    cleanSession: bool, willFlag: bool, willRetain: bool, willQos: byte)

  datatype Packet =
    | Connack(header: Header, connectAcknowledgeFlags: byte, connectReturncode: byte)
    | Publish(header: Header, topicNameLength: nat, topicName: seq<byte>, packetIdentifier: Pid,
              payload: seq<byte>, qos: byte, retain: bool, msgId: nat)
    | Puback(header: Header, packetIdentifier: Pid, msgId: nat)
    | Pubrec(header: Header, packetIdentifier: Pid, msgId: nat)
    | Pubrel(header: Header, packetIdentifier: Pid, msgId: nat)
    | Pubcomp(header: Header, packetIdentifier: Pid, msgId: nat)
    | Subscribe(header: Header, packetIdentifier: Pid, topicFilterList: seq<TopicFilter>, msgId: nat)
    | Suback(header: Header, packetIdentifier: Pid, returnCodeList: seq<byte>, msgId: nat)
    | Unsubscribe(header: Header, packetIdentifier: Pid, topicFilterList: seq<TopicFilter>, msgId: nat)
    | Unsuback(header: Header, packetIdentifier: Pid, msgId: nat)
    | Pingreq(header: Header)
    | Pingresp(header: Header)
    | Disconnect(header: Header)

  /** The type nibble of a packet-type byte and its low flag bits. */
  function TypeNibble(b: byte): (r: nat)
    ensures r < 16 && r * 16 <= b as nat < r * 16 + 16
  {
    b as nat / 16
  }

  function LowFlags(b: byte): (r: nat)
    ensures r < 16 && TypeNibble(b) * 16 + r == b as nat
  {
    b as nat % 16
  }

  /** The packet types are pairwise distinct, their type nibbles run 1 to 14 in
   *  the order of section 2.2.1 of MQTT 3.1.1, and only PUBREL, SUBSCRIBE and
   *  UNSUBSCRIBE carry the reserved low flags 0b0010. */
  lemma PacketTypesWellFormed()
    ensures forall i, j :: 0 <= i < j < |PacketTypes| ==> PacketTypes[i] != PacketTypes[j]
    ensures forall i :: 0 <= i < |PacketTypes| ==> TypeNibble(PacketTypes[i]) == i + 1
    ensures forall i :: 0 <= i < |PacketTypes| ==>
      LowFlags(PacketTypes[i]) == (if PacketTypes[i] in {PUBREL, SUBSCRIBE, UNSUBSCRIBE} then 2 else 0)
  {
  }

  /** The PUBLISH flags keep the PUBLISH type nibble; the low nibble is
   *  retain (bit 0) and QoS (bits 1-2) for 0x30 to 0x34, and 0x3D is the
   *  largest flag the server accepts as PUBLISH. */
  lemma PublishFlagsWellFormed()
    ensures forall b: byte :: PUBLISH <= b <= PUBLISHMAX ==> TypeNibble(b) == TypeNibble(PUBLISH)
    ensures LowFlags(PUBLISH31) % 2 == 1 && LowFlags(PUBLISH33) % 2 == 1
    ensures LowFlags(PUBLISH32) / 2 == 1 && LowFlags(PUBLISH33) / 2 == 1 && LowFlags(PUBLISH34) / 2 == 2
    ensures PUBLISHMAX == 0x3D
  {
  }

  /** The return codes are 0 to 5 in order and the QoS levels 0 to 2; the
   *  subscription failure code is the only one with bit 7 set. */
  lemma CodesWellFormed()
    ensures [ConnectionAccepted, RefusedProtocolVersion, RefusedIdentifierRejected,
             RefusedServerUnavailable, RefusedBadUserNameOrPassword, RefusedNotAuthorized] == [0, 1, 2, 3, 4, 5]
    ensures [QoS0, QoS1, QoS2] == [0, 1, 2] && Failure == 0x80 && Failure >= 0x80 > QoS2
  {
  }
}
