/**
 * The MQTT 5.0 vocabulary of the `mqtt5/proto` package: packet-type bytes,
 * reason codes, QoS levels and property identifiers, and the packet
 * structures the decoders fill. Every structure embeds the fixed header
 * (`FixedHeader.Fixed`, with its `Data`); property fields that no decoder ever
 * writes are not carried.
 */
module Proto5 {
  import opened Bytes
  import opened FixedHeader
  import opened FilterList
  import Proto311

  const CONNECT: byte := 0x10
  const CONNACK: byte := 0x20
  const PUBLISH: byte := 0x30
  const PUBLISH31: byte := 0x31
  const PUBLISH32: byte := 0x32
  const PUBLISH33: byte := 0x33
  const PUBLISH34: byte := 0x34
  const PUBLISHMAX: byte := 0x3D
  const PUBACK: byte := 0x40
  const PUBREC: byte := 0x50
  const PUBREL: byte := 0x62
  const PUBCOMP: byte := 0x70
  const SUBSCRIBE: byte := 0x82
  const SUBACK: byte := 0x90
  const UNSUBSCRIBE: byte := 0xA2
  const UNSUBACK: byte := 0xB0
  const PINGREQ: byte := 0xC0
  const PINGRESP: byte := 0xD0
  const DISCONNECT: byte := 0xE0
  const AUTH: byte := 0xF0

  /** Every control packet type the package names. */
  const PacketTypes: seq<byte> := [CONNECT, CONNACK, PUBLISH, PUBACK, PUBREC, PUBREL, PUBCOMP,
    SUBSCRIBE, SUBACK, UNSUBSCRIBE, UNSUBACK, PINGREQ, PINGRESP, DISCONNECT, AUTH]

  /** Reason codes a CONNACK may carry (section 3.2.2.2 of MQTT 5.0). */
  const Success: byte := 0
  const Unspecified_error: byte := 0x80
  const Malformed_Packet: byte := 0x81
  const Protocol_Error: byte := 0x82
  const Implementation_s_e: byte := 0x83
  const UnsupportedPV: byte := 0x84
  const ClientInotv: byte := 0x85
  const BadUNorP: byte := 0x86
  const Notauthorized: byte := 0x87
  const Server_unavailable: byte := 0x88
  const Server_busy: byte := 0x89
  const Banned: byte := 0x8A
  const Bad_a_method: byte := 0x8C
  const Topic_Name_invalid: byte := 0x90
  const Packet_too_large: byte := 0x95
  const Quota_exceeded: byte := 0x97
  const Payload_f_i: byte := 0x99
  const Retain_n_s: byte := 0x9A
  const QoS_n_s: byte := 0x9B
  const Use_a_s: byte := 0x9C
  const Server_moved: byte := 0x9D
  const Connection_r_e: byte := 0x9F

  /** Reason codes of the other packets. */
  const Disconnect_w_W_M: byte := 0x04
  const No_m_subscribers: byte := 0x10
  const No_subscription_e: byte := 0x11
  const Continue_a: byte := 0x18
  const Re_authenticate: byte := 0x19
  const Server_s_down: byte := 0x8B
  const Keep_Alive_to: byte := 0x8D
  const Session_to: byte := 0x8E
  const Topic_Filter_i: byte := 0x8F
  const Packet_Iinuse: byte := 0x91
  const Packet_Inotf: byte := 0x92
  const Receive_M_e: byte := 0x93
  const Topic_A_i: byte := 0x94
  const Message_r_t_h: byte := 0x96
  const Administrative_a: byte := 0x98
  const Shared_S_n_s: byte := 0x9E
  const Maximum_c_t: byte := 0xA0
  const Subscription_I_n_s: byte := 0xA1
  const Wildcard_S_n_s: byte := 0xA2

  /** The CONNACK refusals, in the order the package lists them. */
  const ConnackRefusals: seq<byte> := [Unspecified_error, Malformed_Packet, Protocol_Error,
    Implementation_s_e, UnsupportedPV, ClientInotv, BadUNorP, Notauthorized, Server_unavailable,
    Server_busy, Banned, Bad_a_method, Topic_Name_invalid, Packet_too_large, Quota_exceeded,
    Payload_f_i, Retain_n_s, QoS_n_s, Use_a_s, Server_moved, Connection_r_e]

  const QoS0: byte := 0
  const QoS1: byte := 1
  const QoS2: byte := 2

  /** Property identifiers (section 2.2.2.2 of MQTT 5.0). */
  const PayloadFI: byte := 0x01
  const MessageEI: byte := 0x02
  const ContentType: byte := 0x03
  const ResponseTopic: byte := 0x08
  const CorrelationData: byte := 0x09
  const SubscriptionI: byte := 0x0B
  const SessionEI: byte := 0x11
  const AssignedCI: byte := 0x12
  const ServerKA: byte := 0x13
  const AuthenticationM: byte := 0x15
  const AuthenticationD: byte := 0x16
  const RequestPI: byte := 0x17
  const WillDI: byte := 0x18
  const RequestRI: byte := 0x19
  const ResponseI: byte := 0x1A
  const ServerRef: byte := 0x1C
  const ReasonString: byte := 0x1F
  const ReceiveMaximum: byte := 0x21
  const TopicAM: byte := 0x22
  const TopicAlias: byte := 0x23
  const MaximumQoS: byte := 0x24
  const RetainA: byte := 0x25
  const UserProperty: byte := 0x26
  const MaximumPS: byte := 0x27
  const WildcardSA: byte := 0x28
  const SubscriptionIA: byte := 0x29
  const SharedSA: byte := 0x2A

  const PropertyIds: seq<byte> := [PayloadFI, MessageEI, ContentType, ResponseTopic, CorrelationData,
    SubscriptionI, SessionEI, AssignedCI, ServerKA, AuthenticationM, AuthenticationD, RequestPI,
    WillDI, RequestRI, ResponseI, ServerRef, ReasonString, ReceiveMaximum, TopicAM, TopicAlias,
    MaximumQoS, RetainA, UserProperty, MaximumPS, WildcardSA, SubscriptionIA, SharedSA]

  /** No value occurs twice in `s`. */
  predicate Distinct(s: seq<byte>)
  {
    forall i, j :: 0 <= i < j < |s| ==> s[i] != s[j]
  }

  /** Each value of `s` is below the next one. */
  predicate Ascending(s: seq<byte>)
  {
    forall i :: 0 <= i < |s| - 1 ==> s[i] < s[i + 1]
  }

  /** An ascending sequence is ascending between any two positions. */
  lemma {:induction false} AscendingBetween(s: seq<byte>, i: nat, j: nat)
    requires Ascending(s) && i < j < |s|
    ensures s[i] < s[j]
    decreases j - i
  {
    if i + 1 < j {
      AscendingBetween(s, i + 1, j);
    }
  }

  /** An ascending sequence has no repeated value. */
  lemma AscendingDistinct(s: seq<byte>)
    requires Ascending(s)
    ensures Distinct(s)
  {
    forall i, j | 0 <= i < j < |s|
      ensures s[i] != s[j]
    {
      AscendingBetween(s, i, j);
    }
  }

  /** A `PacketIdentifier [2]byte`: most significant byte first. */
  datatype Pid = Pid(msb: byte, lsb: byte)

  /** `CONNACKProtocol`: the acknowledge flags and the reason code. */
  datatype Connack = Connack(fixed: Fixed, connectAcknowledgeFlags: byte, connectReturncode: byte,
                             propertiesLength: nat)

  /** `PUBLISHProtocol`. */
  datatype Publish = Publish(fixed: Fixed, topicNameLength: nat, topicName: seq<byte>,
                             packetIdentifier: Pid, msgId: nat, propertiesLength: nat,
                             payload: seq<byte>, qos: byte, retain: bool, ackCode: byte)

  /** `PUBACKProtocol`, `PUBRECProtocol`, `PUBRELProtocol` and `PUBCOMPProtocol`,
   *  which share one layout. PUBACK and PUBREC have no `AckCode` field and
   *  answer `Success` through the embedded header; the field stays `Success`
   *  for them. */
  datatype Ack = Ack(fixed: Fixed, packetIdentifier: Pid, msgId: nat, reasonCode: byte,
                     propertiesLength: nat, ackCode: byte)

  /** `SUBSCRIBEProtocol` and `UNSUBSCRIBEProtocol`. */
  datatype Subscription = Subscription(fixed: Fixed, packetIdentifier: Pid, msgId: nat,
                                       propertiesLength: nat, topicFilterList: seq<TopicFilter>,
                                       ackCode: byte)

  /** `UNSUBACKProtocol`. */
  datatype Unsuback = Unsuback(fixed: Fixed, packetIdentifier: Pid, propertiesLength: nat,
                               returnCodeList: seq<byte>)

  /** `DISCONNECTProtocol`. */
  datatype Disconnect = Disconnect(fixed: Fixed, reasonCode: byte, propertiesLength: nat,
                                   sessionExpiryInterval: nat, reasonString: seq<byte>,
                                   serverReference: seq<byte>)

  /** `AUTHProtocol`. */
  datatype Auth = Auth(fixed: Fixed, authenticationReasonCode: byte, propertiesLength: nat)

  /** The embedded `Fixed`'s own `Pack`, `UnPack` and `GetAckCode`, which every
   *  packet without its own inherits: no bytes and no error, no error, `Success`. */
  function FixedPack(f: Fixed): (r: (seq<byte>, bool))
    ensures |r.0| == 0 && !r.1
  {
    ([], false)
  }

  function FixedUnPack(f: Fixed): (failed: bool)
    ensures !failed
  {
    false
  }

  function FixedGetAckCode(f: Fixed): (code: byte)
    ensures code == Success
  {
    Success
  }

  /** The packet types are pairwise distinct, and AUTH is the one type 5.0 adds
   *  to the fourteen of the 3.1.1 package. */
  lemma PacketTypesDistinct()
    ensures Distinct(PacketTypes) && |PacketTypes| == 15
    ensures PacketTypes[14] == AUTH && AUTH !in PacketTypes[..14]
    ensures PacketTypes[..14] == Proto311.PacketTypes
  {
    AscendingDistinct(PacketTypes);
  }

  /** `Success` is 0, every CONNACK refusal is at least 0x80, and no refusal is listed twice. */
  lemma ConnackCodes()
    ensures Success == 0
    ensures forall i :: 0 <= i < |ConnackRefusals| ==> ConnackRefusals[i] >= 0x80
    ensures Distinct(ConnackRefusals)
  {
    assert Ascending(ConnackRefusals);
    AscendingDistinct(ConnackRefusals);
    forall i | 0 <= i < |ConnackRefusals|
      ensures ConnackRefusals[i] >= 0x80
    {
      if i > 0 {
        AscendingBetween(ConnackRefusals, 0, i);
      }
    }
  }

  /** The codes CONNECT validation returns are distinct. */
  lemma ConnectValidationCodes()
    ensures Distinct([Success, Malformed_Packet, Protocol_Error, ClientInotv, BadUNorP, Topic_Name_invalid])
  {
    AscendingDistinct([Success, Malformed_Packet, Protocol_Error, ClientInotv, BadUNorP, Topic_Name_invalid]);
  }

  /** The 27 property identifiers are distinct bytes. */
  lemma PropertyIdsDistinct()
    ensures |PropertyIds| == 27 && Distinct(PropertyIds)
  {
    AscendingDistinct(PropertyIds);
  }
}
