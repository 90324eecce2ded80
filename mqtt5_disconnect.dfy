/**
 * `DISCONNECTProtocol.UnPack` of `mqtt5/proto/DISCONNECT.go`: the reason code
 * and the property block. The property loop walks a `uint32` cursor `tinx`
 * through `temp := by[idx : idx+PropertiesLength]`, whose capacity reaches to
 * the end of `Data`, so its slices may read past the block while its
 * identifier reads may not.
 */
module Disconnect5 {
  import opened Bytes
  import opened RemainingLength
  import opened FixedHeader
  import opened LengthPrefixed
  import opened Proto5

  /** `NewDISCONNECTProtocol`: every field zero or empty (the user-property map is nil). */
  function NewDisconnect(f: Fixed): (p: Disconnect)
  {
    Disconnect(f, 0, 0, 0, [], [])
  }

  /** One pass of the loop at cursor `t`, for a block of `pl` bytes at the start
   *  of `buf`. Session expiry advances 5 bytes; server reference and reason
   *  string 3 plus the string's length. A user property is stored into the
   *  structure's nil map, which panics whatever was read before. Any other
   *  identifier leaves `t` where it was: the `break` only leaves the `switch`,
   *  so the loop never ends. */
  function DisconnectAt(buf: seq<byte>, pl: nat, t: nat, acc: Disconnect): (s: Step<Disconnect>)
    requires pl <= |buf| && t < pl
    ensures s.Next? ==> s.t > t
  {
    var id := buf[t];
    if id == SessionEI then
      if t + 5 > |buf| then Stop(Panics)
      else Next(t + 5, acc.(sessionExpiryInterval := BE32(buf[t + 1..t + 5])))
    else if id == ServerRef || id == ReasonString then
      if t + 3 > |buf| then Stop(Panics)
      else
        var n := BE16(buf[t + 1], buf[t + 2]);
        if t + 3 + n > |buf| then Stop(Panics)
        else
          var str := buf[t + 3..t + 3 + n];
          Next(t + 3 + n, if id == ServerRef then acc.(serverReference := str) else acc.(reasonString := str))
    else if id == UserProperty then Stop(Panics)
    else Stop(Diverges)
  }

  /** The loop from cursor `t`, which runs while `t` is below `pl`. */
  function DisconnectLoop(buf: seq<byte>, pl: nat, t: nat, acc: Disconnect): (r: Run<Disconnect>)
    requires pl <= |buf|
    decreases if t <= pl then pl - t else 0
  {
    if t >= pl then Returns(acc)
    else
      match DisconnectAt(buf, pl, t, acc)
      case Next(t2, next) => DisconnectLoop(buf, pl, t2, next)
      case Stop(r) => r
  }

  /** A pass that moves the cursor continues the loop from where it moved to. */
  lemma DisconnectAdvance(buf: seq<byte>, pl: nat, t: nat, acc: Disconnect)
    requires pl <= |buf| && t < pl && DisconnectAt(buf, pl, t, acc).Next?
    ensures DisconnectLoop(buf, pl, t, acc)
            == DisconnectLoop(buf, pl, DisconnectAt(buf, pl, t, acc).t, DisconnectAt(buf, pl, t, acc).acc)
  {
  }

  /** The body of the source's loop at cursor `tinx`. */
  method ReadDisconnectProperty(buf: seq<byte>, pl: nat, tinx: nat, acc: Disconnect) returns (s: Step<Disconnect>)
    requires pl <= |buf| && tinx < pl
    ensures s == DisconnectAt(buf, pl, tinx, acc)
  {
    var id := buf[tinx];
    if id == SessionEI {
      if tinx + 5 > |buf| {
        return Stop(Panics);
      }
      s := Next(tinx + 5, acc.(sessionExpiryInterval := BE32(buf[tinx + 1..tinx + 5])));
    } else if id == ServerRef || id == ReasonString {
      if tinx + 3 > |buf| {
        return Stop(Panics);
      }
      var ctLen := BE16(buf[tinx + 1], buf[tinx + 2]);
      var t := tinx + 3;
      if t + ctLen > |buf| {
        return Stop(Panics);
      }
      if id == ServerRef {
        s := Next(t + ctLen, acc.(serverReference := buf[t..t + ctLen]));
      } else {
        s := Next(t + ctLen, acc.(reasonString := buf[t..t + ctLen]));
      }
    } else if id == UserProperty {
      s := Stop(Panics);
    } else {
      s := Stop(Diverges);
    }
  }

  /** The loop as the source writes it. Where the source would spin on an
   *  identifier it does not advance over, the method stops and reports `Diverges`. */
  method ReadDisconnectProperties(buf: seq<byte>, pl: nat, init: Disconnect) returns (r: Run<Disconnect>)
    requires pl <= |buf|
    ensures r == DisconnectLoop(buf, pl, 0, init)
  {
    var tinx := 0;
    var acc := init;
    while tinx < pl
      invariant DisconnectLoop(buf, pl, 0, init) == DisconnectLoop(buf, pl, tinx, acc)
      decreases pl - tinx
    {
      var s := ReadDisconnectProperty(buf, pl, tinx, acc);
      if s.Stop? {
        return s.r;
      }
      DisconnectAdvance(buf, pl, tinx, acc);
      tinx, acc := s.t, s.acc;
    }
    r := Returns(acc);
  }

  /** `UnPack`: it never returns an error. With nothing announced the reason is
   *  0; with one byte it is that byte; otherwise the property length follows
   *  the reason and a non-empty block is walked by the loop. */
  function UnPackDisconnect(p: Disconnect): (r: Run<(Disconnect, bool)>)
    ensures r.Returns? ==> !r.value.1 && r.value.0.fixed == p.fixed
    ensures p.fixed.msgLen < 1 ==> r == Returns((p.(reasonCode := 0), false))
    ensures p.fixed.msgLen >= 1 && |p.fixed.data| < 1 ==> r.Panics?
    ensures p.fixed.msgLen == 1 && |p.fixed.data| >= 1 ==> r == Returns((p.(reasonCode := p.fixed.data[0]), false))
    ensures p.fixed.msgLen >= 1 && r.Returns? ==> r.value.0.reasonCode == p.fixed.data[0]
  {
    var d := p.fixed.data;
    if p.fixed.msgLen < 1 then Returns((p.(reasonCode := 0), false))
    else if |d| < 1 then Panics
    else
      var q := p.(reasonCode := d[0]);
      if p.fixed.msgLen < 2 then Returns((q, false))
      else
        var bs := d[1..];
        var field := By2Len32AndIndex(bs);
        if !field.Returns? then Panics
        else
          var (pl, idx) := field.value;
          var q2 := q.(propertiesLength := pl);
          if pl == 0 then Returns((q2, false))
          else if idx + pl > |bs| then Panics
          else
            PropertiesKeep(bs[idx..], pl, 0, q2);
            Unerring(DisconnectLoop(bs[idx..], pl, 0, q2))
  }

  /** A loop outcome as the outcome of `UnPack`, which returns no error. */
  function Unerring(r: Run<Disconnect>): (u: Run<(Disconnect, bool)>)
    ensures u.Returns? <==> r.Returns?
    ensures u.Returns? ==> u.value == (r.value, false)
    ensures u.Panics? <==> r.Panics?
  {
    match r
    case Returns(v) => Returns((v, false))
    case Panics => Panics
    case Diverges => Diverges
  }

  /** A DISCONNECT with a non-empty property block that lies within `Data` is
   *  decoded by the property loop, started after the length field. */
  lemma UnPackWalksBlock(p: Disconnect, pl: nat, idx: nat)
    requires p.fixed.msgLen >= 2 && |p.fixed.data| >= 1
    requires By2Len32AndIndex(p.fixed.data[1..]) == Returns((pl, idx))
    requires 0 < pl && idx + pl <= |p.fixed.data| - 1
    ensures UnPackDisconnect(p)
            == Unerring(DisconnectLoop(p.fixed.data[1..][idx..], pl, 0,
                                       p.(reasonCode := p.fixed.data[0], propertiesLength := pl)))
  {
  }

  /** The loop writes only the three property fields. */
  lemma {:induction false} PropertiesKeep(buf: seq<byte>, pl: nat, t: nat, acc: Disconnect)
    requires pl <= |buf|
    ensures DisconnectLoop(buf, pl, t, acc).Returns? ==>
      DisconnectLoop(buf, pl, t, acc).value.fixed == acc.fixed
      && DisconnectLoop(buf, pl, t, acc).value.reasonCode == acc.reasonCode
      && DisconnectLoop(buf, pl, t, acc).value.propertiesLength == acc.propertiesLength
    decreases if t <= pl then pl - t else 0
  {
    if t < pl {
      var s := DisconnectAt(buf, pl, t, acc);
      if s.Next? {
        PropertiesKeep(buf, pl, s.t, s.acc);
      }
    }
  }

  // ---------------------------------------------------------------- encoded blocks

  /** The properties the loop reads. */
  datatype DisconnectProperty =
    | Expiry(interval: nat)
    | Reason(text: seq<byte>)
    | Reference(text: seq<byte>)

  predicate Encodable(p: DisconnectProperty)
  {
    match p
    case Expiry(v) => v < 0x1_0000_0000
    case Reason(s) => |s| < 0x1_0000
    case Reference(s) => |s| < 0x1_0000
  }

  datatype PropertyList = Nil | Cons(head: DisconnectProperty, tail: PropertyList)

  predicate AllEncodable(ps: PropertyList)
  {
    ps.Nil? || (Encodable(ps.head) && AllEncodable(ps.tail))
  }

  /** A property on the wire: identifier, then a four-byte integer or a
   *  length-prefixed string. */
  function EncodeProperty(p: DisconnectProperty): (r: seq<byte>)
    requires Encodable(p)
    ensures |r| >= 3
  {
    match p
    case Expiry(v) => [SessionEI] + Int32ToByBig(v)
    case Reason(s) => [ReasonString] + Prefixed(s)
    case Reference(s) => [ServerRef] + Prefixed(s)
  }

  function EncodeProperties(ps: PropertyList): (r: seq<byte>)
    requires AllEncodable(ps)
  {
    if ps.Nil? then [] else EncodeProperty(ps.head) + EncodeProperties(ps.tail)
  }

  /** Storing one property. */
  function Apply(acc: Disconnect, p: DisconnectProperty): (r: Disconnect)
  {
    match p
    case Expiry(v) => acc.(sessionExpiryInterval := v)
    case Reason(s) => acc.(reasonString := s)
    case Reference(s) => acc.(serverReference := s)
  }

  /** Storing properties in order: a later property overwrites an earlier one of its kind. */
  function ApplyAll(acc: Disconnect, ps: PropertyList): (r: Disconnect)
    decreases ps
  {
    if ps.Nil? then acc else ApplyAll(Apply(acc, ps.head), ps.tail)
  }

  /** One encoded property at `t` is read in one pass. */
  lemma PropertyStep(buf: seq<byte>, pl: nat, t: nat, p: DisconnectProperty, acc: Disconnect)
    requires Encodable(p) && Past(t, p) <= pl <= |buf|
    requires buf[t..Past(t, p)] == EncodeProperty(p)
    ensures DisconnectAt(buf, pl, t, acc) == Next(Past(t, p), Apply(acc, p))
  {
    match p
    case Expiry(v) => ExpiryStep(buf, pl, t, v, acc);
    case Reason(str) => StringStep(buf, pl, t, ReasonString, str, acc);
    case Reference(str) => StringStep(buf, pl, t, ServerRef, str, acc);
  }

  lemma ExpiryStep(buf: seq<byte>, pl: nat, t: nat, v: nat, acc: Disconnect)
    requires v < 0x1_0000_0000 && t + 5 <= pl <= |buf|
    requires buf[t..t + 5] == [SessionEI] + Int32ToByBig(v)
    ensures DisconnectAt(buf, pl, t, acc) == Next(t + 5, acc.(sessionExpiryInterval := v))
  {
    assert buf[t] == buf[t..t + 5][0];
    assert buf[t + 1..t + 5] == buf[t..t + 5][1..];
  }

  lemma StringStep(buf: seq<byte>, pl: nat, t: nat, id: byte, str: seq<byte>, acc: Disconnect)
    requires id == ServerRef || id == ReasonString
    requires |str| < 0x1_0000 && t + 3 + |str| <= pl <= |buf|
    requires buf[t..t + 3 + |str|] == [id] + Prefixed(str)
    ensures DisconnectAt(buf, pl, t, acc)
            == Next(t + 3 + |str|, if id == ServerRef then acc.(serverReference := str) else acc.(reasonString := str))
  {
    var e := buf[t..t + 3 + |str|];
    var r := Prefixed(str);
    assert e == [id] + r;
    assert buf[t] == e[0] == id;
    assert buf[t + 1] == e[1] == r[0] && buf[t + 2] == e[2] == r[1];
    assert BE16(buf[t + 1], buf[t + 2]) == |str|;
    assert buf[t + 3..t + 3 + |str|] == e[3..] == r[2..] == str;
  }

  /** The first property of an encoded block sits at its start and the rest after it. */
  lemma BlockSplit(buf: seq<byte>, t: nat, pl: nat, ps: PropertyList)
    requires ps.Cons? && AllEncodable(ps) && pl <= |buf|
    requires t + |EncodeProperties(ps)| == pl && buf[t..pl] == EncodeProperties(ps)
    ensures buf[t..Past(t, ps.head)] == EncodeProperty(ps.head)
    ensures AllEncodable(ps.tail) && Past(t, ps.head) + |EncodeProperties(ps.tail)| == pl
    ensures buf[Past(t, ps.head)..pl] == EncodeProperties(ps.tail)
  {
    SplitSlice(buf, t, pl, EncodeProperty(ps.head), EncodeProperties(ps.tail));
  }

  /** The cursor just past the encoding of `p` laid out from `t`. */
  function Past(t: nat, p: DisconnectProperty): nat
    requires Encodable(p)
  {
    t + |EncodeProperty(p)|
  }

  /** Where the block of `ps` laid out from `t` ends. */
  function BlockEnd(t: nat, ps: PropertyList): (r: nat)
    requires AllEncodable(ps)
    ensures r >= t
    decreases ps
  {
    if ps.Nil? then t
    else
        BlockEnd(Past(t, ps.head), ps.tail)
  }

  /** The encodings of `ps` sit in `buf` one after the other from `t`. */
  predicate BlockAt(buf: seq<byte>, t: nat, ps: PropertyList)
    requires AllEncodable(ps)
    decreases ps
  {
    ps.Nil? ||
    (Past(t, ps.head) <= |buf| &&
     buf[t..Past(t, ps.head)] == EncodeProperty(ps.head) &&
     BlockAt(buf, Past(t, ps.head), ps.tail))
  }

  /** An encoded block in `buf` is its properties laid out one after the other. */
  lemma {:induction false} BlockLaidOut(buf: seq<byte>, t: nat, pl: nat, ps: PropertyList)
    requires AllEncodable(ps) && pl <= |buf|
    requires t + |EncodeProperties(ps)| == pl && buf[t..pl] == EncodeProperties(ps)
    ensures BlockAt(buf, t, ps) && BlockEnd(t, ps) == pl
    decreases ps
  {
    if ps.Cons? {
      BlockSplit(buf, t, pl, ps);
      BlockLaidOut(buf, Past(t, ps.head), pl, ps.tail);
    }
  }

  /** From `t`, each property of `ps` in turn is one pass of the loop. */
  predicate Chained(buf: seq<byte>, pl: nat, t: nat, ps: PropertyList, acc: Disconnect)
    requires pl <= |buf| && AllEncodable(ps)
    decreases ps
  {
    ps.Nil? ||
    (t < pl &&
     DisconnectAt(buf, pl, t, acc) == Next(Past(t, ps.head), Apply(acc, ps.head)) &&
     Chained(buf, pl, Past(t, ps.head), ps.tail, Apply(acc, ps.head)))
  }

  /** Laid-out properties within the block are read one per pass. */
  lemma {:induction false} StepsOverBlock(buf: seq<byte>, pl: nat, t: nat, ps: PropertyList, acc: Disconnect)
    requires AllEncodable(ps) && BlockAt(buf, t, ps)
    requires BlockEnd(t, ps) <= pl <= |buf|
    ensures Chained(buf, pl, t, ps, acc)
    decreases ps
  {
    if ps.Cons? {
      BlockTail(buf, t, ps);
      StepsOverBlock(buf, pl, Past(t, ps.head), ps.tail, Apply(acc, ps.head));
      HeadStep(buf, pl, t, ps, acc);
    }
  }

  /** Past its first property, a laid-out block is the rest laid out. */
  lemma BlockTail(buf: seq<byte>, t: nat, ps: PropertyList)
    requires ps.Cons? && AllEncodable(ps) && BlockAt(buf, t, ps)
    ensures Encodable(ps.head) && Past(t, ps.head) <= |buf|
    ensures buf[t..Past(t, ps.head)] == EncodeProperty(ps.head)
    ensures AllEncodable(ps.tail) && BlockAt(buf, Past(t, ps.head), ps.tail)
    ensures BlockEnd(t, ps) == BlockEnd(Past(t, ps.head), ps.tail)
  {
  }

  /** The first property of a laid-out block is read in one pass. */
  lemma HeadStep(buf: seq<byte>, pl: nat, t: nat, ps: PropertyList, acc: Disconnect)
    requires ps.Cons? && AllEncodable(ps) && BlockAt(buf, t, ps)
    requires BlockEnd(t, ps) <= pl <= |buf|
    ensures t < pl && DisconnectAt(buf, pl, t, acc) == Next(Past(t, ps.head), Apply(acc, ps.head))
  {
    BlockTail(buf, t, ps);
    PropertyStep(buf, pl, t, ps.head, acc);
  }

  /** What is left of a chain past its first pass. */
  lemma ChainTail(buf: seq<byte>, pl: nat, t: nat, ps: PropertyList, acc: Disconnect)
    requires ps.Cons? && pl <= |buf| && AllEncodable(ps) && Chained(buf, pl, t, ps, acc)
    requires pl == BlockEnd(t, ps)
    ensures AllEncodable(ps.tail) && Chained(buf, pl, Past(t, ps.head), ps.tail, Apply(acc, ps.head))
    ensures pl == BlockEnd(Past(t, ps.head), ps.tail)
    ensures ApplyAll(acc, ps) == ApplyAll(Apply(acc, ps.head), ps.tail)
  {
  }

  /** The first pass of a chain reads its first property. */
  lemma ChainFirst(buf: seq<byte>, pl: nat, t: nat, ps: PropertyList, acc: Disconnect)
    requires ps.Cons? && pl <= |buf| && AllEncodable(ps) && Chained(buf, pl, t, ps, acc)
    ensures t < pl && DisconnectAt(buf, pl, t, acc) == Next(Past(t, ps.head), Apply(acc, ps.head))
  {
  }

  lemma DisconnectAdvanceTo(buf: seq<byte>, pl: nat, t: nat, acc: Disconnect, t2: nat, acc2: Disconnect)
    requires pl <= |buf| && t < pl && DisconnectAt(buf, pl, t, acc) == Next(t2, acc2)
    ensures DisconnectLoop(buf, pl, t, acc) == DisconnectLoop(buf, pl, t2, acc2)
  {
    DisconnectAdvance(buf, pl, t, acc);
  }

  /** Passes that each read one property end, at the block's end, with all of them stored. */
  lemma {:induction false} LoopOverChain(buf: seq<byte>, pl: nat, t: nat, ps: PropertyList, acc: Disconnect)
    requires pl <= |buf| && AllEncodable(ps) && Chained(buf, pl, t, ps, acc)
    requires pl == BlockEnd(t, ps)
    ensures DisconnectLoop(buf, pl, t, acc) == Returns(ApplyAll(acc, ps))
    decreases ps
  {
    if ps.Cons? {
      var t2, acc2 := Past(t, ps.head), Apply(acc, ps.head);
      ChainTail(buf, pl, t, ps, acc);
      LoopOverChain(buf, pl, t2, ps.tail, acc2);
      ChainFirst(buf, pl, t, ps, acc);
      DisconnectAdvanceTo(buf, pl, t, acc, t2, acc2);
    }
  }

  /** The loop reads an encoded block property by property and stores them in order. */
  lemma BlockRead(buf: seq<byte>, pl: nat, t: nat, ps: PropertyList, acc: Disconnect)
    requires AllEncodable(ps) && pl <= |buf|
    requires t + |EncodeProperties(ps)| == pl && buf[t..pl] == EncodeProperties(ps)
    ensures DisconnectLoop(buf, pl, t, acc) == Returns(ApplyAll(acc, ps))
  {
    BlockLaidOut(buf, t, pl, ps);
    StepsOverBlock(buf, pl, t, ps, acc);
    LoopOverChain(buf, pl, t, ps, acc);
  }

  /** The body of a DISCONNECT with a reason code and a property block. */
  function DisconnectBody(reason: byte, ps: PropertyList): seq<byte>
    requires AllEncodable(ps)
  {
    [reason] + Code(|EncodeProperties(ps)|) + EncodeProperties(ps)
  }

  /** In such a body the length field follows the reason code and announces
   *  the block, which follows it to the end. */
  lemma BodyLayout(reason: byte, ps: PropertyList)
    requires AllEncodable(ps) && ps.Cons? && |EncodeProperties(ps)| <= MaxLength
    ensures var body := DisconnectBody(reason, ps);
      var enc := EncodeProperties(ps);
      && |body| >= 2 && body[0] == reason
      && By2Len32AndIndex(body[1..]) == Returns((|enc|, |Code(|enc|)|))
      && 0 < |enc| && |Code(|enc|)| + |enc| <= |body| - 1
      && body[1..][|Code(|enc|)|..] == enc
  {
    var enc := EncodeProperties(ps);
    var body := DisconnectBody(reason, ps);
    assert body[1..] == Code(|enc|) + enc;
    ReadEncoded(|enc|, enc);
    assert |enc| >= 3 by { assert enc == EncodeProperty(ps.head) + EncodeProperties(ps.tail); }
  }

  /** Decoding such a body gives the reason code, the block's length and every
   *  property in it, a later one overriding an earlier one of its kind. */
  lemma DisconnectRoundTrip(reason: byte, ps: PropertyList)
    requires AllEncodable(ps) && ps.Cons? && |EncodeProperties(ps)| <= MaxLength
    ensures var body := DisconnectBody(reason, ps);
      var f := Fixed(DISCONNECT, |body|, body);
      UnPackDisconnect(NewDisconnect(f))
        == Returns((ApplyAll(Disconnect(f, reason, |EncodeProperties(ps)|, 0, [], []), ps), false))
  {
    var enc := EncodeProperties(ps);
    var body := DisconnectBody(reason, ps);
    var f := Fixed(DISCONNECT, |body|, body);
    var init := Disconnect(f, reason, |enc|, 0, [], []);
    BodyLayout(reason, ps);
    UnPackWalksBlock(NewDisconnect(f), |enc|, |Code(|enc|)|);
    assert NewDisconnect(f).(reasonCode := body[0], propertiesLength := |enc|) == init;
    BlockRead(enc, |enc|, 0, ps, init);
    assert UnPackDisconnect(NewDisconnect(f)) == Unerring(DisconnectLoop(enc, |enc|, 0, init));
  }

  /** A block that starts with a user property panics. */
  lemma UserPropertyPanics(buf: seq<byte>, pl: nat, acc: Disconnect)
    requires 0 < pl <= |buf| && buf[0] == UserProperty
    ensures DisconnectLoop(buf, pl, 0, acc) == Panics
  {
  }

  /** An identifier the loop does not handle stalls it for good. */
  lemma UnknownPropertyStalls(buf: seq<byte>, pl: nat, t: nat, acc: Disconnect)
    requires t < pl <= |buf| && !(buf[t] in {SessionEI, ServerRef, ReasonString, UserProperty})
    ensures DisconnectLoop(buf, pl, t, acc) == Diverges
  {
  }
}
