/**
 * The topic-filter lists of SUBSCRIBE and UNSUBSCRIBE. Both servers decode
 * them with the same loop: while enough bytes remain, read a big-endian
 * `uint16` length, the filter name and, for SUBSCRIBE, one more byte (the
 * requested QoS in 3.1.1, the subscription options in 5.0), then re-slice.
 * The cursor arithmetic is `uint16`, so it wraps.
 */
module FilterList {
  import opened Bytes
  import opened LengthPrefixed

  /** `TopicFilter`: the name's length, the name, and the byte after it. */
  datatype TopicFilter = TopicFilter(identifier: nat, filterName: seq<byte>, qos: byte)

  /** Prefix a list to the list a loop goes on to produce. */
  function Prepend<T>(xs: seq<T>, r: Run<seq<T>>): Run<seq<T>>
  {
    if r.Returns? then Returns(xs + r.value) else r
  }

  lemma PrependNil<T>(r: Run<seq<T>>)
    ensures Prepend([], r) == r
  {
    if r.Returns? {
      assert [] + r.value == r.value;
    }
  }

  lemma PrependAssoc<T>(xs: seq<T>, ys: seq<T>, r: Run<seq<T>>)
    ensures Prepend(xs, Prepend(ys, r)) == Prepend(xs + ys, r)
  {
    if r.Returns? {
      assert xs + (ys + r.value) == xs + ys + r.value;
    }
  }

  /** The SUBSCRIBE filter loop of `unPackSUBSCRIBEProtocol` and of
   *  `SUBSCRIBEProtocol.UnPack`: while four bytes remain, a length, the name,
   *  one more byte. A length of 65533 wraps the
   *  next cursor to 0, so the loop makes no progress and never ends. */
  function SubscribeFilters(daBy: seq<byte>): Run<seq<TopicFilter>>
    decreases |daBy|
  {
    if |daBy| < 4 then Returns([])
    else
      var id := BE16(daBy[0], daBy[1]);
      var end := Add16(2, id);
      if end < 2 || end >= |daBy| then Panics
      else if Add16(end, 1) == 0 then Diverges
      else Prepend([TopicFilter(id, daBy[2..end], daBy[end])], SubscribeFilters(daBy[end + 1..]))
  }

  /** The loop itself, proved to follow `SubscribeFilters`. */
  method UnPackSubscribeFilters(data: seq<byte>) returns (r: Run<seq<TopicFilter>>)
    ensures r == SubscribeFilters(data)
  {
    var daBy := data;
    var list: seq<TopicFilter> := [];
    PrependNil(SubscribeFilters(data));
    while |daBy| >= 4
      invariant SubscribeFilters(data) == Prepend(list, SubscribeFilters(daBy))
      decreases |daBy|
    {
      var id := BE16(daBy[0], daBy[1]);
      var end := Add16(2, id);
      if end < 2 || end >= |daBy| {
        return Panics;
      }
      var tf := TopicFilter(id, daBy[2..end], daBy[end]);
      var next := Add16(end, 1);
      if next == 0 {
        return Diverges;
      }
      PrependAssoc(list, [tf], SubscribeFilters(daBy[next..]));
      list := list + [tf];
      daBy := daBy[next..];
    }
    assert list + [] == list;
    r := Returns(list);
  }

  /** The UNSUBSCRIBE filter loop of `unPackUNSUBSCRIBEProtocol` and of
   *  `UNSUBSCRIBEProtocol.UnPack`: while three bytes remain, a length and the name. */
  function UnsubscribeFilters(daBy: seq<byte>): Run<seq<TopicFilter>>
    decreases |daBy|
  {
    if |daBy| < 3 then Returns([])
    else
      var id := BE16(daBy[0], daBy[1]);
      var end := Add16(2, id);
      if end < 2 || end > |daBy| then Panics
      else Prepend([TopicFilter(id, daBy[2..end], 0)], UnsubscribeFilters(daBy[end..]))
  }

  method UnPackUnsubscribeFilters(data: seq<byte>) returns (r: Run<seq<TopicFilter>>)
    ensures r == UnsubscribeFilters(data)
  {
    var daBy := data;
    var list: seq<TopicFilter> := [];
    PrependNil(UnsubscribeFilters(data));
    while |daBy| >= 3
      invariant UnsubscribeFilters(data) == Prepend(list, UnsubscribeFilters(daBy))
      decreases |daBy|
    {
      var id := BE16(daBy[0], daBy[1]);
      var end := Add16(2, id);
      if end < 2 || end > |daBy| {
        return Panics;
      }
      PrependAssoc(list, [TopicFilter(id, daBy[2..end], 0)], UnsubscribeFilters(daBy[end..]));
      list := list + [TopicFilter(id, daBy[2..end], 0)];
      daBy := daBy[end..];
    }
    assert list + [] == list;
    r := Returns(list);
  }

  /** Every UNSUBSCRIBE filter consumes at least two bytes, so that loop always ends. */
  lemma {:induction false} UnsubscribeTerminates(daBy: seq<byte>)
    ensures !UnsubscribeFilters(daBy).Diverges?
    decreases |daBy|
  {
    if |daBy| >= 3 {
      var end := Add16(2, BE16(daBy[0], daBy[1]));
      if 2 <= end <= |daBy| {
        UnsubscribeTerminates(daBy[end..]);
      }
    }
  }

  /** The bytes of SUBSCRIBE filters on the wire: prefixed name, then the QoS byte. */
  function EncodeSubscribeFilters(fs: seq<TopicFilter>): seq<byte>
    requires forall i :: 0 <= i < |fs| ==> |fs[i].filterName| < 0x1_0000
  {
    if fs == [] then [] else Prefixed(fs[0].filterName) + [fs[0].qos] + EncodeSubscribeFilters(fs[1..])
  }

  /** The bytes of UNSUBSCRIBE filters on the wire: prefixed names. */
  function EncodeUnsubscribeFilters(fs: seq<TopicFilter>): seq<byte>
    requires forall i :: 0 <= i < |fs| ==> |fs[i].filterName| < 0x1_0000
  {
    if fs == [] then [] else Prefixed(fs[0].filterName) + EncodeUnsubscribeFilters(fs[1..])
  }

  /** One SUBSCRIBE filter at the front of the bytes is read back whole and the
   *  loop goes on after its requested-QoS byte. */
  lemma SubscribeFilterHead(f: TopicFilter, rest: seq<byte>)
    requires 1 <= |f.filterName| <= 0xFFFC && f.identifier == |f.filterName|
    ensures SubscribeFilters(Prefixed(f.filterName) + [f.qos] + rest) == Prepend([f], SubscribeFilters(rest))
  {
    var bs := Prefixed(f.filterName) + [f.qos] + rest;
    var n := |f.filterName|;
    assert bs[0] == Prefixed(f.filterName)[0] && bs[1] == Prefixed(f.filterName)[1];
    assert Add16(2, n) == 2 + n;
    assert bs[2..2 + n] == f.filterName;
    assert bs[2 + n] == f.qos;
    assert bs[2 + n + 1..] == rest;
  }

  /** SUBSCRIBE filters come out in wire order, each consuming 2 + length + 1
   *  bytes, and a trailing fragment of fewer than four bytes is ignored. */
  lemma {:induction false} SubscribeFiltersRoundTrip(fs: seq<TopicFilter>, tail: seq<byte>)
    requires forall i :: 0 <= i < |fs| ==> 1 <= |fs[i].filterName| <= 0xFFFC && fs[i].identifier == |fs[i].filterName|
    requires |tail| < 4
    ensures SubscribeFilters(EncodeSubscribeFilters(fs) + tail) == Returns(fs)
  {
    if fs == [] {
      assert EncodeSubscribeFilters(fs) + tail == tail;
    } else {
      var f := fs[0];
      var rest := EncodeSubscribeFilters(fs[1..]) + tail;
      assert EncodeSubscribeFilters(fs) + tail == Prefixed(f.filterName) + [f.qos] + rest;
      SubscribeFilterHead(f, rest);
      SubscribeFiltersRoundTrip(fs[1..], tail);
      assert [f] + fs[1..] == fs;
    }
  }

  /** One UNSUBSCRIBE filter at the front of the bytes is read back whole and the
   *  loop goes on right after its name. */
  lemma UnsubscribeFilterHead(f: TopicFilter, rest: seq<byte>)
    requires 1 <= |f.filterName| <= 0xFFFD && f.identifier == |f.filterName| && f.qos == 0
    ensures UnsubscribeFilters(Prefixed(f.filterName) + rest) == Prepend([f], UnsubscribeFilters(rest))
  {
    var bs := Prefixed(f.filterName) + rest;
    var n := |f.filterName|;
    assert bs[0] == Prefixed(f.filterName)[0] && bs[1] == Prefixed(f.filterName)[1];
    assert Add16(2, n) == 2 + n;
    assert bs[2..2 + n] == f.filterName;
    assert bs[2 + n..] == rest;
  }

  /** UNSUBSCRIBE filters come out in wire order, each consuming 2 + length
   *  bytes, and a trailing fragment of fewer than three bytes is ignored. */
  lemma {:induction false} UnsubscribeFiltersRoundTrip(fs: seq<TopicFilter>, tail: seq<byte>)
    requires forall i :: 0 <= i < |fs| ==>
      1 <= |fs[i].filterName| <= 0xFFFD && fs[i].identifier == |fs[i].filterName| && fs[i].qos == 0
    requires |tail| < 3
    ensures UnsubscribeFilters(EncodeUnsubscribeFilters(fs) + tail) == Returns(fs)
  {
    if fs == [] {
      assert EncodeUnsubscribeFilters(fs) + tail == tail;
    } else {
      var f := fs[0];
      var rest := EncodeUnsubscribeFilters(fs[1..]) + tail;
      assert EncodeUnsubscribeFilters(fs) + tail == Prefixed(f.filterName) + rest;
      UnsubscribeFilterHead(f, rest);
      UnsubscribeFiltersRoundTrip(fs[1..], tail);
      assert [f] + fs[1..] == fs;
    }
  }

  /** A SUBSCRIBE filter of length 65533 leaves the cursor where it was, so the
   *  loop repeats forever once 65536 bytes remain. */
  lemma SubscribeLoopStalls(daBy: seq<byte>)
    requires |daBy| >= 0x1_0000 && BE16(daBy[0], daBy[1]) == 0xFFFD
    ensures SubscribeFilters(daBy) == Diverges
  {
  }
}
