/**
 * Length-prefixed strings: a big-endian `uint16` length followed by that many
 * bytes. `by2LenNameBE` reads one; both packages carry an identical copy.
 */
module LengthPrefixed {
  import opened Bytes

  /** The three results of `by2LenNameBE`: the length read, the name, and `ok`. */
  datatype Name = Name(blen: nat, name: seq<byte>, ok: bool)

  /** A string with its big-endian length in front, as the encoders write it. */
  function Prefixed(s: seq<byte>): (r: seq<byte>)
    requires |s| < 0x1_0000
    ensures |r| == 2 + |s| && r[2..] == s && BE16(r[0], r[1]) == |s|
  {
    Int16ToByBig(|s|) + s
  }


  /** `by2LenNameBE`. The guard `len(by) < int(2+blen)` is computed in `uint16`,
   *  so a length of 65534 or 65535 wraps past it and the slice that follows
   *  panics; fewer than two bytes panic at `by[:2]`. */
  function By2LenNameBE(bs: seq<byte>): (r: Run<Name>)
    ensures !r.Diverges?
    ensures r.Panics? <==> |bs| < 2 || BE16(bs[0], bs[1]) >= 0xFFFE
    ensures r.Returns? ==> r.value.blen == BE16(bs[0], bs[1])
    ensures r.Returns? ==> (r.value.ok <==> r.value.blen > 0 && |bs| >= 2 + r.value.blen)
    ensures r.Returns? && r.value.ok ==> r.value.name == bs[2..2 + r.value.blen]
    ensures r.Returns? && !r.value.ok ==> r.value.name == []
  {
    if |bs| < 2 then Panics
    else
      var blen := BE16(bs[0], bs[1]);
      var end := Add16(2, blen);
      if blen == 0 then Returns(Name(0, [], false))
      else if |bs| < end then Returns(Name(blen, [], false))
      else if end < 2 then Panics
      else Returns(Name(blen, bs[2..end], true))
  }

  /** Reading a prefixed string back gives the string and its length,
   *  whatever follows it. */
  lemma ReadPrefixed(s: seq<byte>, rest: seq<byte>)
    requires 1 <= |s| < 0xFFFE
    ensures By2LenNameBE(Prefixed(s) + rest) == Returns(Name(|s|, s, true))
  {
    var bs := Prefixed(s) + rest;
    assert bs[0] == Prefixed(s)[0] && bs[1] == Prefixed(s)[1];
    assert bs[2..2 + |s|] == s;
  }

  /** The empty string is written as two zero bytes. */
  lemma PrefixedEmpty()
    ensures Prefixed([]) == [0, 0]
  {
    Int16ZeroBytes();
  }

  /** A zero length reads back as not ok, whatever follows it. */
  lemma ReadZeroLength(rest: seq<byte>)
    ensures By2LenNameBE([0, 0] + rest) == Returns(Name(0, [], false))
  {
  }

  /** An empty string reads back as length 0 and not ok, whatever follows it. */
  lemma ReadPrefixedEmpty(rest: seq<byte>)
    ensures By2LenNameBE(Prefixed([]) + rest) == Returns(Name(0, [], false))
  {
    PrefixedEmpty();
    ReadZeroLength(rest);
  }

  /** Two names read one after the other from `bs` sit at these offsets. */
  lemma TwoNames(bs: seq<byte>)
    ensures var t := By2LenNameBE(bs);
      t.Returns? && t.value.ok ==>
      var tl := t.value.blen;
      var m := By2LenNameBE(bs[2 + tl..]);
      m.Returns? && m.value.ok ==>
      var ml := m.value.blen;
      && 2 + tl + 2 + ml <= |bs|
      && tl == BE16(bs[0], bs[1]) && t.value.name == bs[2..2 + tl]
      && ml == BE16(bs[2 + tl], bs[3 + tl])
      && m.value.name == bs[4 + tl..4 + tl + ml]
  {
    var t := By2LenNameBE(bs);
    if t.Returns? && t.value.ok {
      var tl := t.value.blen;
      var rest := bs[2 + tl..];
      var m := By2LenNameBE(rest);
      if m.Returns? && m.value.ok {
        var ml := m.value.blen;
        assert rest[0] == bs[2 + tl] && rest[1] == bs[3 + tl];
        assert rest[2..2 + ml] == bs[4 + tl..4 + tl + ml];
      }
    }
  }
}
