/**
 * The fixed header (`proto.Fixed`) and `unPackFixed`, which both servers use
 * to read one control packet from a connection: the header byte, the
 * remaining-length field and exactly that many further bytes. The connection
 * is modelled as the sequence of bytes that will arrive on it; a read that
 * finds the stream exhausted is the `io.ReadFull` error.
 */
module FixedHeader {
  import opened Bytes
  import opened RemainingLength

  /** `proto.Fixed`: header byte, decoded remaining length, the bytes after the fixed header. */
  datatype Fixed = Fixed(headerFlag: byte, msgLen: nat, data: seq<byte>)

  datatype FixedError = ReadFailed | BadHeaderFlag

  /** The bytes of a packet whose remaining length is `|body|`, as every encoder lays it out. */
  function Frame(flag: byte, body: seq<byte>): seq<byte>
  {
    [flag] + Code(|body|) + body
  }

  /** `unPackFixed`: the fixed header read from `s` and the number of bytes consumed.
   *  The length bytes are read one at a time while bit 7 is set, at most four,
   *  exactly as `by2Len32AndIndex` indexes them; the header byte is checked
   *  only after the length field has been read. */
  function UnPackFixed(s: seq<byte>): (r: Result<(Fixed, nat), FixedError>)
    ensures r.Ok? ==> |s| >= 1 && r.value.0.headerFlag == s[0] && r.value.0.headerFlag != 0
    ensures r.Ok? ==> |r.value.0.data| == r.value.0.msgLen <= MaxLength
    ensures r.Ok? ==> var used := r.value.1; var len := r.value.0.msgLen;
      2 <= used - len <= 5 && used <= |s| && r.value.0.data == s[used - len..used]
    ensures r.Ok? ==> var k := r.value.1 - r.value.0.msgLen - 1;
      (forall i :: 1 <= i < k ==> s[i] > 0x7F) && (k < 4 ==> s[k] <= 0x7F)
    ensures r.Ok? ==> var k := r.value.1 - r.value.0.msgLen - 1;
      r.value.0.msgLen == Sum(s[1..1 + k])
    ensures |s| >= 1 && s[0] == 0 ==> r.Err?
    ensures |s| < 1 || By2Len32AndIndex(s[1..]).Panics? ==> r == Err(ReadFailed)
    ensures |s| >= 1 && s[0] != 0 && By2Len32AndIndex(s[1..]).Returns? ==>
      var (len, k) := By2Len32AndIndex(s[1..]).value;
      (r.Ok? <==> |s| >= 1 + k + len) && (r.Err? ==> r == Err(ReadFailed))
  {
    if |s| < 1 then Err(ReadFailed)
    else
      var field := By2Len32AndIndex(s[1..]);
      if !field.Returns? then Err(ReadFailed)
      else
        var (len, k) := field.value;
        if s[0] < 1 then Err(BadHeaderFlag)
        else if |s| < 1 + k + len then Err(ReadFailed)
        else
          EnCodeBound(Pad4(s[1..][..k]));
          assert s[1..][..k] == s[1..1 + k];
          Ok((Fixed(s[0], len, s[1 + k..1 + k + len]), 1 + k + len))
  }

  /** Reading a well-formed frame recovers the header byte and the body, and
   *  consumes exactly the frame, whatever follows it on the stream. */
  lemma FrameRoundTrip(flag: byte, body: seq<byte>, rest: seq<byte>)
    requires flag != 0 && |body| <= MaxLength
    ensures UnPackFixed(Frame(flag, body) + rest) == Ok((Fixed(flag, |body|, body), |Frame(flag, body)|))
  {
    var s := Frame(flag, body) + rest;
    var c := Code(|body|);
    assert s[1..] == c + (body + rest);
    ReadEncoded(|body|, body + rest);
    CodeShape(|body|);
    assert s[1 + |c|..1 + |c| + |body|] == body;
  }
}
