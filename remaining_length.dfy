/**
 * The fixed header's remaining-length field, a base-128 number of one to four
 * bytes, least significant group first, with bit 7 set on every byte but the
 * last (section 2.2.3 of MQTT 3.1.1; the Variable Byte Integer of section 1.5.5
 * of MQTT 5.0). The Go code carries three identical copies of `msgLenCode`
 * and `msgLenEnCode`, one per package; they are modelled once here, and the
 * `by2Len32*` readers and `unPackPropertyLength` of the version 5 package too.
 */
module RemainingLength {
  import opened Bytes

  /** The largest value four bytes can carry. */
  const MaxLength: nat := 268435455

  function Pow128(k: nat): (r: nat)
    ensures r >= 1
  {
    if k == 0 then 1 else 128 * Pow128(k - 1)
  }

  /** The base-128 digits of `n`, least significant first, bit 7 on all but the last. */
  function Digits(n: nat): seq<byte>
    decreases n
  {
    if n / 128 > 0 then [(n % 128 + 0x80) as byte] + Digits(n / 128)
    else [(n % 128) as byte]
  }

  /** The number `bs` spells in base 128, bit 7 of every byte ignored. */
  function Sum(bs: seq<byte>): nat
  {
    if bs == [] then 0 else (bs[0] % 0x80) as nat + 128 * Sum(bs[1..])
  }

  /** What `msgLenCode` returns for a `uint32`: nothing above MaxLength. */
  function Code(n: nat): seq<byte>
  {
    if n > MaxLength then [] else Digits(n)
  }

  /** A length below 128 is the single byte it names. */
  lemma CodeSmall(n: nat)
    requires n < 128
    ensures Code(n) == [n as byte]
  {
  }

  /** What `msgLenEnCode` returns: 0 unless it is given one to four bytes. */
  function EnCode(bs: seq<byte>): nat
  {
    if |bs| < 1 || |bs| > 4 then 0 else Sum(bs)
  }

  /** `bs` padded with zero bytes to the four-byte array `unPackFixed` fills. */
  function Pad4(bs: seq<byte>): (r: seq<byte>)
    requires |bs| <= 4
    ensures |r| == 4 && r[..|bs|] == bs
  {
    bs + Zeros(4 - |bs|)
  }

  lemma {:induction false} DigitsShape(n: nat)
    ensures |Digits(n)| >= 1
    ensures Digits(n)[|Digits(n)| - 1] < 0x80
    ensures forall i :: 0 <= i < |Digits(n)| - 1 ==> Digits(n)[i] >= 0x80
    ensures |Digits(n)| == 1 <==> n < 128
    ensures n >= 128 ==> |Digits(n)| == 1 + |Digits(n / 128)|
    decreases n
  {
    if n / 128 > 0 {
      DigitsShape(n / 128);
      var d := (n % 128 + 0x80) as byte;
      assert Digits(n) == [d] + Digits(n / 128);
    }
  }

  /** The digits spell `n` back. */
  lemma {:induction false} SumDigits(n: nat)
    ensures Sum(Digits(n)) == n
    decreases n
  {
    if n / 128 > 0 {
      SumDigits(n / 128);
      var d := Digits(n);
      assert d[1..] == Digits(n / 128);
    }
  }

  /** Trailing zero bytes do not change the value. */
  lemma {:induction false} SumZeros(bs: seq<byte>, k: nat)
    ensures Sum(bs + Zeros(k)) == Sum(bs)
  {
    if bs == [] {
      SumAllZero(k);
      assert bs + Zeros(k) == Zeros(k);
    } else {
      SumZeros(bs[1..], k);
      assert (bs + Zeros(k))[1..] == bs[1..] + Zeros(k);
    }
  }

  lemma {:induction false} SumAllZero(k: nat)
    ensures Sum(Zeros(k)) == 0
  {
    if k > 0 {
      SumAllZero(k - 1);
      assert Zeros(k)[1..] == Zeros(k - 1);
      assert Zeros(k)[0] % 0x80 == 0;
    }
  }

  /** `k` base-128 digits spell a value below 128^k. */
  lemma {:induction false} SumBound(bs: seq<byte>)
    ensures Sum(bs) < Pow128(|bs|)
  {
    if bs != [] {
      SumBound(bs[1..]);
      assert (bs[0] % 0x80) as nat < 128;
    }
  }

  /** `msgLenCode` yields one to four bytes for every value up to MaxLength, with
   *  bit 7 set on all but the last, and nothing above MaxLength. */
  lemma CodeShape(n: nat)
    ensures n > MaxLength <==> Code(n) == []
    ensures n <= MaxLength ==> 1 <= |Code(n)| <= 4
    ensures n <= MaxLength ==> Code(n)[|Code(n)| - 1] < 0x80
    ensures n <= MaxLength ==> forall i :: 0 <= i < |Code(n)| - 1 ==> Code(n)[i] >= 0x80
    ensures n < 128 ==> |Code(n)| == 1
    ensures 128 <= n < 16384 ==> |Code(n)| == 2
    ensures 16384 <= n < 2097152 ==> |Code(n)| == 3
    ensures 2097152 <= n <= MaxLength ==> |Code(n)| == 4
  {
    DigitsShape(n);
    if n >= 128 {
      DigitsShape(n / 128);
      if n / 128 >= 128 {
        DigitsShape(n / 128 / 128);
        if n / 128 / 128 >= 128 {
          DigitsShape(n / 128 / 128 / 128);
        }
      }
    }
  }

  /** The value `msgLenEnCode` reports never exceeds MaxLength, so the final
   *  `uint32` conversion loses nothing. */
  lemma EnCodeBound(bs: seq<byte>)
    ensures EnCode(bs) <= MaxLength
  {
    if 1 <= |bs| <= 4 {
      SumBound(bs);
      assert Pow128(|bs|) <= Pow128(4) by {
        assert Pow128(4) == 268435456;
      }
    }
  }

  /** Round trip: decoding the zero-padded encoding of `n` gives `n`. */
  lemma RoundTrip(n: nat)
    requires n <= MaxLength
    ensures |Code(n)| <= 4 && EnCode(Pad4(Code(n))) == n
  {
    CodeShape(n);
    SumZeros(Code(n), 4 - |Code(n)|);
    SumDigits(n);
  }

  /** `msgLenCode`: the Go append loop, proved to produce `Code(sln)`. */
  method MsgLenCode(sln: nat) returns (bs: seq<byte>)
    requires sln < 0x1_0000_0000
    ensures bs == Code(sln)
  {
    bs := [];
    if sln > MaxLength {
      return;
    }
    var n := sln;
    while n / 128 > 0
      invariant bs + Digits(n) == Digits(sln)
      decreases n
    {
      bs := bs + [(n % 128 + 128) as byte];
      n := n / 128;
    }
    bs := bs + [(n % 128) as byte];
  }

  /** `msgLenEnCode`: the Go accumulator loop, proved to compute `EnCode(bs)`. */
  method MsgLenEnCode(bs: seq<byte>) returns (v: nat)
    ensures v == EnCode(bs)
  {
    if |bs| < 1 || |bs| > 4 {
      return 0;
    }
    var multiplier: nat := 1;
    var sln: nat := 0;
    var i := 0;
    while i < |bs|
      invariant 0 <= i <= |bs|
      invariant multiplier == Pow128(i)
      invariant sln + multiplier * Sum(bs[i..]) == Sum(bs)
    {
      AccumulateStep(bs, i, multiplier, sln);
      sln := sln + (bs[i] % 0x80) as nat * multiplier;
      multiplier := multiplier * 128;
      i := i + 1;
      if i <= 3 {
        PowMono(i, 3);
      }
      if multiplier > 128 * 128 * 128 {
        break;
      }
    }
    assert bs[i..] == [];
    v := sln;
  }

  /** One digit moves from the unread sum into the accumulator. */
  lemma AccumulateStep(bs: seq<byte>, i: nat, m: nat, sln: nat)
    requires i < |bs| && sln + m * Sum(bs[i..]) == Sum(bs)
    ensures (sln + (bs[i] % 0x80) as nat * m) + (m * 128) * Sum(bs[i + 1..]) == Sum(bs)
  {
    var d := (bs[i] % 0x80) as nat;
    var rest := Sum(bs[i + 1..]);
    var s := Sum(bs[i..]);
    assert bs[i..][1..] == bs[i + 1..];
    assert s == d + 128 * rest;
    Distribute(m, d, rest);
    assert m * s == d * m + (m * 128) * rest;
  }

  lemma Distribute(m: nat, d: nat, r: nat)
    ensures m * (d + 128 * r) == d * m + (m * 128) * r
  {
  }

  lemma {:induction false} PowMono(i: nat, j: nat)
    requires i <= j
    ensures Pow128(i) <= Pow128(j)
    decreases j
  {
    if i < j {
      PowMono(i, j - 1);
    }
  }

  /** `by2Len32AndIndex`: the variable byte integer at the start of `bs` and the
   *  number of bytes it takes. Bytes are indexed one at a time, so a field cut
   *  short makes the Go code panic. */
  function By2Len32AndIndex(bs: seq<byte>): (r: Run<(nat, nat)>)
    ensures !r.Diverges?
    ensures r.Returns? ==> 1 <= r.value.1 <= 4 && r.value.1 <= |bs|
    ensures r.Returns? ==> r.value.0 == Sum(bs[..r.value.1])
    ensures r.Returns? ==> forall i :: 0 <= i < r.value.1 - 1 ==> bs[i] > 0x7F
    ensures r.Returns? && r.value.1 < 4 ==> bs[r.value.1 - 1] <= 0x7F
    ensures r.Panics? <==> |bs| < 4 && forall i :: 0 <= i < |bs| ==> bs[i] > 0x7F
  {
    if |bs| < 1 then Panics
    else if bs[0] <= 0x7F then Returns((Field(bs, 1), 1))
    else if |bs| < 2 then Panics
    else if bs[1] <= 0x7F then Returns((Field(bs, 2), 2))
    else if |bs| < 3 then Panics
    else if bs[2] <= 0x7F then Returns((Field(bs, 3), 3))
    else if |bs| < 4 then Panics
    else Returns((Field(bs, 4), 4))
  }

  /** The value of the first `k` bytes as the Go code decodes them: copied into
   *  a zero-filled four-byte array and passed to `msgLenEnCode`. */
  function Field(bs: seq<byte>, k: nat): (r: nat)
    requires 1 <= k <= 4 && k <= |bs|
    ensures r == Sum(bs[..k])
  {
    SumZeros(bs[..k], 4 - k);
    EnCode(Pad4(bs[..k]))
  }

  /** `by2Len32`: the value alone. */
  function By2Len32(bs: seq<byte>): (r: Run<nat>)
    ensures !r.Diverges?
    ensures r.Returns? ==> r.value <= MaxLength
    ensures r.Panics? <==> By2Len32AndIndex(bs).Panics?
    ensures r.Returns? ==> r.value == By2Len32AndIndex(bs).value.0
  {
    if |bs| < 1 then Panics
    else if bs[0] <= 0x7F then Returns(FieldBounded(bs, 1))
    else if |bs| < 2 then Panics
    else if bs[1] <= 0x7F then Returns(FieldBounded(bs, 2))
    else if |bs| < 3 then Panics
    else if bs[2] <= 0x7F then Returns(FieldBounded(bs, 3))
    else if |bs| < 4 then Panics
    else Returns(FieldBounded(bs, 4))
  }

  function FieldBounded(bs: seq<byte>, k: nat): (r: nat)
    requires 1 <= k <= 4 && k <= |bs|
    ensures r <= MaxLength
  {
    EnCodeBound(Pad4(bs[..k]));
    Field(bs, k)
  }

  /** Reading back an encoded field recovers the value and the field's width,
   *  whatever follows it. */
  lemma ReadEncoded(n: nat, rest: seq<byte>)
    requires n <= MaxLength
    ensures By2Len32AndIndex(Code(n) + rest) == Returns((n, |Code(n)|))
    ensures By2Len32(Code(n) + rest) == Returns(n)
  {
    var c := Code(n);
    CodeShape(n);
    SumDigits(n);
    var bs := c + rest;
    assert bs[..|c|] == c;
  }

  /** `unPackPropertyLength`: the property length and the bytes after its field. */
  function UnPackPropertyLength(bs: seq<byte>): (r: Run<(nat, seq<byte>)>)
    ensures !r.Diverges?
    ensures r.Returns? ==> 1 <= |bs| - |r.value.1| <= 4 && r.value.1 == bs[|bs| - |r.value.1|..]
    ensures r.Panics? <==> By2Len32AndIndex(bs).Panics?
    ensures r.Returns? ==> r.value.0 == Sum(bs[..|bs| - |r.value.1|])
    ensures r.Returns? ==> |bs| - |r.value.1| == By2Len32AndIndex(bs).value.1
  {
    var field := By2Len32AndIndex(bs);
    if field.Returns? then Returns((field.value.0, bs[field.value.1..])) else Panics
  }

  /** Reading the property length of an encoded block returns the length and
   *  exactly the bytes after the field. */
  lemma PropertyLengthEncoded(n: nat, rest: seq<byte>)
    requires n <= MaxLength
    ensures UnPackPropertyLength(Code(n) + rest) == Returns((n, rest))
  {
    ReadEncoded(n, rest);
    assert (Code(n) + rest)[|Code(n)|..] == rest;
  }
}
