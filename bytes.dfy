/**
 * Byte-level vocabulary shared by both protocol trees: what a Go call can do
 * besides returning, big-endian 16-bit fields, and Go's wrapping `uint16`
 * arithmetic. Go strings are byte strings and are modelled as `seq<byte>`.
 */
module Bytes {

  /** A Go `byte` (`uint8`). Bit operations of the source are written as the
   *  arithmetic they amount to for values in range. */
  newtype byte = x: int | 0 <= x < 0x100

  /** The outcome of a Go call: it returns, it panics (an index or slice bound
   *  out of range, a write into a nil map), or it never returns (a loop whose
   *  state no longer changes, a recursion without a base case). */
  datatype Run<T> = Returns(value: T) | Panics | Diverges

  /** One pass of a decoding loop: it moves the cursor to `t` with the new
   *  accumulator, or the loop ends with `r`. */
  datatype Step<T> = Next(t: nat, acc: T) | Stop(r: Run<T>)

  datatype Option<T> = None | Some(value: T)

  datatype Result<T, E> = Ok(value: T) | Err(error: E)

  /** The protocol name "MQTT" as bytes. */
  const MqttName: seq<byte> := [0x4D, 0x51, 0x54, 0x54]

  /** A Go `uint16` addition: it wraps around at 2^16. */
  function Add16(a: nat, b: nat): (r: nat)
    ensures r < 0x1_0000
    ensures a + b < 0x1_0000 ==> r == a + b
    ensures a + b >= 0x1_0000 && a + b < 0x2_0000 ==> r == a + b - 0x1_0000
  {
    (a + b) % 0x1_0000
  }

  /** A conversion to Go `uint16` (`uint16(n)`): the value modulo 2^16. */
  function Wrap16(n: nat): (r: nat)
    ensures r < 0x1_0000 && (n < 0x1_0000 ==> r == n)
  {
    if n < 0x1_0000 then n else n % 0x1_0000
  }

  /** Two bytes read big-endian into a `uint16` (`binary.Read` with `binary.BigEndian`). */
  function BE16(hi: byte, lo: byte): (r: nat)
    ensures r < 0x1_0000
  {
    hi as nat * 256 + lo as nat
  }

  /** Four bytes read big-endian into a `uint32`. */
  function BE32(bs: seq<byte>): (r: nat)
    requires |bs| == 4
    ensures r < 0x1_0000_0000
  {
    BE16(bs[0], bs[1]) * 0x1_0000 + BE16(bs[2], bs[3])
  }

  /** `int16ToByBig`: the two big-endian bytes of a `uint16`. */
  function Int16ToByBig(n: nat): (r: seq<byte>)
    requires n < 0x1_0000
    ensures |r| == 2 && BE16(r[0], r[1]) == n
  {
    [(n / 256) as byte, (n % 256) as byte]
  }

  /** The four big-endian bytes of a `uint32`, as the encoders of 32-bit properties write them. */
  function Int32ToByBig(n: nat): (r: seq<byte>)
    requires n < 0x1_0000_0000
    ensures |r| == 4 && BE32(r) == n
  {
    Int16ToByBig(n / 0x1_0000) + Int16ToByBig(n % 0x1_0000)
  }

  /** Zero is written as two zero bytes. */
  lemma Int16ZeroBytes()
    ensures Int16ToByBig(0) == [0, 0]
  {
  }

  /** Reading two bytes big-endian and writing the value back gives the same bytes. */
  lemma BE16Inverse(hi: byte, lo: byte)
    ensures Int16ToByBig(BE16(hi, lo)) == [hi, lo]
  {
  }

  /** Concatenation regrouped. */
  lemma AppendAssoc(a: seq<byte>, b: seq<byte>, c: seq<byte>)
    ensures a + b + c == a + (b + c)
  {
  }

  /** Where `e + tail` sits in `buf` from `t` to `pl`, `e` sits at `t` and `tail` after it. */
  lemma SplitSlice(buf: seq<byte>, t: nat, pl: nat, e: seq<byte>, tail: seq<byte>)
    requires pl == t + |e| + |tail| <= |buf| && buf[t..pl] == e + tail
    ensures buf[t..t + |e|] == e && buf[t + |e|..pl] == tail
  {
    assert buf[t..t + |e|] == buf[t..pl][..|e|];
    assert buf[t + |e|..pl] == buf[t..pl][|e|..];
  }

  /** The sequence of `n` zero bytes, as `make([]byte, n)` allocates it. */
  function Zeros(n: nat): (r: seq<byte>)
    ensures |r| == n && forall i :: 0 <= i < n ==> r[i] == 0
  {
    seq(n, _ => 0)
  }
}
