/**
 * The CONNECT packet's connect-flags byte, which both decoders read through
 * its `fmt.Sprintf("%08b", ...)` rendering: character 7 is bit 0 (reserved),
 * character 6 bit 1 (clean session / clean start), 5 the will flag, 4 and 3
 * the will QoS, 2 will retain, 1 the password flag and 0 the user-name flag.
 */
module ConnectFlags {
  import opened Bytes

  /** Bit `k` of a byte. */
  function Bit(b: byte, k: nat): (r: bool)
    requires k < 8
  {
    var n := b as nat;
    if k == 0 then n % 2 == 1
    else if k == 1 then n / 2 % 2 == 1
    else if k == 2 then n / 4 % 2 == 1
    else if k == 3 then n / 8 % 2 == 1
    else if k == 4 then n / 16 % 2 == 1
    else if k == 5 then n / 32 % 2 == 1
    else if k == 6 then n / 64 % 2 == 1
    else n / 128 % 2 == 1
  }

  /** `fmt.Sprintf("%08b", b)`: eight characters, most significant bit first. */
  function Binary8(b: byte): (s: string)
    ensures |s| == 8
    ensures forall i :: 0 <= i < 8 ==> (s[i] == '1' <==> Bit(b, 7 - i)) && (s[i] == '0' <==> !Bit(b, 7 - i))
  {
    seq(8, i requires 0 <= i < 8 => if Bit(b, 7 - i) then '1' else '0')
  }

  /** The will QoS the bits 4 and 3 select: 01 is QoS 1, 10 is QoS 2, anything else QoS 0. */
  function WillQos(flag: byte): (q: byte)
    ensures !Bit(flag, 4) && Bit(flag, 3) ==> q == 1
    ensures Bit(flag, 4) && !Bit(flag, 3) ==> q == 2
    ensures Bit(flag, 4) == Bit(flag, 3) ==> q == 0
  {
    var bs := Binary8(flag);
    if bs[3] == '0' && bs[4] == '1' then 1
    else if bs[3] == '1' && bs[4] == '0' then 2
    else 0
  }
}
