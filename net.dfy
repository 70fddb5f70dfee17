/**
 * IPv4 addresses packed into 32-bit integers (net.go).
 *
 * net.IPv4 builds the 16-byte IPv4-in-IPv6 form of an address: ten zero
 * bytes, two 0xFF bytes, then the four address bytes. Ip2long requires at
 * least 16 bytes and reads bytes 12 to 15 big-endian; the 4-byte form that
 * To4 returns makes Go panic. Long2ip builds the 16-byte form.
 */
module Net {

  type byte = bv8
  type uint32 = bv32

  /** The twelve bytes net.IPv4 places before the four address bytes. */
  const V4InV6Prefix: seq<byte> := [0, 0, 0, 0, 0, 0, 0, 0, 0, 0, 0xFF, 0xFF]

  /** net.IPv4(a, b, c, d): the 16-byte form of the address a.b.c.d. */
  function IPv4(a: byte, b: byte, c: byte, d: byte): (ip: seq<byte>)
    ensures |ip| == 16 && ip[..12] == V4InV6Prefix
    ensures ip[12] == a && ip[13] == b && ip[14] == c && ip[15] == d
  {
    V4InV6Prefix + [a, b, c, d]
  }

  /** Ip2long: bytes 12..15 of the address, most significant first. */
  function Ip2long(ip: seq<byte>): (n: uint32)
    requires |ip| >= 16
    ensures n == (ip[12] as uint32) * 0x100_0000 + (ip[13] as uint32) * 0x1_0000
                 + (ip[14] as uint32) * 0x100 + (ip[15] as uint32)
  {
    ((ip[12] as uint32) << 24) | ((ip[13] as uint32) << 16)
    | ((ip[14] as uint32) << 8) | (ip[15] as uint32)
  }

  /** Long2ip: the four bytes of n, most significant first, in IPv4 form. */
  function Long2ip(n: uint32): (ip: seq<byte>)
    ensures |ip| == 16 && ip[..12] == V4InV6Prefix
    ensures ip[12] as uint32 == n / 0x100_0000
    ensures ip[13] as uint32 == n / 0x1_0000 % 0x100
    ensures ip[14] as uint32 == n / 0x100 % 0x100
    ensures ip[15] as uint32 == n % 0x100
  {
    IPv4(((n >> 24) & 0xFF) as byte, ((n >> 16) & 0xFF) as byte,
         ((n >> 8) & 0xFF) as byte, (n & 0xFF) as byte)
  }

  /** Packing the unpacked address gives back the number. */
  lemma Ip2longLong2ip(n: uint32)
    ensures Ip2long(Long2ip(n)) == n
  {
  }

  /** Unpacking the packed address keeps bytes 12..15 and normalises the prefix. */
  lemma Long2ipIp2long(ip: seq<byte>)
    requires |ip| >= 16
    ensures Long2ip(Ip2long(ip)) == V4InV6Prefix + ip[12..16]
  {
  }
}
