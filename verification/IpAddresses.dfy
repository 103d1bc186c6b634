/** Addresses, their canonical form and network containment. */
module IpAddresses {

  type Octets4 = s: seq<bv8> | |s| == 4 witness [0, 0, 0, 0]
  type Octets16 = s: seq<bv8> | |s| == 16 witness seq(16, _ => 0)

  datatype IpAddr = V4(v4: Octets4) | V6(v6: Octets16)

  predicate IsMapped(octets: Octets16) {
    (forall i | 0 <= i < 10 :: octets[i] == 0) && octets[10] == 0xff && octets[11] == 0xff
  }

  /** An IPv4-mapped IPv6 address is the IPv4 client it carries. */
  function Canonical(ip: IpAddr): IpAddr {
    if ip.V6? && IsMapped(ip.v6) then V4(ip.v6[12..]) else ip
  }

  function Octets(ip: IpAddr): seq<bv8> {
    if ip.V4? then ip.v4 else ip.v6
  }

  function Width(ip: IpAddr): nat {
    if ip.V4? then 32 else 128
  }

  /** The first `n` bits of `o`, with the rest cleared. */
  function Masked(o: bv8, n: nat): bv8
    requires n <= 8
  {
    o & (0xff << (8 - n))
  }

  /** `a` and `b` agree on their first `bits` bits. */
  predicate SameBits(a: IpAddr, b: IpAddr, bits: nat)
    requires a.V4? == b.V4? && bits <= Width(a)
  {
    && Octets(a)[..bits / 8] == Octets(b)[..bits / 8]
    && (bits % 8 > 0 ==> Masked(Octets(a)[bits / 8], bits % 8) == Masked(Octets(b)[bits / 8], bits % 8))
  }

  type Network = n: NetworkBase | n.prefix <= Width(n.addr) witness NetworkBase(V4([0, 0, 0, 0]), 0)

  datatype NetworkBase = NetworkBase(addr: IpAddr, prefix: nat)

  /** Containment never crosses address families. */
  predicate Contains(net: Network, ip: IpAddr) {
    net.addr.V4? == ip.V4? && SameBits(net.addr, ip, net.prefix)
  }

  /** Two networks of one prefix length that share an address are one network. */
  lemma {:induction false} SharedAddressSameNetwork(a: Network, b: Network, ip: IpAddr, other: IpAddr)
    requires a.prefix == b.prefix && Contains(a, ip) && Contains(b, ip)
    ensures Contains(a, other) <==> Contains(b, other)
  {
  }
}
