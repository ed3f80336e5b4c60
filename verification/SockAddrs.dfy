/** Socket addresses as the port mapper sees them: the bytes of a
    `sockaddr_storage` that its comparison and copy routines touch. */
module SockAddrs {

  type Byte = bv8

  /** A 16-bit field kept in network order (a TCP port). */
  datatype Half = Half(hi: Byte, lo: Byte)

  /** Four consecutive bytes (an IPv4 address). */
  datatype Quad = Quad(b0: Byte, b1: Byte, b2: Byte, b3: Byte)

  /** Sixteen consecutive bytes (an IPv6 address, or an address field of a wire message). */
  datatype Ip16 = Ip16(q0: Quad, q1: Quad, q2: Quad, q3: Quad)

  const AF_INET := 2
  const AF_INET6 := 10

  const ZERO_PORT := Half(0, 0)
  const ZERO_QUAD := Quad(0, 0, 0, 0)
  const ZERO_IP := Ip16(ZERO_QUAD, ZERO_QUAD, ZERO_QUAD, ZERO_QUAD)

  /** The memory layout shared by `sockaddr_in` and `sockaddr_in6`: `word` is the IPv4
      address of the first and the flow label of the second; `block` is the IPv6 address. */
  datatype SockAddr = SockAddr(family: nat, port: Half, word: Quad, block: Ip16)

  predicate IsInet(family: nat) {
    family == AF_INET || family == AF_INET6
  }

  /** get_sockaddr_port: an unknown family reads as port zero. */
  function GetPort(a: SockAddr): (p: Half)
  {
    if IsInet(a.family) then a.port else ZERO_PORT
  }

  /** is_wcard_ipaddr. */
  predicate IsWildcard(a: SockAddr) {
    if a.family == AF_INET then a.word == ZERO_QUAD
    else a.family == AF_INET6 && a.block == ZERO_IP
  }

  /** check_same_sockaddr: family, address and port; never true of an unknown family. */
  predicate SameSockAddr(a: SockAddr, b: SockAddr) {
    && a.family == b.family
    && if a.family == AF_INET then a.word == b.word && a.port == b.port
       else a.family == AF_INET6 && a.block == b.block && a.port == b.port
  }

  /** copy_iwpm_sockaddr with a source sockaddr: the wire address field after the copy,
      which overwrites four bytes of `field` for IPv4 and all sixteen for IPv6. */
  function PackIp(family: nat, a: SockAddr, field: Ip16): (r: Ip16)
    requires IsInet(family)
  {
    if family == AF_INET then field.(q0 := a.word) else a.block
  }

  /** copy_iwpm_sockaddr with a destination sockaddr, built from wire fields. */
  function Unpack(family: nat, ip: Ip16, port: Half): (a: SockAddr)
    requires IsInet(family)
  {
    if family == AF_INET then SockAddr(AF_INET, port, ip.q0, ZERO_IP)
    else SockAddr(AF_INET6, port, ZERO_QUAD, ip)
  }

  /** Sending an address over the wire and rebuilding it gives the same address exactly
      when the message carries the address's own family. */
  lemma PackUnpack(family: nat, a: SockAddr, field: Ip16)
    requires IsInet(family)
    ensures SameSockAddr(Unpack(family, PackIp(family, a, field), a.port), a) <==> a.family == family
    ensures GetPort(Unpack(family, PackIp(family, a, field), a.port)) == a.port
  {
  }

  /** check_same_sockaddr is a partial equivalence that respects ports and wildcards. */
  lemma SameIsPartialEquivalence(a: SockAddr, b: SockAddr, c: SockAddr)
    ensures SameSockAddr(a, a) <==> IsInet(a.family)
    ensures SameSockAddr(a, b) <==> SameSockAddr(b, a)
    ensures SameSockAddr(a, b) && SameSockAddr(b, c) ==> SameSockAddr(a, c)
    ensures SameSockAddr(a, b) ==> GetPort(a) == GetPort(b) && (IsWildcard(a) <==> IsWildcard(b))
  {
  }

  /** Two addresses are the same exactly when they look the same on the wire, with the same port;
      an address is a wildcard exactly when it is all zeros there. */
  lemma SameOnTheWire(a: SockAddr, b: SockAddr)
    requires IsInet(a.family)
    ensures SameSockAddr(a, b) <==>
              a.family == b.family && a.port == b.port && PackIp(a.family, a, ZERO_IP) == PackIp(a.family, b, ZERO_IP)
    ensures IsWildcard(a) <==> PackIp(a.family, a, ZERO_IP) == ZERO_IP
  {
  }
}
