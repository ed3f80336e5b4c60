/** The port mapper's wire message: 48 bytes, or 64 for a request. */
module WireMsgs {
  import opened Options
  import opened SockAddrs

  const MT_REQ: Byte := 0
  const MT_ACC: Byte := 1
  const MT_ACK: Byte := 2
  const MT_REJ: Byte := 3

  const MESSAGE_SIZE := 48
  const REQUEST_SIZE := 64

  /** An association handle: the 64-bit number that ties the messages of one query together. */
  datatype Handle = Handle(bits: bv64)

  const NULL_HANDLE := Handle(0)

  /** The decoded parameters of a message. */
  datatype Parms = Parms(
    ipVer: Byte, ver: Byte, mt: Byte, pmtime: Byte, handle: Handle,
    apIp: Ip16, apPort: Half, cpIp: Ip16, cpPort: Half, mappedIp: Ip16, mappedPort: Half)

  /** Eight consecutive bytes. */
  datatype Octet = Octet(hi: Quad, lo: Quad)

  /** The fields of `struct iwpm_wire_msg` in the order they lie in memory. */
  datatype Wire = Wire(
    magic: Byte, pmtime: Byte, reserved: Half, apPort: Half, cpPort: Half, handle: Octet,
    cpIp: Ip16, apIp: Ip16, mappedIp: Ip16)

  const ZERO_WIRE := Wire(0, 0, ZERO_PORT, ZERO_PORT, ZERO_PORT, Octet(ZERO_QUAD, ZERO_QUAD),
                          ZERO_IP, ZERO_IP, ZERO_IP)

  /** The address family an IP version stands for. */
  function Family(ipVer: Byte): Option<nat> {
    if ipVer == 4 then Some(AF_INET) else if ipVer == 6 then Some(AF_INET6) else None
  }

  function Magic(ipVer: Byte, ver: Byte, mt: Byte): Byte {
    (ipVer & 0x0F) | ((ver << 6) & 0xC0) | ((mt << 4) & 0x30)
  }

  function ToBigEndian(h: bv64): Octet {
    Octet(Quad(((h >> 56) & 0xFF) as bv8, ((h >> 48) & 0xFF) as bv8,
               ((h >> 40) & 0xFF) as bv8, ((h >> 32) & 0xFF) as bv8),
          Quad(((h >> 24) & 0xFF) as bv8, ((h >> 16) & 0xFF) as bv8,
               ((h >> 8) & 0xFF) as bv8, (h & 0xFF) as bv8))
  }

  function FromBigEndian(o: Octet): bv64 {
    (o.hi.b0 as bv64 << 56) | (o.hi.b1 as bv64 << 48) | (o.hi.b2 as bv64 << 40) | (o.hi.b3 as bv64 << 32) |
    (o.lo.b0 as bv64 << 24) | (o.lo.b1 as bv64 << 16) | (o.lo.b2 as bv64 << 8) | (o.lo.b3 as bv64)
  }

  /** form_iwpm_msg: the mapped connecting address travels only in a request. */
  function Form(p: Parms): Wire {
    var request := p.mt == MT_REQ;
    Wire(Magic(p.ipVer, p.ver, p.mt), p.pmtime, if request then p.mappedPort else ZERO_PORT,
         p.apPort, p.cpPort, ToBigEndian(p.handle.bits), p.cpIp, p.apIp,
         if request then p.mappedIp else ZERO_IP)
  }

  /** parse_iwpm_msg, filling in `stale`; a bad IP version fails. */
  function Parse(w: Wire, stale: Parms): Option<Parms> {
    var ipVer := w.magic & 0x0F;
    var mt := (w.magic & 0x30) >> 4;
    if Family(ipVer).None? then None else
    Some(Parms(ipVer, (w.magic & 0xC0) >> 6, mt, w.pmtime, Handle(FromBigEndian(w.handle)),
               w.apIp, w.apPort, w.cpIp, w.cpPort,
               if mt == MT_REQ then w.mappedIp else stale.mappedIp,
               if mt == MT_REQ then w.reserved else stale.mappedPort))
  }

  /** Parameters that fit their wire fields. */
  predicate Encodable(p: Parms) {
    Family(p.ipVer).Some? && p.ver < 4 && p.mt < 4
  }

  lemma HandleRoundTrip(h: bv64)
    ensures FromBigEndian(ToBigEndian(h)) == h
  {
  }

  lemma MagicRoundTrip(ipVer: Byte, ver: Byte, mt: Byte)
    requires ipVer < 16 && ver < 4 && mt < 4
    ensures Magic(ipVer, ver, mt) & 0x0F == ipVer
    ensures (Magic(ipVer, ver, mt) & 0xC0) >> 6 == ver
    ensures (Magic(ipVer, ver, mt) & 0x30) >> 4 == mt
  {
  }

  /** Parsing a formed message gives every field back, the mapped connecting address
      included exactly when the message is a request. */
  lemma RoundTrip(p: Parms, stale: Parms)
    requires Encodable(p)
    ensures Parse(Form(p), stale) ==
              Some(if p.mt == MT_REQ then p
                   else p.(mappedIp := stale.mappedIp, mappedPort := stale.mappedPort))
  {
    HandleRoundTrip(p.handle.bits);
    MagicRoundTrip(p.ipVer, p.ver, p.mt);
  }

  // ------------------------------------------------------------ bytes

  function HalfBytes(h: Half): seq<Byte> { [h.hi, h.lo] }

  function QuadBytes(q: Quad): seq<Byte> { [q.b0, q.b1, q.b2, q.b3] }

  function IpBytes(i: Ip16): (s: seq<Byte>)
    ensures |s| == 16
  {
    QuadBytes(i.q0) + QuadBytes(i.q1) + QuadBytes(i.q2) + QuadBytes(i.q3)
  }

  /** Everything before the addresses. */
  function Header(w: Wire): (s: seq<Byte>)
    ensures |s| == 16
  {
    [w.magic, w.pmtime] + HalfBytes(w.reserved) + HalfBytes(w.apPort) + HalfBytes(w.cpPort)
    + QuadBytes(w.handle.hi) + QuadBytes(w.handle.lo)
  }

  /** The bytes every message sends. */
  function Prefix(w: Wire): (s: seq<Byte>)
    ensures |s| == MESSAGE_SIZE
  {
    Header(w) + IpBytes(w.cpIp) + IpBytes(w.apIp)
  }

  function Bytes(w: Wire): (s: seq<Byte>)
    ensures |s| == REQUEST_SIZE
  {
    Prefix(w) + IpBytes(w.mappedIp)
  }

  function HalfAt(s: seq<Byte>, i: nat): Half
    requires i + 2 <= |s|
  {
    Half(s[i], s[i + 1])
  }

  function QuadAt(s: seq<Byte>, i: nat): Quad
    requires i + 4 <= |s|
  {
    Quad(s[i], s[i + 1], s[i + 2], s[i + 3])
  }

  function IpAt(s: seq<Byte>, i: nat): Ip16
    requires i + 16 <= |s|
  {
    Ip16(QuadAt(s, i), QuadAt(s, i + 4), QuadAt(s, i + 8), QuadAt(s, i + 12))
  }

  /** A receive buffer seen as the message structure. */
  function FromBytes(s: seq<Byte>): Wire
    requires |s| == REQUEST_SIZE
  {
    Wire(s[0], s[1], HalfAt(s, 2), HalfAt(s, 4), HalfAt(s, 6), Octet(QuadAt(s, 8), QuadAt(s, 12)),
         IpAt(s, 16), IpAt(s, 32), IpAt(s, 48))
  }

  /** The structure survives being sent as its 64 bytes. */
  lemma BytesRoundTrip(w: Wire)
    ensures FromBytes(Bytes(w)) == w
  {
  }

  lemma IpSlice(s: seq<Byte>, i: nat)
    requires i + 16 <= |s|
    ensures IpBytes(IpAt(s, i)) == s[i..i + 16]
  {
  }

  lemma SmallSlices(s: seq<Byte>, i: nat)
    requires i + 4 <= |s|
    ensures HalfBytes(HalfAt(s, i)) == s[i..i + 2] && QuadBytes(QuadAt(s, i)) == s[i..i + 4]
  {
  }

  lemma HeaderPieces(s: seq<Byte>)
    requires |s| >= 16
    ensures [s[0], s[1]] + s[2..4] + s[4..6] + s[6..8] + s[8..12] + s[12..16] == s[..16]
  {
  }

  lemma HeaderSlice(s: seq<Byte>)
    requires |s| == REQUEST_SIZE
    ensures Header(FromBytes(s)) == s[..16]
  {
    SmallSlices(s, 2);
    SmallSlices(s, 4);
    SmallSlices(s, 6);
    SmallSlices(s, 8);
    SmallSlices(s, 12);
    HeaderPieces(s);
  }

  lemma Quarters(s: seq<Byte>)
    requires |s| == REQUEST_SIZE
    ensures s == s[..16] + s[16..32] + s[32..48] + s[48..64]
  {
  }

  /** And any 64 bytes are those of the structure they are read as. */
  lemma StructureRoundTrip(s: seq<Byte>)
    requires |s| == REQUEST_SIZE
    ensures Bytes(FromBytes(s)) == s
  {
    HeaderSlice(s);
    IpSlice(s, 16);
    IpSlice(s, 32);
    IpSlice(s, 48);
    Quarters(s);
  }

  /** An accept, ack or reject is sent as 48 bytes; whatever the rest of the receive
      buffer holds, those bytes alone give the parameters back. */
  lemma ShortMessageRoundTrip(p: Parms, stale: Parms, rest: seq<Byte>)
    requires Encodable(p) && p.mt != MT_REQ && |rest| == REQUEST_SIZE - MESSAGE_SIZE
    ensures Parse(FromBytes(Bytes(Form(p))[..MESSAGE_SIZE] + rest), stale) ==
              Some(p.(mappedIp := stale.mappedIp, mappedPort := stale.mappedPort))
  {
    var w := Form(p);
    var ip := IpAt(Prefix(w) + rest, MESSAGE_SIZE);
    var w' := w.(mappedIp := ip);
    assert Bytes(w)[..MESSAGE_SIZE] == Prefix(w) == Prefix(w');
    assert IpBytes(ip) == rest;
    BytesRoundTrip(w');
    RoundTrip(p, stale);
    MagicRoundTrip(p.ipVer, p.ver, p.mt);
  }

  /** The bytes handed to the socket. */
  function Sent(p: Parms): (s: seq<Byte>)
    ensures |s| == if p.mt == MT_REQ then REQUEST_SIZE else MESSAGE_SIZE
  {
    if p.mt == MT_REQ then Bytes(Form(p)) else Bytes(Form(p))[..MESSAGE_SIZE]
  }

  /** Receiving into a buffer whose tail still holds `rest`; any other length is refused. */
  function Receive(s: seq<Byte>, rest: seq<Byte>, stale: Parms): Option<Parms>
    requires |rest| == REQUEST_SIZE - MESSAGE_SIZE
  {
    if |s| == REQUEST_SIZE then Parse(FromBytes(s), stale)
    else if |s| == MESSAGE_SIZE then Parse(FromBytes(s + rest), stale)
    else None
  }

  /** What is received is what was sent, whatever the buffers held before. */
  lemma TransportRoundTrip(p: Parms, rest: seq<Byte>, stale: Parms)
    requires Encodable(p) && |rest| == REQUEST_SIZE - MESSAGE_SIZE
    ensures Receive(Sent(p), rest, stale) ==
              Some(if p.mt == MT_REQ then p
                   else p.(mappedIp := stale.mappedIp, mappedPort := stale.mappedPort))
  {
    if p.mt == MT_REQ {
      BytesRoundTrip(Form(p));
      RoundTrip(p, stale);
    } else {
      ShortMessageRoundTrip(p, stale, rest);
    }
  }

  /** The number a big-endian byte string of length 8 stands for. */
  function Horner(o: Octet): bv64 {
    var hi := ((o.hi.b0 as bv64 * 256 + o.hi.b1 as bv64) * 256 + o.hi.b2 as bv64) * 256 + o.hi.b3 as bv64;
    (((hi * 256 + o.lo.b0 as bv64) * 256 + o.lo.b1 as bv64) * 256 + o.lo.b2 as bv64) * 256 + o.lo.b3 as bv64
  }

  lemma HandleIsBigEndian(o: Octet)
    ensures FromBigEndian(o) == Horner(o)
  {
  }

  lemma MagicIsSum(ipVer: Byte, ver: Byte, mt: Byte)
    requires ipVer < 16 && ver < 4 && mt < 4
    ensures Magic(ipVer, ver, mt) == ver * 64 + mt * 16 + ipVer
  {
  }

  lemma HeaderLayout(w: Wire)
    ensures var h := Header(w);
            && h[0] == w.magic && h[1] == w.pmtime && h[2..4] == [w.reserved.hi, w.reserved.lo]
            && h[4..6] == [w.apPort.hi, w.apPort.lo] && h[6..8] == [w.cpPort.hi, w.cpPort.lo]
            && Octet(QuadAt(h, 8), QuadAt(h, 12)) == w.handle
  {
  }

  lemma AddressLayout(p: Parms)
    ensures var s, w := Sent(p), Form(p);
            && s[..16] == Header(w) && s[16..32] == IpBytes(p.cpIp) && s[32..48] == IpBytes(p.apIp)
            && (if p.mt == MT_REQ then s[48..] == IpBytes(p.mappedIp) else |s| == 48)
  {
    var s, w := Sent(p), Form(p);
    assert s[..48] == Prefix(w);
    assert s[..16] == Prefix(w)[..16] && s[16..32] == Prefix(w)[16..32] && s[32..48] == Prefix(w)[32..48];
  }

  /** An IPv4 address is the first four bytes of its field and leaves the others alone, an IPv6 one
      is all sixteen. */
  lemma AddressBytes(a: SockAddr, field: Ip16)
    ensures IpBytes(PackIp(AF_INET, a, field)) == QuadBytes(a.word) + IpBytes(field)[4..]
    ensures IpBytes(PackIp(AF_INET6, a, field)) == IpBytes(a.block)
  {
  }

  /** Where each parameter lies among the bytes sent: version, type and IP version share the first,
      ports and handle are in network order, and the addresses follow, the connecting one first. */
  lemma Layout(p: Parms)
    requires Encodable(p)
    ensures var s, h := Sent(p), Sent(p)[..16];
            && h[0] == p.ver * 64 + p.mt * 16 + p.ipVer && h[1] == p.pmtime
            && h[2..4] == (if p.mt == 0 then [p.mappedPort.hi, p.mappedPort.lo] else [0, 0])
            && h[4..6] == [p.apPort.hi, p.apPort.lo] && h[6..8] == [p.cpPort.hi, p.cpPort.lo]
            && Horner(Octet(QuadAt(h, 8), QuadAt(h, 12))) == p.handle.bits
            && s[16..32] == IpBytes(p.cpIp) && s[32..48] == IpBytes(p.apIp)
            && (if p.mt == 0 then s[48..] == IpBytes(p.mappedIp) else |s| == 48)
  {
    AddressLayout(p);
    HeaderLayout(Form(p));
    MagicIsSum(p.ipVer, p.ver, p.mt);
    HandleRoundTrip(p.handle.bits);
    HandleIsBigEndian(ToBigEndian(p.handle.bits));
  }

  // ------------------------------------------------------------ in place

  /** The message structure that the C routines fill in field by field. */
  class WireBuffer {
    var msg: Wire

    constructor ()
      ensures msg == ZERO_WIRE
    {
      msg := ZERO_WIRE;
    }

    /** form_iwpm_msg. */
    method FormMsg(p: Parms)
      modifies this
      ensures msg == Form(p)
    {
      msg := ZERO_WIRE;
      msg := msg.(pmtime := p.pmtime);
      msg := msg.(handle := ToBigEndian(p.handle.bits));
      var magic := p.ipVer & 0x0F;
      magic := magic | ((p.ver << 6) & 0xC0);
      magic := magic | ((p.mt << 4) & 0x30);
      msg := msg.(magic := magic);
      msg := msg.(apPort := p.apPort, cpPort := p.cpPort);
      msg := msg.(apIp := p.apIp, cpIp := p.cpIp);
      if p.mt == MT_REQ {
        msg := msg.(reserved := p.mappedPort, mappedIp := p.mappedIp);
      }
    }
  }
}
