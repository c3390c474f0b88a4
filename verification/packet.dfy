/** internal/packet/packet.go: addresses, ports, TCP flags and payload out of a
    raw network-layer frame; and the headers of RFC 791, 8200, 768 and 9293 that
    it must read back. */
module Packets {
  import opened Wrappers
  import opened Bytes
  import opened Netip

  const PROTO_TCP: byte := 6
  const PROTO_UDP: byte := 17

  datatype ParseError = Short | Unhandled

  datatype Packet = Packet(
    src: Addr,
    dst: Addr,
    proto: byte,
    srcPort: uint16,
    dstPort: uint16,
    syn: bool,
    ack: bool,
    payload: seq<byte>)
  {
    predicate IsTCP() { proto == PROTO_TCP }
    predicate IsUDP() { proto == PROTO_UDP }
  }

  type Parsed = Result<Packet, ParseError>

  // ---- the parser ----

  function ParseTransport(p: Packet, b: seq<byte>): Parsed {
    if p.proto == PROTO_UDP then
      if |b| < 8 then Err(Short)
      else Ok(p.(srcPort := Word(b[0..2]), dstPort := Word(b[2..4]), payload := b[8..]))
    else if p.proto == PROTO_TCP then
      if |b| < 20 then Err(Short)
      else
        var off := b[12] / 16 * 4;
        if off < 20 || |b| < off then Err(Short)
        else
          Ok(p.(srcPort := Word(b[0..2]), dstPort := Word(b[2..4]),
                syn := Bit(b[13], 6), ack := Bit(b[13], 3), payload := b[off..]))
    else Err(Unhandled)
  }

  function Bare(src: Addr, dst: Addr, proto: byte): Packet {
    Packet(src, dst, proto, 0, 0, false, false, [])
  }

  function ParseV4(b: seq<byte>): Parsed {
    if |b| < 20 then Err(Short)
    else
      var ihl := b[0] % 16 * 4;
      if ihl < 20 || |b| < ihl then Err(Short)
      // more fragments, or a fragment offset
      else if Word(b[6..8]) % 0x4000 != 0 then Err(Unhandled)
      else
        var total := Word(b[2..4]);
        if total < ihl then Err(Short)
        else
          var t := if total < |b| then b[..total] else b;
          ParseTransport(Bare(IPv4(t[12..16]), IPv4(t[16..20]), t[9]), t[ihl..])
  }

  function ParseV6(b: seq<byte>): Parsed {
    if |b| < 40 then Err(Short)
    else
      var plen: int := Word(b[4..6]);
      if |b| < 40 + plen then Err(Short)
      else ParseTransport(Bare(IPv6(b[8..24]), IPv6(b[24..40]), b[6]), b[40..40 + plen])
  }

  function Parse(b: seq<byte>): Parsed {
    if |b| < 1 then Err(Short)
    else if b[0] / 16 == 4 then ParseV4(b)
    else if b[0] / 16 == 6 then ParseV6(b)
    else Err(Unhandled)
  }

  // ---- the headers, written out ----

  type Word4 = b: seq<byte> | |b| == 4 witness [0, 0, 0, 0]
  type Word2 = b: seq<byte> | |b| == 2 witness [0, 0]

  /** RFC 791 section 3.1. `flags` are the three flag bits, of which the last,
      more-fragments, is off; the fragment offset is zero. */
  datatype V4Header = V4Header(
    ihl: nat, tos: byte, total: uint16, id: Word2, reserved: bool, dontFragment: bool,
    ttl: byte, proto: byte, checksum: Word2, src: Quad, dst: Quad, options: seq<byte>)
  {
    predicate Valid() {
      5 <= ihl <= 15 && |options| == 4 * (ihl - 5)
    }
  }

  function FlagsWord(reserved: bool, dontFragment: bool): uint16 {
    (if reserved then 0x8000 else 0) + (if dontFragment then 0x4000 else 0)
  }

  function V4Bytes(h: V4Header): (b: seq<byte>)
    requires h.Valid()
    ensures |b| == 4 * h.ihl
  {
    [0x40 + h.ihl, h.tos] + BE16(h.total) + h.id + BE16(FlagsWord(h.reserved, h.dontFragment))
    + [h.ttl, h.proto] + h.checksum + h.src + h.dst + h.options
  }

  /** RFC 8200 section 3. `traffic` is the low half of the first byte. */
  datatype V6Header = V6Header(
    traffic: byte, flow: Word2, second: byte, plen: uint16, next: byte, hops: byte, src: Octets, dst: Octets)
  {
    predicate Valid() { traffic < 16 }
  }

  function V6Bytes(h: V6Header): (b: seq<byte>)
    requires h.Valid()
    ensures |b| == 40
  {
    [0x60 + h.traffic, h.second] + h.flow + BE16(h.plen) + [h.next, h.hops] + h.src + h.dst
  }

  /** RFC 768. */
  function UdpBytes(sport: uint16, dport: uint16, length: Word2, checksum: Word2, payload: seq<byte>): seq<byte> {
    BE16(sport) + BE16(dport) + length + checksum + payload
  }

  /** RFC 9293 section 3.1. `reserved` is the low half of the offset byte. */
  datatype TcpHeader = TcpHeader(
    sport: uint16, dport: uint16, seqno: Word4, ackno: Word4, offset: nat, reserved: byte, flags: byte,
    window: Word2, checksum: Word2, urgent: Word2, options: seq<byte>)
  {
    predicate Valid() {
      5 <= offset <= 15 && reserved < 16 && |options| == 4 * (offset - 5)
    }
  }

  function TcpBytes(h: TcpHeader, payload: seq<byte>): seq<byte>
    requires h.Valid()
  {
    BE16(h.sport) + BE16(h.dport) + h.seqno + h.ackno + [16 * h.offset + h.reserved, h.flags]
    + h.window + h.checksum + h.urgent + h.options + payload
  }

  // ---- reading them back ----

  lemma {:induction false} UdpRoundTrip(p: Packet, sport: uint16, dport: uint16, length: Word2, checksum: Word2,
          payload: seq<byte>)
    requires p.proto == PROTO_UDP
    ensures ParseTransport(p, UdpBytes(sport, dport, length, checksum, payload))
         == Ok(p.(srcPort := sport, dstPort := dport, payload := payload))
  {
    var b := UdpBytes(sport, dport, length, checksum, payload);
    assert b[0..2] == BE16(sport) && b[2..4] == BE16(dport) && b[8..] == payload;
  }

  lemma {:induction false} TcpRoundTrip(p: Packet, h: TcpHeader, payload: seq<byte>)
    requires p.proto == PROTO_TCP && h.Valid()
    ensures ParseTransport(p, TcpBytes(h, payload))
         == Ok(p.(srcPort := h.sport, dstPort := h.dport, syn := Bit(h.flags, 6), ack := Bit(h.flags, 3),
             payload := payload))
  {
    var b := TcpBytes(h, payload);
    assert b[0..2] == BE16(h.sport) && b[2..4] == BE16(h.dport);
    assert b[12] == 16 * h.offset + h.reserved && b[13] == h.flags;
    assert b[12] / 16 == h.offset;
    assert b[4 * h.offset..] == payload;
  }

  /** The transport bytes an IPv4 frame holds: what follows the header, up to the
      total length, or all there is when the frame was cut short of it. */
  function V4Transport(h: V4Header, rest: seq<byte>): seq<byte>
    requires h.Valid() && 4 * h.ihl <= h.total
  {
    if h.total < 4 * h.ihl + |rest| then rest[..h.total - 4 * h.ihl] else rest
  }

  lemma {:induction false} V4Fields(h: V4Header, rest: seq<byte>)
    requires h.Valid()
    ensures var b := V4Bytes(h) + rest;
            && b[0] == 0x40 + h.ihl && b[0] % 16 == h.ihl && b[0] / 16 == 4
            && b[2..4] == BE16(h.total) && b[6..8] == BE16(FlagsWord(h.reserved, h.dontFragment))
            && b[9] == h.proto && b[12..16] == h.src && b[16..20] == h.dst && b[4 * h.ihl..] == rest
  {
  }

  /** An IPv4 frame reads as its addresses, protocol and transport bytes. */
  lemma {:induction false} V4RoundTrip(h: V4Header, rest: seq<byte>)
    requires h.Valid() && 4 * h.ihl <= h.total
    ensures Parse(V4Bytes(h) + rest) == ParseTransport(Bare(IPv4(h.src), IPv4(h.dst), h.proto), V4Transport(h, rest))
  {
    var b := V4Bytes(h) + rest;
    V4Fields(h, rest);
    assert Word(b[6..8]) % 0x4000 == 0;
    var t := if h.total < |b| then b[..h.total] else b;
    assert t[12..16] == b[12..16] && t[16..20] == b[16..20] && t[9] == b[9];
    assert t[4 * h.ihl..] == V4Transport(h, rest);
  }

  lemma {:induction false} V6Fields(h: V6Header, rest: seq<byte>)
    requires h.Valid()
    ensures var b := V6Bytes(h) + rest;
            && b[0] / 16 == 6 && b[4..6] == BE16(h.plen) && b[6] == h.next
            && b[8..24] == h.src && b[24..40] == h.dst && b[40..] == rest
  {
  }

  lemma {:induction false} V6RoundTrip(h: V6Header, rest: seq<byte>)
    requires h.Valid()
    ensures Parse(V6Bytes(h) + rest) ==
              if |rest| < h.plen then Err(Short)
              else ParseTransport(Bare(IPv6(h.src), IPv6(h.dst), h.next), rest[..h.plen])
  {
    var b := V6Bytes(h) + rest;
    V6Fields(h, rest);
    if |rest| >= h.plen {
      assert b[40..40 + h.plen] == b[40..][..h.plen];
    }
  }

  function UdpPacket(src: Addr, dst: Addr, sport: uint16, dport: uint16, payload: seq<byte>): Packet {
    Packet(src, dst, PROTO_UDP, sport, dport, false, false, payload)
  }

  function TcpPacket(src: Addr, dst: Addr, h: TcpHeader, payload: seq<byte>): Packet {
    Packet(src, dst, PROTO_TCP, h.sport, h.dport, Bit(h.flags, 6), Bit(h.flags, 3), payload)
  }

  /** Parse reads back every unfragmented IPv4 frame and every IPv6 frame carrying
      UDP, with any IPv4 options; padding after the frame changes nothing. */
  lemma {:induction false} UdpFrameRoundTrip(h4: V4Header, h6: V6Header, sport: uint16, dport: uint16,
          length: Word2, checksum: Word2, payload: seq<byte>, padding: seq<byte>)
    requires h4.Valid() && h4.proto == PROTO_UDP && h6.Valid() && h6.next == PROTO_UDP
    requires h4.total == 4 * h4.ihl + 8 + |payload| && h6.plen == 8 + |payload|
    ensures var u := UdpBytes(sport, dport, length, checksum, payload) + padding;
            && Parse(V4Bytes(h4) + u) == Ok(UdpPacket(IPv4(h4.src), IPv4(h4.dst), sport, dport, payload))
            && Parse(V6Bytes(h6) + u) == Ok(UdpPacket(IPv6(h6.src), IPv6(h6.dst), sport, dport, payload))
  {
    var u := UdpBytes(sport, dport, length, checksum, payload);
    V4RoundTrip(h4, u + padding);
    V6RoundTrip(h6, u + padding);
    assert V4Transport(h4, u + padding) == u && (u + padding)[..h6.plen] == u;
    UdpRoundTrip(Bare(IPv4(h4.src), IPv4(h4.dst), h4.proto), sport, dport, length, checksum, payload);
    UdpRoundTrip(Bare(IPv6(h6.src), IPv6(h6.dst), h6.next), sport, dport, length, checksum, payload);
  }

  /** The same for TCP, with any data offset: SYN and ACK are those of the flags. */
  lemma {:induction false} TcpFrameRoundTrip(h4: V4Header, h6: V6Header, h: TcpHeader, payload: seq<byte>,
          padding: seq<byte>)
    requires h4.Valid() && h4.proto == PROTO_TCP && h6.Valid() && h6.next == PROTO_TCP && h.Valid()
    requires h4.total == 4 * h4.ihl + 4 * h.offset + |payload| && h6.plen == 4 * h.offset + |payload|
    ensures var t := TcpBytes(h, payload) + padding;
            && Parse(V4Bytes(h4) + t) == Ok(TcpPacket(IPv4(h4.src), IPv4(h4.dst), h, payload))
            && Parse(V6Bytes(h6) + t) == Ok(TcpPacket(IPv6(h6.src), IPv6(h6.dst), h, payload))
  {
    var t := TcpBytes(h, payload);
    V4RoundTrip(h4, t + padding);
    V6RoundTrip(h6, t + padding);
    assert V4Transport(h4, t + padding) == t && (t + padding)[..h6.plen] == t;
    TcpRoundTrip(Bare(IPv4(h4.src), IPv4(h4.dst), h4.proto), h, payload);
    TcpRoundTrip(Bare(IPv6(h6.src), IPv6(h6.dst), h6.next), h, payload);
  }

  // ---- and nothing else is accepted ----

  /** Transport bytes the parser accepts are a UDP datagram or a TCP segment, with the
      ports, flags and payload of the result. */
  lemma {:induction false} AcceptedTransport(p: Packet, b: seq<byte>)
    returns (length: Word2, checksum: Word2, h: TcpHeader)
    requires ParseTransport(p, b).Ok?
    ensures var q := ParseTransport(p, b).value;
            if p.proto == PROTO_UDP then
              b == UdpBytes(q.srcPort, q.dstPort, length, checksum, q.payload)
              && q == p.(srcPort := q.srcPort, dstPort := q.dstPort, payload := q.payload)
            else
              && p.proto == PROTO_TCP && h.Valid() && b == TcpBytes(h, q.payload)
              && q == p.(srcPort := h.sport, dstPort := h.dport, syn := Bit(h.flags, 6), ack := Bit(h.flags, 3),
                         payload := q.payload)
  {
    length, checksum, h := [0, 0], [0, 0], TcpHeader(0, 0, [0, 0, 0, 0], [0, 0, 0, 0], 5, 0, 0, [0, 0], [0, 0],
        [0, 0], []);
    WordBack(b[0..2]);
    WordBack(b[2..4]);
    if p.proto == PROTO_UDP {
      length, checksum := b[4..6], b[6..8];
    } else {
      h := SegmentBack(b);
    }
  }

  /** The TCP header at the front of a segment. */
  lemma {:induction false} SegmentBack(b: seq<byte>) returns (h: TcpHeader)
    requires |b| >= 20 && 20 <= b[12] / 16 * 4 <= |b|
    ensures h.Valid() && b == TcpBytes(h, b[b[12] / 16 * 4..])
    ensures h.sport == Word(b[0..2]) && h.dport == Word(b[2..4]) && h.flags == b[13]
  {
    var words: nat := b[12] / 16;
    h := TcpHeader(Word(b[0..2]), Word(b[2..4]), b[4..8], b[8..12], words, b[12] % 16, b[13],
                   b[14..16], b[16..18], b[18..20], b[20..4 * words]);
    WordBack(b[0..2]);
    WordBack(b[2..4]);
    assert b[12] == words * 16 + b[12] % 16;
  }

  lemma {:induction false} FlagsWordBack(w: uint16)
    requires w % 0x4000 == 0
    ensures FlagsWord(w >= 0x8000, w % 0x8000 >= 0x4000) == w
  {
  }

  lemma {:induction false} WordBack(b: seq<byte>)
    requires |b| == 2
    ensures BE16(Word(b)) == b
  {
  }

  /** The header at the front of an IPv4 frame. */
  function HeaderOf(b: seq<byte>): V4Header
    requires |b| >= 20 && 20 <= b[0] % 16 * 4 <= |b|
  {
    var ihl: nat := b[0] % 16;
    var w := Word(b[6..8]);
    V4Header(ihl, b[1], Word(b[2..4]), b[4..6], w >= 0x8000, w % 0x8000 >= 0x4000,
             b[8], b[9], b[10..12], b[12..16], b[16..20], b[20..4 * ihl])
  }

  lemma {:induction false} Glue(b: seq<byte>, j: nat, k: nat)
    requires j <= k <= |b|
    ensures b[0..j] + b[j..k] == b[0..k]
  {
  }

  lemma {:induction false} HeaderOfBytes(b: seq<byte>)
    requires |b| >= 20 && 20 <= b[0] % 16 * 4 <= |b| && b[0] / 16 == 4 && Word(b[6..8]) % 0x4000 == 0
    ensures HeaderOf(b).Valid() && V4Bytes(HeaderOf(b)) == b[0..4 * HeaderOf(b).ihl]
  {
    var h := HeaderOf(b);
    FlagsWordBack(Word(b[6..8]));
    WordBack(b[6..8]);
    WordBack(b[2..4]);
    assert [0x40 + h.ihl, h.tos] == b[0..2] && [h.ttl, h.proto] == b[8..10];
    Glue(b, 2, 4);
    Glue(b, 4, 6);
    Glue(b, 6, 8);
    Glue(b, 8, 10);
    Glue(b, 10, 12);
    Glue(b, 12, 16);
    Glue(b, 16, 20);
    Glue(b, 20, 4 * h.ihl);
  }

  /** An accepted IPv4 frame starts with a well-formed, unfragmented header. */
  lemma {:induction false} AcceptedV4(b: seq<byte>) returns (h: V4Header)
    requires ParseV4(b).Ok? && b[0] / 16 == 4
    ensures h.Valid() && 4 * h.ihl <= h.total && |b| >= 4 * h.ihl && b == V4Bytes(h) + b[4 * h.ihl..]
  {
    HeaderOfBytes(b);
    h := HeaderOf(b);
  }

  /** An accepted IPv6 frame starts with a well-formed header and holds the whole
      payload. */
  lemma {:induction false} AcceptedV6(b: seq<byte>) returns (h: V6Header)
    requires ParseV6(b).Ok? && b[0] / 16 == 6
    ensures h.Valid() && |b| >= 40 + h.plen && b == V6Bytes(h) + b[40..]
  {
    h := V6Header(b[0] % 16, b[2..4], b[1], Word(b[4..6]), b[6], b[7], b[8..24], b[24..40]);
    WordBack(b[4..6]);
    assert [0x60 + b[0] % 16, b[1]] == b[0..2] && [b[6], b[7]] == b[6..8];
    assert V6Bytes(h) == b[0..2] + b[2..4] + b[4..6] + b[6..8] + b[8..24] + b[24..40];
  }
}
