/** Addresses and prefixes, after Go's net/netip. IPv6 zones never occur here:
    packets carry none, and a prefix drops the zone of its address. */
module Netip {
  import opened Bytes
  import opened Wrappers

  type Quad = b: seq<byte> | |b| == 4 witness [0, 0, 0, 0]
  type Octets = b: seq<byte> | |b| == 16 witness [0, 0, 0, 0, 0, 0, 0, 0, 0, 0, 0, 0, 0, 0, 0, 0]

  /** NoAddr is the zero netip.Addr, the one IsValid is false of. */
  datatype Addr = NoAddr | IPv4(b4: Quad) | IPv6(b16: Octets)
  {
    predicate IsValid() { !NoAddr? }

    function AsSlice(): seq<byte> {
      match this
      case NoAddr => []
      case IPv4(b) => b
      case IPv6(b) => b
    }

    function BitLen(): nat { 8 * |AsSlice()| }

    predicate Is4In6() {
      IPv6? && (forall i | 0 <= i < 10 :: b16[i] == 0) && b16[10] == 0xff && b16[11] == 0xff
    }

    /** An IPv4-mapped address stands for the IPv4 address inside it. */
    function Unmap(): (a: Addr)
      ensures !a.Is4In6() && a.IsValid() == IsValid()
    {
      if Is4In6() then IPv4(b16[12..]) else this
    }

    predicate IsLoopback() {
      var a := Unmap();
      (a.IPv4? && a.b4[0] == 127)
      || (a.IPv6? && (forall i | 0 <= i < 15 :: a.b16[i] == 0) && a.b16[15] == 1)
    }

    predicate IsMulticast() {
      var a := Unmap();
      (a.IPv4? && a.b4[0] / 16 == 0xe) || (a.IPv6? && a.b16[0] == 0xff)
    }

    predicate IsUnspecified() {
      IsValid() && forall i | 0 <= i < |AsSlice()| :: AsSlice()[i] == 0
    }
  }

  type IP = a: Addr | a.IsValid() witness IPv4([0, 0, 0, 0])

  datatype RawPrefix = RawPrefix(addr: Addr, bits: nat)
  {
    /** Same family, and the first `bits` bits agree. */
    predicate Contains(ip: Addr)
      requires bits <= addr.BitLen()
    {
      ip.IsValid() && ip.IPv4? == addr.IPv4? && addr.IsValid()
      && SameBits(ip.AsSlice(), addr.AsSlice(), bits)
    }
  }

  type Prefix = p: RawPrefix | p.addr.IsValid() && p.bits <= p.addr.BitLen()
    witness RawPrefix(IPv4([0, 0, 0, 0]), 0)

  function WithBytes(a: IP, b: seq<byte>): IP
    requires |b| == |a.AsSlice()|
  {
    if a.IPv4? then IPv4(b) else IPv6(b)
  }

  /** Prefix.Masked: the same prefix with every other bit cleared. */
  function Masked(p: Prefix): (m: Prefix)
    ensures m.bits == p.bits && m.addr.IPv4? == p.addr.IPv4?
    ensures m.addr.AsSlice() == And(p.addr.AsSlice(), Mask(p.bits, |p.addr.AsSlice()|))
  {
    RawPrefix(WithBytes(p.addr, And(p.addr.AsSlice(), Mask(p.bits, |p.addr.AsSlice()|))), p.bits)
  }

  /** Clearing the bits a prefix does not look at leaves it the same test. */
  lemma {:induction false} MaskedContainsSame(p: Prefix, ip: Addr)
    ensures Masked(p).Contains(ip) <==> p.Contains(ip)
  {
    if ip.IsValid() && ip.IPv4? == p.addr.IPv4? {
      var x, y, m := ip.AsSlice(), p.addr.AsSlice(), Mask(p.bits, |p.addr.AsSlice()|);
      MaskIsMask(p.bits, |y|);
      MaskIdempotent(y, m);
      MaskedCompare(x, y, m, p.bits);
      MaskedCompare(x, And(y, m), m, p.bits);
    }
  }

  lemma {:induction false} MaskedTwice(p: Prefix)
    ensures Masked(Masked(p)) == Masked(p)
  {
    MaskIdempotent(p.addr.AsSlice(), Mask(p.bits, |p.addr.AsSlice()|));
  }

  /** A full-length prefix holds one address. */
  lemma {:induction false} FullPrefixContains(a: IP, ip: Addr)
    ensures Masked(RawPrefix(a, a.BitLen())) == RawPrefix(a, a.BitLen())
    ensures RawPrefix(a, a.BitLen()).Contains(ip) <==> ip == a
  {
    var x := a.AsSlice();
    MaskIsMask(a.BitLen(), |x|);
    var m := Mask(a.BitLen(), |x|);
    forall i: nat | i < 8 * |x| ensures BitAt(And(x, m), i) == BitAt(x, i) {
      BitAtAnd(x, m, i);
    }
    BitsExtensional(And(x, m), x);
    if ip.IsValid() && ip.IPv4? == a.IPv4? {
      FullCompare(ip.AsSlice(), x);
    }
  }

  /** The address texts of net/netip, which this model does not spell out. */
  datatype Library = Library(
    addrText: IP -> string,
    parseAddr: string -> Option<IP>,
    parsePrefix: string -> Option<Prefix>)
  {
    /** What is printed for an address reads back as that address, and an
        address alone is no prefix. */
    ghost predicate Sound() {
      forall a: IP :: parseAddr(addrText(a)) == Some(a) && parsePrefix(addrText(a)) == None
    }
  }
}
