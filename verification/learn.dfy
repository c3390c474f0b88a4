/** internal/learn/learn.go: which packets open an outbound flow, and the book kept
    of them. The Owner callback and the DNS parser are inputs of each packet. */
module Learn {
  import opened Clock
  import opened Wrappers
  import opened Bytes
  import opened Text
  import opened Netip
  import opened Packets
  import opened Dnswatch

  /** replyWindow: a minute, in nanoseconds. */
  const REPLY_WINDOW: int := 60 * SECOND

  datatype FlowKey = FlowKey(host: string, port: uint16, proto: string)

  datatype Entry = Entry(host: string, domain: bool, port: uint16, proto: string, first: Time, last: Time, hits: nat)

  datatype UdpTuple = UdpTuple(peer: Addr, peerPort: uint16, local: uint16)

  /** One flow that was recorded. */
  datatype Flow = Flow(host: string, domain: bool, port: uint16, proto: string, ip: IP, origin: string, at: Time)
  {
    function Key(): FlowKey { FlowKey(host, port, proto) }
  }

  /** The observer's tables; `news` is what OnNew was called with. */
  datatype Book = Book(
    entries: map<FlowKey, Entry>,
    ips: map<FlowKey, set<IP>>,
    origins: map<FlowKey, map<string, nat>>,
    news: seq<Entry>)

  type Stamps = map<UdpTuple, Time>

  datatype Obs = Obs(book: Book, udpIn: Stamps, udpOut: Stamps, cache: CacheMap)

  /** `origin` is what Owner says, `answer` what the DNS parser makes of the payload. */
  datatype Event =
    | Seen(p: Packet, outgoing: bool, now: Time, origin: string, answer: Option<Answer>)
    | Sweep(now: Time)
    | Purge(now: Time)

  const EMPTY_BOOK := Book(map[], map[], map[], [])

  const FRESH_OBS := Obs(EMPTY_BOOK, map[], map[], map[])

  // ---- the book ----

  function FlowOf(lib: Library, cache: CacheMap, ip: IP, port: uint16, proto: string, origin: string, now: Time): Flow {
    match LookupIn(cache, ip, now)
    case Some(name) => Flow(name, true, port, proto, ip, origin, now)
    case None => Flow(lib.addrText(ip), false, port, proto, ip, origin, now)
  }

  function CountOf(m: map<string, nat>, o: string): nat {
    if o in m then m[o] else 0
  }

  function Booked(b: Book, f: Flow): Book {
    var k := f.Key();
    var seen := k in b.entries;
    var e0 := if seen then b.entries[k] else Entry(f.host, f.domain, f.port, f.proto, f.at, f.at, 0);
    var e := e0.(hits := e0.hits + 1, last := f.at);
    var ips0 := if k in b.ips && seen then b.ips[k] else {};
    var os0: map<string, nat> := if k in b.origins && seen then b.origins[k] else map[];
    var os: map<string, nat> := os0[f.origin := CountOf(os0, f.origin) + 1];
    Book(b.entries[k := e], b.ips[k := ips0 + {f.ip}], b.origins[k := os],
         if seen then b.news else b.news + [e])
  }

  // ---- who opened a UDP flow ----

  /** A stamp that still counts: not more than the window ago. */
  predicate Fresh(m: Stamps, t: UdpTuple, now: Time) {
    t in m && now - m[t] <= REPLY_WINDOW
  }

  /** Suppression is one instant shorter: at exactly the window it is off. */
  predicate Replied(m: Stamps, t: UdpTuple, now: Time) {
    t in m && now - m[t] < REPLY_WINDOW
  }

  function InTuple(p: Packet): UdpTuple { UdpTuple(p.src, p.srcPort, p.dstPort) }

  function OutTuple(p: Packet): UdpTuple { UdpTuple(p.dst, p.dstPort, p.srcPort) }

  predicate Eligible(dst: Addr) {
    dst.IsValid() && !dst.IsLoopback() && !dst.IsMulticast() && !dst.IsUnspecified()
  }

  function Inbound(o: Obs, minTTL: int, p: Packet, now: Time, answer: Option<Answer>): Obs {
    if !p.IsUDP() then o
    else
      var cache := if p.srcPort == 53 && answer.Some? && answer.value.name != ""
                   then RecordAddrs(o.cache, minTTL, answer.value.name, answer.value.addrs, now) else o.cache;
      var udpIn := if Fresh(o.udpOut, InTuple(p), now) then o.udpIn else o.udpIn[InTuple(p) := now];
      o.(cache := cache, udpIn := udpIn)
  }

  /** The packet claims its tuple for us. */
  predicate Claims(o: Obs, p: Packet, now: Time) {
    Eligible(p.dst) && p.IsUDP() && !Fresh(o.udpIn, OutTuple(p), now)
  }

  /** The flow an outgoing packet is recorded as, if it opens one. */
  function Opened(lib: Library, o: Obs, p: Packet, now: Time, origin: string): Option<Flow> {
    if !Eligible(p.dst) then None
    else if p.IsTCP() then
      if p.syn && !p.ack then Some(FlowOf(lib, o.cache, p.dst.Unmap(), p.dstPort, "tcp", origin, now)) else None
    else if p.IsUDP() && !Replied(o.udpIn, OutTuple(p), now) then
      Some(FlowOf(lib, o.cache, p.dst.Unmap(), p.dstPort, "udp", origin, now))
    else None
  }

  function Outbound(lib: Library, o: Obs, p: Packet, now: Time, origin: string): Obs {
    var udpOut := if Claims(o, p, now) then o.udpOut[OutTuple(p) := now] else o.udpOut;
    var book := match Opened(lib, o, p, now, origin) case Some(f) => Booked(o.book, f) case None => o.book;
    o.(udpOut := udpOut, book := book)
  }

  function SweptStamps(m: Stamps, now: Time): Stamps {
    map t | t in m && now - m[t] <= REPLY_WINDOW :: m[t]
  }

  function StepObs(lib: Library, minTTL: int, o: Obs, e: Event): Obs {
    match e
    case Seen(p, outgoing, now, origin, answer) =>
      if outgoing then Outbound(lib, o, p, now, origin) else Inbound(o, minTTL, p, now, answer)
    case Sweep(now) => o.(udpIn := SweptStamps(o.udpIn, now), udpOut := SweptStamps(o.udpOut, now))
    case Purge(now) => o.(cache := PurgeOf(o.cache, now))
  }

  function RunObs(lib: Library, minTTL: int, o: Obs, es: seq<Event>): Obs {
    if es == [] then o else StepObs(lib, minTTL, RunObs(lib, minTTL, o, es[..|es| - 1]), es[|es| - 1])
  }

  // ---- the observer ----

  class Observer {
    const dns: Cache
    const lib: Library
    var entries: map<FlowKey, Entry>
    var ips: map<FlowKey, set<IP>>
    var origins: map<FlowKey, map<string, nat>>
    var news: seq<Entry>
    var udpIn: Stamps
    var udpOut: Stamps

    ghost function State(): Obs
      reads this, dns
    {
      Obs(Book(entries, ips, origins, news), udpIn, udpOut, dns.byIP)
    }

    /** Every entry has its set of addresses and its table of origins. */
    ghost predicate Valid()
      reads this
    {
      entries.Keys == ips.Keys && entries.Keys == origins.Keys
    }

    constructor (dns: Cache, lib: Library)
      requires dns.byIP == map[]
      ensures this.dns == dns && this.lib == lib && Valid() && State() == FRESH_OBS
    {
      this.dns, this.lib := dns, lib;
      entries, ips, origins, news, udpIn, udpOut := map[], map[], map[], [], map[], map[];
    }

    /** The name the address goes by, else its text. */
    method Resolve(ip: IP, now: Time) returns (host: string, domain: bool)
      ensures match LookupIn(dns.byIP, ip, now)
        case Some(name) => host == name && domain
        case None => host == lib.addrText(ip) && !domain
    {
      host, domain := lib.addrText(ip), false;
      var name := dns.Lookup(ip, now);
      if name.Some? {
        host, domain := name.value, true;
      }
    }

    /** The locked part of record, and OnNew. */
    method Tally(f: Flow)
      requires Valid()
      modifies this`entries, this`ips, this`origins, this`news
      ensures Valid() && Book(entries, ips, origins, news) == Booked(old(Book(entries, ips, origins, news)), f)
    {
      var k := FlowKey(f.host, f.port, f.proto);
      var seen := k in entries;
      var e := Entry(f.host, f.domain, f.port, f.proto, f.at, f.at, 0);
      var addrs: set<IP> := {};
      var from: map<string, nat> := map[];
      if seen {
        e, addrs, from := entries[k], ips[k], origins[k];
      }
      e := e.(hits := e.hits + 1, last := f.at);
      from := from[f.origin := CountOf(from, f.origin) + 1];
      entries := entries[k := e];
      ips := ips[k := addrs + {f.ip}];
      origins := origins[k := from];
      if !seen {
        news := news + [e];
      }
    }

    method Record(ip: IP, port: uint16, proto: string, origin: string, now: Time)
      requires Valid()
      modifies this`entries, this`ips, this`origins, this`news
      ensures Valid()
      ensures State() == old(State()).(book := Booked(old(State()).book, FlowOf(lib, dns.byIP, ip, port, proto,
              origin, now)))
    {
      var host, domain := Resolve(ip, now);
      Tally(Flow(host, domain, port, proto, ip, origin, now));
    }

    /** The inbound half of Packet. */
    method Incoming(p: Packet, now: Time, answer: Option<Answer>)
      requires Valid()
      modifies this`udpIn, dns
      ensures Valid() && State() == Inbound(old(State()), dns.minTTL, p, now, answer)
    {
      if p.IsUDP() {
        if p.srcPort == 53 && answer.Some? && answer.value.name != "" {
          dns.Record(answer.value, now);
        }
        var t := UdpTuple(p.src, p.srcPort, p.dstPort);
        if t !in udpOut || now - udpOut[t] > REPLY_WINDOW {
          udpIn := udpIn[t := now];
        }
      }
    }

    /** Packet, for a packet of ours. */
    method Outgoing(p: Packet, now: Time, origin: string)
      requires Valid()
      modifies this, dns
      ensures Valid() && State() == Outbound(lib, old(State()), p, now, origin)
    {
      if !p.dst.IsValid() || p.dst.IsLoopback() || p.dst.IsMulticast() || p.dst.IsUnspecified() {
        return;
      }
      if p.IsTCP() {
        if !p.syn || p.ack {
          return;
        }
        Record(p.dst.Unmap(), p.dstPort, "tcp", origin, now);
      } else if p.IsUDP() {
        var replied := Claim(p, now);
        if !replied {
          Record(p.dst.Unmap(), p.dstPort, "udp", origin, now);
        }
      }
    }

    /** Claim the tuple unless the peer's stamp on it counts, and say if this is a reply. */
    method Claim(p: Packet, now: Time) returns (replied: bool)
      requires Valid() && Eligible(p.dst) && p.IsUDP()
      modifies this`udpOut
      ensures Valid() && replied == Replied(udpIn, OutTuple(p), now)
      ensures udpOut == if Claims(old(State()), p, now) then old(udpOut)[OutTuple(p) := now] else old(udpOut)
    {
      var t := UdpTuple(p.dst, p.dstPort, p.srcPort);
      if t !in udpIn || now - udpIn[t] > REPLY_WINDOW {
        udpOut := udpOut[t := now];
      }
      return t in udpIn && now - udpIn[t] < REPLY_WINDOW;
    }

    method Packet(p: Packet, outgoing: bool, now: Time, origin: string, answer: Option<Answer>)
      requires Valid()
      modifies this, dns
      ensures Valid()
      ensures State() == StepObs(lib, dns.minTTL, old(State()), Seen(p, outgoing, now, origin, answer))
    {
      if !outgoing {
        Incoming(p, now, answer);
        return;
      }
      Outgoing(p, now, origin);
    }

    /** One of the two maps Sweep goes over. */
    static method SweepMap(m: Stamps, now: Time) returns (r: Stamps)
      ensures r == SweptStamps(m, now)
    {
      r := m;
      var todo := m.Keys;
      while todo != {}
        invariant todo <= m.Keys
        invariant forall t :: t in r <==> t in m && (t in todo || now - m[t] <= REPLY_WINDOW)
        invariant forall t | t in r :: r[t] == m[t]
        decreases todo
      {
        var t :| t in todo;
        todo := todo - {t};
        if now - m[t] > REPLY_WINDOW {
          r := r - {t};
        }
      }
    }

    method Sweep(now: Time)
      requires Valid()
      modifies this`udpIn, this`udpOut
      ensures Valid() && State() == StepObs(lib, dns.minTTL, old(State()), Event.Sweep(now))
    {
      udpIn := SweepMap(udpIn, now);
      udpOut := SweepMap(udpOut, now);
    }
  }
}
