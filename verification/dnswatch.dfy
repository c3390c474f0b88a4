/** internal/dnswatch/cache.go: which name an address last resolved from. DNS
    messages arrive here already parsed. */
module Dnswatch {
  import opened Clock
  import opened Wrappers
  import opened Bytes
  import opened Netip

  datatype CacheEntry = CacheEntry(name: string, exp: Time)

  /** One A or AAAA record. */
  datatype AddrTTL = AddrTTL(ip: IP, ttl: int)

  datatype Answer = Answer(name: string, addrs: seq<AddrTTL>)

  type CacheMap = map<IP, CacheEntry>

  function Stretch(ttl: int, minTTL: int): (r: int)
    ensures r >= ttl && r >= minTTL && (r == ttl || r == minTTL)
  {
    if ttl < minTTL then minTTL else ttl
  }

  function RecordAddrs(m: CacheMap, minTTL: int, name: string, addrs: seq<AddrTTL>, now: Time): CacheMap
    decreases |addrs|
  {
    if addrs == [] then m
    else
      var ad := addrs[0];
      RecordAddrs(m[ad.ip := CacheEntry(name, now + Stretch(ad.ttl, minTTL))], minTTL, name, addrs[1..], now)
  }

  /** An entry is good up to and including the instant it expires. */
  function LookupIn(m: CacheMap, ip: IP, now: Time): Option<string> {
    if ip.Unmap() in m && now <= m[ip.Unmap()].exp then Some(m[ip.Unmap()].name) else None
  }

  function PurgeOf(m: CacheMap, now: Time): CacheMap {
    map ip | ip in m && now <= m[ip].exp :: m[ip]
  }

  class Cache {
    const minTTL: int
    var byIP: CacheMap

    constructor (minTTL: int)
      ensures this.minTTL == minTTL && byIP == map[]
    {
      this.minTTL := minTTL;
      byIP := map[];
    }

    /** Keys are stored as they come, mapped or not. */
    method Put(ip: IP, name: string, exp: Time)
      modifies this
      ensures byIP == old(byIP)[ip := CacheEntry(name, exp)]
    {
      byIP := byIP[ip := CacheEntry(name, exp)];
    }

    method Record(a: Answer, now: Time)
      modifies this
      ensures byIP == RecordAddrs(old(byIP), minTTL, a.name, a.addrs, now)
    {
      assert a.addrs[0..] == a.addrs;
      for i := 0 to |a.addrs|
        invariant RecordAddrs(byIP, minTTL, a.name, a.addrs[i..], now)
               == RecordAddrs(old(byIP), minTTL, a.name, a.addrs, now)
      {
        var ttl := a.addrs[i].ttl;
        if ttl < minTTL {
          ttl := minTTL;
        }
        assert a.addrs[i..][0] == a.addrs[i] && a.addrs[i..][1..] == a.addrs[i + 1..];
        Put(a.addrs[i].ip, a.name, now + ttl);
      }
      assert a.addrs[|a.addrs|..] == [];
    }

    method Lookup(ip: IP, now: Time) returns (name: Option<string>)
      ensures name == LookupIn(byIP, ip, now)
    {
      var key := ip.Unmap();
      if key !in byIP || now > byIP[key].exp {
        return None;
      }
      return Some(byIP[key].name);
    }

    method Purge(now: Time)
      modifies this
      ensures byIP == PurgeOf(old(byIP), now)
    {
      var todo := byIP.Keys;
      while todo != {}
        invariant todo <= old(byIP).Keys
        invariant forall ip :: ip in byIP <==> ip in old(byIP) && (ip in todo || now <= old(byIP)[ip].exp)
        invariant forall ip | ip in byIP :: byIP[ip] == old(byIP)[ip]
        decreases todo
      {
        var ip :| ip in todo;
        todo := todo - {ip};
        if now > byIP[ip].exp {
          byIP := byIP - {ip};
        }
      }
    }
  }

  // ---- the cache against the history of answers ----

  /** One address of one answer, as it came in. */
  datatype Fact = Fact(name: string, ip: IP, ttl: int, at: Time)
  {
    function Deadline(minTTL: int): Time { at + Stretch(ttl, minTTL) }
  }

  function FactsOf(name: string, addrs: seq<AddrTTL>, now: Time): seq<Fact> {
    seq(|addrs|, k requires 0 <= k < |addrs| => Fact(name, addrs[k].ip, addrs[k].ttl, now))
  }

  /** The last fact about an address, mapped or not. */
  function LastFact(log: seq<Fact>, ip: IP): (r: Option<nat>)
    ensures r.Some? ==> r.value < |log| && log[r.value].ip.Unmap() == ip.Unmap()
                        && forall k | r.value < k < |log| :: log[k].ip.Unmap() != ip.Unmap()
    ensures r.None? ==> forall k | 0 <= k < |log| :: log[k].ip.Unmap() != ip.Unmap()
  {
    if log == [] then None
    else
      var n := |log| - 1;
      if log[n].ip.Unmap() == ip.Unmap() then Some(n) else LastFact(log[..n], ip)
  }

  /** What Lookup is for: the name of the last answer, while it is fresh. */
  function HistoryLookup(log: seq<Fact>, minTTL: int, ip: IP, now: Time): Option<string> {
    match LastFact(log, ip)
    case None => None
    case Some(k) => if now <= log[k].Deadline(minTTL) then Some(log[k].name) else None
  }

  predicate Unmapped(log: seq<Fact>) {
    forall fact | fact in log :: !fact.ip.Is4In6()
  }

  /** From time `since` on, the cache answers as the history does. */
  ghost predicate Refines(m: CacheMap, log: seq<Fact>, minTTL: int, since: Time) {
    forall ip: IP, now: Time | now >= since :: LookupIn(m, ip, now) == HistoryLookup(log, minTTL, ip, now)
  }

  /** Each cached entry is an earlier fact. */
  predicate EntriesAreFacts(m: CacheMap, log: seq<Fact>, minTTL: int) {
    forall ip | ip in m :: exists fact | fact in log ::
      fact.ip == ip && fact.name == m[ip].name && fact.Deadline(minTTL) == m[ip].exp
  }

  lemma {:induction false} OneFactRefines(m: CacheMap, log: seq<Fact>, minTTL: int, since: Time, fact: Fact)
    requires Refines(m, log, minTTL, since) && !fact.ip.Is4In6()
    ensures Refines(m[fact.ip := CacheEntry(fact.name, fact.Deadline(minTTL))], log + [fact], minTTL, since)
  {
    var m1, log1 := m[fact.ip := CacheEntry(fact.name, fact.Deadline(minTTL))], log + [fact];
    assert log1[..|log1| - 1] == log && fact.ip.Unmap() == fact.ip;
    forall ip: IP, t: Time | t >= since ensures LookupIn(m1, ip, t) == HistoryLookup(log1, minTTL, ip, t) {
      assert LookupIn(m, ip, t) == HistoryLookup(log, minTTL, ip, t);
    }
  }

  lemma {:induction false} RecordRefines(m: CacheMap, log: seq<Fact>, minTTL: int, since: Time, name: string,
          addrs: seq<AddrTTL>, now: Time)
    requires Refines(m, log, minTTL, since) && Unmapped(FactsOf(name, addrs, now))
    ensures Refines(RecordAddrs(m, minTTL, name, addrs, now), log + FactsOf(name, addrs, now), minTTL, since)
    decreases |addrs|
  {
    var facts := FactsOf(name, addrs, now);
    if addrs == [] {
      assert log + facts == log;
    } else {
      var fact := facts[0];
      assert fact in facts;
      var m1 := m[addrs[0].ip := CacheEntry(name, fact.Deadline(minTTL))];
      var log1 := log + [fact];
      OneFactRefines(m, log, minTTL, since, fact);
      assert facts[1..] == FactsOf(name, addrs[1..], now);
      assert forall f | f in facts[1..] :: f in facts;
      RecordRefines(m1, log1, minTTL, since, name, addrs[1..], now);
      assert log1 + facts[1..] == log + facts;
    }
  }

  lemma {:induction false} PurgeRefines(m: CacheMap, log: seq<Fact>, minTTL: int, since: Time, now: Time)
    requires Refines(m, log, minTTL, since) && now >= since
    ensures Refines(PurgeOf(m, now), log, minTTL, now)
  {
    forall ip: IP, t: Time | t >= now
      ensures LookupIn(PurgeOf(m, now), ip, t) == HistoryLookup(log, minTTL, ip, t)
    {
      assert LookupIn(m, ip, t) == HistoryLookup(log, minTTL, ip, t);
    }
  }

  // ---- whole runs of the cache ----

  datatype CacheEvent = Record(answer: Answer, now: Time) | Purge(now: Time)

  function CacheStep(m: CacheMap, minTTL: int, e: CacheEvent): CacheMap {
    match e
    case Record(a, now) => RecordAddrs(m, minTTL, a.name, a.addrs, now)
    case Purge(now) => PurgeOf(m, now)
  }

  function CacheRun(minTTL: int, es: seq<CacheEvent>): CacheMap {
    if es == [] then map[] else CacheStep(CacheRun(minTTL, es[..|es| - 1]), minTTL, es[|es| - 1])
  }

  function CacheLog(es: seq<CacheEvent>): seq<Fact> {
    if es == [] then []
    else
      CacheLog(es[..|es| - 1]) +
      match es[|es| - 1]
      case Record(a, now) => FactsOf(a.name, a.addrs, now)
      case Purge(_) => []
  }

  predicate Nondecreasing(es: seq<CacheEvent>) {
    forall i, j | 0 <= i < j < |es| :: es[i].now <= es[j].now
  }

  function LastTime(es: seq<CacheEvent>, start: Time): Time {
    if es == [] then start else es[|es| - 1].now
  }

  /** The cache refines history: after any run of answers and purges with the
      clock not going back, a lookup at any later time finds the name of the
      last answer for the address, as long as its stretched TTL has not run out. */
  lemma {:induction false} CacheRefinesHistory(minTTL: int, es: seq<CacheEvent>, start: Time)
    requires Nondecreasing(es) && Unmapped(CacheLog(es)) && (es != [] ==> start <= es[0].now)
    ensures Refines(CacheRun(minTTL, es), CacheLog(es), minTTL, LastTime(es, start))
  {
    if es != [] {
      var n := |es| - 1;
      var before := es[..n];
      var m, log := CacheRun(minTTL, before), CacheLog(before);
      var last := match es[n] case Record(a, now) => FactsOf(a.name, a.addrs, now) case Purge(_) => [];
      assert CacheLog(es) == log + last;
      assert forall f | f in log :: f in CacheLog(es);
      CacheRefinesHistory(minTTL, before, start);
      var since := LastTime(before, start);
      assert since <= es[n].now;
      match es[n]
      case Record(a, now) =>
        assert forall f | f in last :: f in CacheLog(es);
        RecordRefines(m, log, minTTL, since, a.name, a.addrs, now);
      case Purge(now) =>
        PurgeRefines(m, log, minTTL, since, now);
        assert log + last == log;
    }
  }

  /** What recording one address does to every later lookup: those of the address itself,
      unmapped, find its name until it runs out, and all others find what they did. */
  lemma {:induction false} RecordedLookup(m: CacheMap, minTTL: int, name: string, ad: AddrTTL, at: Time, ip: IP,
          now: Time)
    ensures LookupIn(RecordAddrs(m, minTTL, name, [ad], at), ip, now) ==
              if ip.Unmap() != ad.ip then LookupIn(m, ip, now)
              else if now <= at + Stretch(ad.ttl, minTTL) then Some(name) else None
  {
    assert [ad][1..] == [];
    var m1: CacheMap := m[ad.ip := CacheEntry(name, at + Stretch(ad.ttl, minTTL))];
    assert RecordAddrs(m1, minTTL, name, [], at) == m1;
  }

  /** Record keeps the key as it comes and Lookup unmaps the one it asks for, so that
      whatever the cache holds, a newly recorded address is found under its new name exactly
      when it is not IPv4-mapped or went by that name before. */
  lemma {:induction false} RecordedIsFoundIff(m: CacheMap, minTTL: int, name: string, ad: AddrTTL, now: Time)
    requires minTTL >= 0
    ensures LookupIn(RecordAddrs(m, minTTL, name, [ad], now), ad.ip, now) == Some(name) <==>
              !ad.ip.Is4In6() || LookupIn(m, ad.ip, now) == Some(name)
  {
    RecordedLookup(m, minTTL, name, ad, now, ad.ip, now);
  }
}
