/** Who opened a UDP flow, and why garbage collection never shows. */
module LearnInitiator {
  import opened Clock
  import opened Wrappers
  import opened Bytes
  import opened Text
  import opened Netip
  import opened Packets
  import opened Dnswatch
  import opened Learn

  // ---- one side at a time ----

  function Distance(a: Time, b: Time): int {
    if a < b then b - a else a - b
  }

  /** A tuple stamped on both sides was stamped more than a window apart. */
  predicate OneSided(o: Obs) {
    forall t | t in o.udpIn && t in o.udpOut :: Distance(o.udpIn[t], o.udpOut[t]) > REPLY_WINDOW
  }

  /** The initiator invariant: in every reachable state, whatever the packets,
      sweeps and clock readings, each tuple has at most one side whose stamp still
      counts. */
  lemma {:induction false} InitiatorInvariant(lib: Library, minTTL: int, es: seq<Event>, t: UdpTuple, now: Time)
    ensures OneSided(RunObs(lib, minTTL, FRESH_OBS, es))
    ensures var o := RunObs(lib, minTTL, FRESH_OBS, es);
            t in o.udpIn && t in o.udpOut && now >= o.udpIn[t] && now >= o.udpOut[t] ==>
              !(Fresh(o.udpIn, t, now) && Fresh(o.udpOut, t, now))
  {
    if es != [] {
      InitiatorInvariant(lib, minTTL, es[..|es| - 1], t, now);
    }
  }

  /** What one outgoing UDP packet to an eligible peer does, by the age of the last
      packet from that peer on the same tuple: within the window it is a reply and
      leaves no trace; past the window it is recorded and claims the tuple; at
      exactly the window it is recorded but claims nothing. */
  lemma {:induction false} OutgoingUdpCases(lib: Library, o: Obs, p: Packet, now: Time, origin: string)
    requires Eligible(p.dst) && p.IsUDP()
    ensures var t := OutTuple(p);
            var reply := t in o.udpIn && now - o.udpIn[t] < REPLY_WINDOW;
            var boundary := t in o.udpIn && now - o.udpIn[t] == REPLY_WINDOW;
            && (Opened(lib, o, p, now, origin).None? <==> reply)
            && (Claims(o, p, now) <==> !reply && !boundary)
            && (reply ==> Outbound(lib, o, p, now, origin) == o)
            && (boundary ==> Outbound(lib, o, p, now, origin).udpOut == o.udpOut)
  {
  }

  // ---- runs ----

  predicate OrderedFrom(es: seq<Event>, start: Time) {
    es == [] || (start <= es[0].now && OrderedFrom(es[1..], es[0].now))
  }

  /** Our packet, and the peer's packet, on a tuple. */
  predicate Ours(e: Event, t: UdpTuple) {
    e.Seen? && e.outgoing && e.p.IsUDP() && Eligible(e.p.dst) && OutTuple(e.p) == t
  }

  predicate Theirs(e: Event, t: UdpTuple) {
    e.Seen? && !e.outgoing && e.p.IsUDP() && InTuple(e.p) == t
  }

  predicate Recorded(lib: Library, o: Obs, e: Event) {
    e.Seen? && e.outgoing && Opened(lib, o, e.p, e.now, e.origin).Some?
  }

  /** Every packet of ours comes within the window of the one before. */
  predicate GapsWithin(es: seq<Event>, t: UdpTuple, last: Time) {
    es == [] ||
    if Ours(es[0], t) then es[0].now - last <= REPLY_WINDOW && GapsWithin(es[1..], t, es[0].now)
    else GapsWithin(es[1..], t, last)
  }

  /** Every packet of ours comes strictly within the window of the peer's last. */
  predicate RepliesWithin(es: seq<Event>, t: UdpTuple, last: Time) {
    es == [] ||
    if Theirs(es[0], t) then RepliesWithin(es[1..], t, es[0].now)
    else (Ours(es[0], t) ==> es[0].now - last < REPLY_WINDOW) && RepliesWithin(es[1..], t, last)
  }

  /** All, or none, of our packets on the tuple are recorded along the run. */
  predicate AllRecorded(lib: Library, minTTL: int, o: Obs, es: seq<Event>, t: UdpTuple)
    decreases |es|
  {
    es == [] ||
    ((Ours(es[0], t) ==> Recorded(lib, o, es[0]))
        && AllRecorded(lib, minTTL, StepObs(lib, minTTL, o, es[0]), es[1..], t))
  }

  predicate NoneRecorded(lib: Library, minTTL: int, o: Obs, es: seq<Event>, t: UdpTuple)
    decreases |es|
  {
    es == [] ||
    ((Ours(es[0], t) ==> !Recorded(lib, o, es[0]))
        && NoneRecorded(lib, minTTL, StepObs(lib, minTTL, o, es[0]), es[1..], t))
  }

  /** We hold the tuple: our last packet stamped it, and no stamp of theirs counted
      then. */
  predicate WeHold(o: Obs, t: UdpTuple, last: Time) {
    t in o.udpOut && o.udpOut[t] == last && !Fresh(o.udpIn, t, last)
  }

  /** They hold it: their last packet stamped it, unless it has been swept since,
      and no stamp of ours counts any more. */
  predicate TheyHold(o: Obs, t: UdpTuple, last: Time, now: Time) {
    !Fresh(o.udpOut, t, now) && ((t in o.udpIn && o.udpIn[t] == last) || now - last > REPLY_WINDOW)
  }

  lemma {:induction false} HeldByUs(lib: Library, minTTL: int, o: Obs, es: seq<Event>, t: UdpTuple, last: Time,
          now: Time)
    requires OrderedFrom(es, now) && GapsWithin(es, t, last) && now >= last
    requires WeHold(o, t, last) || now - last > REPLY_WINDOW
    ensures AllRecorded(lib, minTTL, o, es, t)
    decreases |es|
  {
    if es != [] {
      var e := es[0];
      var o1 := StepObs(lib, minTTL, o, e);
      if Ours(e, t) {
        HeldByUs(lib, minTTL, o1, es[1..], t, e.now, e.now);
      } else {
        HeldByUs(lib, minTTL, o1, es[1..], t, last, e.now);
      }
    }
  }

  lemma {:induction false} HeldByThem(lib: Library, minTTL: int, o: Obs, es: seq<Event>, t: UdpTuple, last: Time,
          now: Time)
    requires OrderedFrom(es, now) && RepliesWithin(es, t, last) && now >= last
    requires TheyHold(o, t, last, now)
    ensures NoneRecorded(lib, minTTL, o, es, t)
    decreases |es|
  {
    if es != [] {
      var e := es[0];
      var o1 := StepObs(lib, minTTL, o, e);
      if Theirs(e, t) {
        HeldByThem(lib, minTTL, o1, es[1..], t, e.now, e.now);
      } else {
        HeldByThem(lib, minTTL, o1, es[1..], t, last, e.now);
      }
    }
  }

  /** If we send first, and keep our gaps within the window, every packet of ours
      on the tuple is recorded, whatever the peer answers and whatever else, sweeps
      and purges included, happens in between. */
  lemma {:induction false} FirstSenderIsRecorded(lib: Library, minTTL: int, o: Obs, first: Event, es: seq<Event>,
          t: UdpTuple)
    requires Ours(first, t) && !Fresh(o.udpIn, t, first.now)
    requires OrderedFrom(es, first.now) && GapsWithin(es, t, first.now)
    ensures AllRecorded(lib, minTTL, o, [first] + es, t)
  {
    assert ([first] + es)[1..] == es;
    HeldByUs(lib, minTTL, StepObs(lib, minTTL, o, first), es, t, first.now, first.now);
  }

  /** If the peer sends first, and each reply of ours comes strictly within the
      window of its last packet, none of ours on the tuple is recorded. */
  lemma {:induction false} RepliesAreNotRecorded(lib: Library, minTTL: int, o: Obs, first: Event, es: seq<Event>,
          t: UdpTuple)
    requires Theirs(first, t) && !Fresh(o.udpOut, t, first.now)
    requires OrderedFrom(es, first.now) && RepliesWithin(es, t, first.now)
    ensures NoneRecorded(lib, minTTL, o, [first] + es, t)
  {
    assert ([first] + es)[1..] == es;
    HeldByThem(lib, minTTL, StepObs(lib, minTTL, o, first), es, t, first.now, first.now);
  }

  // ---- garbage collection ----

  /** Two stamp tables that no test from `now` on can tell apart. */
  ghost predicate SameStamps(a: Stamps, b: Stamps, now: Time) {
    forall t | Fresh(a, t, now) || Fresh(b, t, now) :: t in a && t in b && a[t] == b[t]
  }

  /** Two caches that no lookup from `now` on can tell apart. */
  predicate SameCache(a: CacheMap, b: CacheMap, now: Time) {
    && (forall ip | ip in a && now <= a[ip].exp :: ip in b && b[ip] == a[ip])
    && (forall ip | ip in b && now <= b[ip].exp :: ip in a && a[ip] == b[ip])
  }

  ghost predicate SameFrom(a: Obs, b: Obs, now: Time) {
    a.book == b.book && SameStamps(a.udpIn, b.udpIn, now) && SameStamps(a.udpOut, b.udpOut, now)
    && SameCache(a.cache, b.cache, now)
  }

  lemma {:induction false} SameLater(a: Obs, b: Obs, now: Time, later: Time)
    requires SameFrom(a, b, now) && now <= later
    ensures SameFrom(a, b, later)
  {
    forall t | Fresh(a.udpIn, t, later) || Fresh(b.udpIn, t, later)
      ensures t in a.udpIn && t in b.udpIn && a.udpIn[t] == b.udpIn[t]
    {
      assert Fresh(a.udpIn, t, now) || Fresh(b.udpIn, t, now);
    }
    forall t | Fresh(a.udpOut, t, later) || Fresh(b.udpOut, t, later)
      ensures t in a.udpOut && t in b.udpOut && a.udpOut[t] == b.udpOut[t]
    {
      assert Fresh(a.udpOut, t, now) || Fresh(b.udpOut, t, now);
    }
  }

  lemma {:induction false} SameLookup(a: CacheMap, b: CacheMap, now: Time, ip: IP)
    requires SameCache(a, b, now)
    ensures LookupIn(a, ip, now) == LookupIn(b, ip, now)
  {
  }

  lemma {:induction false} SameRecord(a: CacheMap, b: CacheMap, now: Time, minTTL: int, name: string,
          addrs: seq<AddrTTL>, at: Time)
    requires SameCache(a, b, now)
    ensures SameCache(RecordAddrs(a, minTTL, name, addrs, at), RecordAddrs(b, minTTL, name, addrs, at), now)
    decreases |addrs|
  {
    if addrs != [] {
      var e := CacheEntry(name, at + Stretch(addrs[0].ttl, minTTL));
      SameRecord(a[addrs[0].ip := e], b[addrs[0].ip := e], now, minTTL, name, addrs[1..], at);
    }
  }

  /** Stamping the same tuple in both tables. */
  lemma {:induction false} SameStamped(a: Stamps, b: Stamps, now: Time, t: UdpTuple)
    requires SameStamps(a, b, now)
    ensures SameStamps(a[t := now], b[t := now], now)
    ensures Fresh(a, t, now) == Fresh(b, t, now) && Replied(a, t, now) == Replied(b, t, now)
  {
    assert Fresh(a, t, now) || Fresh(b, t, now) ==> t in a && t in b && a[t] == b[t];
    assert Replied(a, t, now) ==> Fresh(a, t, now);
    assert Replied(b, t, now) ==> Fresh(b, t, now);
    var a1, b1 := a[t := now], b[t := now];
    forall u | Fresh(a1, u, now) || Fresh(b1, u, now) ensures u in a1 && u in b1 && a1[u] == b1[u] {
      assert u == t || Fresh(a, u, now) || Fresh(b, u, now);
    }
  }

  lemma {:induction false} InboundKeepsSame(minTTL: int, a: Obs, b: Obs, p: Packet, now: Time, answer: Option<Answer>)
    requires SameFrom(a, b, now)
    ensures SameFrom(Inbound(a, minTTL, p, now, answer), Inbound(b, minTTL, p, now, answer), now)
  {
    SameStamped(a.udpOut, b.udpOut, now, InTuple(p));
    SameStamped(a.udpIn, b.udpIn, now, InTuple(p));
    if answer.Some? {
      SameRecord(a.cache, b.cache, now, minTTL, answer.value.name, answer.value.addrs, now);
    }
  }

  lemma {:induction false} OutboundKeepsSame(lib: Library, a: Obs, b: Obs, p: Packet, now: Time, origin: string)
    requires SameFrom(a, b, now)
    ensures SameFrom(Outbound(lib, a, p, now, origin), Outbound(lib, b, p, now, origin), now)
  {
    SameStamped(a.udpIn, b.udpIn, now, OutTuple(p));
    SameStamped(a.udpOut, b.udpOut, now, OutTuple(p));
    if Eligible(p.dst) {
      SameLookup(a.cache, b.cache, now, p.dst.Unmap());
      assert Opened(lib, a, p, now, origin) == Opened(lib, b, p, now, origin);
    }
  }

  lemma {:induction false} SeenKeepsSame(lib: Library, minTTL: int, a: Obs, b: Obs, e: Event)
    requires e.Seen? && SameFrom(a, b, e.now)
    ensures SameFrom(StepObs(lib, minTTL, a, e), StepObs(lib, minTTL, b, e), e.now)
  {
    if e.outgoing {
      OutboundKeepsSame(lib, a, b, e.p, e.now, e.origin);
    } else {
      InboundKeepsSame(minTTL, a, b, e.p, e.now, e.answer);
    }
  }

  lemma {:induction false} CollectKeepsSame(lib: Library, minTTL: int, a: Obs, b: Obs, e: Event)
    requires !e.Seen? && SameFrom(a, b, e.now)
    ensures SameFrom(StepObs(lib, minTTL, a, e), b, e.now)
  {
  }

  /** The packets of a run, without the sweeps and purges. */
  function PacketsOnly(es: seq<Event>): seq<Event> {
    if es == [] then []
    else PacketsOnly(es[..|es| - 1]) + (if es[|es| - 1].Seen? then [es[|es| - 1]] else [])
  }

  predicate Ordered(es: seq<Event>) {
    forall i, j | 0 <= i < j < |es| :: es[i].now <= es[j].now
  }

  function EndTime(es: seq<Event>, start: Time): Time {
    if es == [] then start else es[|es| - 1].now
  }

  /** Garbage collection is invisible: with the clock not going back, leaving out
      every sweep and purge of a run gives the same book, and a state no later
      packet, and no later lookup, can tell from the one the run ends in. */
  lemma {:induction false} CollectionIsInvisible(lib: Library, minTTL: int, o: Obs, es: seq<Event>, start: Time)
    requires Ordered(es) && (es != [] ==> start <= es[0].now)
    ensures var a, b := RunObs(lib, minTTL, o, es), RunObs(lib, minTTL, o, PacketsOnly(es));
            && a.book == b.book && SameFrom(a, b, EndTime(es, start))
            && forall ip: IP, now: Time | now >= EndTime(es, start) ::
                LookupIn(a.cache, ip, now) == LookupIn(b.cache, ip, now)
  {
    if es != [] {
      var n := |es| - 1;
      var e := es[n];
      CollectionIsInvisible(lib, minTTL, o, es[..n], start);
      var a, b := RunObs(lib, minTTL, o, es[..n]), RunObs(lib, minTTL, o, PacketsOnly(es[..n]));
      SameLater(a, b, EndTime(es[..n], start), e.now);
      if e.Seen? {
        assert PacketsOnly(es)[..|PacketsOnly(es)| - 1] == PacketsOnly(es[..n]);
        SeenKeepsSame(lib, minTTL, a, b, e);
      } else {
        assert PacketsOnly(es) == PacketsOnly(es[..n]);
        CollectKeepsSame(lib, minTTL, a, b, e);
      }
    }
    var a, b := RunObs(lib, minTTL, o, es), RunObs(lib, minTTL, o, PacketsOnly(es));
    forall ip: IP, now: Time | now >= EndTime(es, start)
      ensures LookupIn(a.cache, ip, now) == LookupIn(b.cache, ip, now)
    {
      SameLater(a, b, EndTime(es, start), now);
      SameLookup(a.cache, b.cache, now, ip);
    }
  }
}
