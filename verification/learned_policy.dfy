/** From packets to policy: what an observer's run writes, when it loads, and what it
    permits in terms of the flows that were recorded. */
module LearnedPolicy {
  import opened Clock
  import opened Wrappers
  import opened Bytes
  import opened Text
  import opened Netip
  import opened Seqs
  import opened Packets
  import opened Policy
  import opened PolicyLaws
  import opened Dnswatch
  import opened Learn
  import opened LearnBook
  import opened Write
  import opened WriteLaws
  import opened WritePermits

  function FlowsOfRun(lib: Library, minTTL: int, es: seq<Event>): seq<Flow> {
    FlowsOf(lib, minTTL, FRESH_OBS, es)
  }

  /** `rs` is what Entries gives after a run. */
  predicate Collects(lib: Library, minTTL: int, es: seq<Event>, rs: seq<Report>) {
    var b := RunObs(lib, minTTL, FRESH_OBS, es).book;
    b.entries.Keys == b.ips.Keys == b.origins.Keys && Sorted(rs) && Lists(rs, b, b.entries.Keys)
  }

  /** The entries WritePolicy is given. */
  function EntriesOf(rs: seq<Report>): seq<Entry> {
    seq(|rs|, i requires 0 <= i < |rs| => rs[i].entry)
  }

  // ---- entries and flows ----

  predicate WellShaped(lib: Library, f: Flow) {
    (f.proto == "tcp" || f.proto == "udp") && (!f.domain ==> f.host == lib.addrText(f.ip)) && !f.ip.Is4In6()
  }

  lemma {:induction false} FlowAtShape(lib: Library, o: Obs, e: Event)
    ensures FlowAt(lib, o, e).Some? ==> WellShaped(lib, FlowAt(lib, o, e).value)
  {
  }

  /** A flow is over tcp or udp, and one without a name bears the text of its address,
      which is never IPv4-mapped. */
  lemma {:induction false} FlowShape(lib: Library, minTTL: int, es: seq<Event>)
    ensures forall f | f in FlowsOfRun(lib, minTTL, es) :: WellShaped(lib, f)
  {
    if es != [] {
      var before, e := es[..|es| - 1], es[|es| - 1];
      FlowShape(lib, minTTL, before);
      FlowAtShape(lib, RunObs(lib, minTTL, FRESH_OBS, before), e);
    }
  }

  /** An entry is that of a flow, and of the same kind. */
  lemma {:induction false} EntryHasFlow(lib: Library, minTTL: int, es: seq<Event>, rs: seq<Report>, e: Entry)
    returns (f: Flow)
    requires Collects(lib, minTTL, es, rs) && e in EntriesOf(rs)
    ensures f in FlowsOfRun(lib, minTTL, es) && f.Key() == EntryKey(e) && f.domain == e.domain
  {
    var flows, k := FlowsOfRun(lib, minTTL, es), EntryKey(e);
    BookIsFlows(lib, minTTL, es);
    var i :| 0 <= i < |rs| && e == rs[i].entry;
    assert rs[i] in rs;
    EntryExact(flows, k);
    var j: nat :| j < |flows| && FirstOf(FlowKeys(flows), k, j) && e.domain == flows[j].domain;
    f := flows[j];
  }

  /** A flow has an entry. */
  lemma {:induction false} FlowHasEntry(lib: Library, minTTL: int, es: seq<Event>, rs: seq<Report>, f: Flow)
    returns (e: Entry)
    requires Collects(lib, minTTL, es, rs) && f in FlowsOfRun(lib, minTTL, es)
    ensures e in EntriesOf(rs) && EntryKey(e) == f.Key()
  {
    var flows, k := FlowsOfRun(lib, minTTL, es), f.Key();
    BookIsFlows(lib, minTTL, es);
    BookKeys(flows, k);
    EntryExact(flows, k);
    var r := ReportOf(BookOf(flows), k);
    var i :| 0 <= i < |rs| && rs[i] == r;
    e := EntriesOf(rs)[i];
  }

  /** What an observer collects is over tcp or udp, to a name or to the text of an address. */
  lemma {:induction false} RunIsCollected(lib: Library, minTTL: int, es: seq<Event>, rs: seq<Report>)
    requires Collects(lib, minTTL, es, rs)
    ensures Collected(lib, EntriesOf(rs))
  {
    FlowShape(lib, minTTL, es);
    forall e | e in EntriesOf(rs)
      ensures (e.proto == "tcp" || e.proto == "udp") && (!e.domain ==> IsAddress(lib, e.host))
    {
      var f := EntryHasFlow(lib, minTTL, es, rs, e);
    }
  }

  /** Names come first in the list, so that a host that is both is taken for a name. */
  lemma {:induction false} NamesLead(rs: seq<Report>, j: nat) returns (i: nat)
    requires Sorted(rs) && j < |rs| && rs[j].entry.domain
    ensures i < |rs| && Leads(EntriesOf(rs), i) && rs[i].entry.host == rs[j].entry.host && rs[i].entry.domain
  {
    var entries := EntriesOf(rs);
    i := j;
    while !Leads(entries, i)
      invariant i < |rs| && entries[i].host == rs[j].entry.host && entries[i].domain
      decreases i
    {
      var k :| 0 <= k < i && GoesTo(entries[k], entries[i].host);
      assert Before(rs[k].entry, rs[i].entry);
      i := k;
    }
  }

  /** Nothing but the metadata address was seen on port 0, and a rule can be made for
      every name seen. */
  predicate AllLoad(entries: seq<Entry>) {
    forall e | e in entries && !IsMetadata(e) :: e.port != 0 && (e.domain ==> NameLoads(e.host))
  }

  predicate EachLoads(entries: seq<Entry>) {
    forall i: nat | i < |entries| && !IsMetadata(entries[i]) :: EntryLoads(entries, i)
  }

  lemma {:induction false} EachLoadsIsAll(rs: seq<Report>)
    requires Sorted(rs)
    ensures EachLoads(EntriesOf(rs)) <==> AllLoad(EntriesOf(rs))
  {
    var entries := EntriesOf(rs);
    if AllLoad(entries) {
      forall i: nat | i < |entries| && !IsMetadata(entries[i]) ensures EntryLoads(entries, i) {
        assert entries[i] in entries;
      }
    }
    if EachLoads(entries) {
      forall j: nat | j < |entries| && !IsMetadata(entries[j])
        ensures entries[j].port != 0 && (entries[j].domain ==> NameLoads(entries[j].host))
      {
        assert EntryLoads(entries, j);
        if entries[j].domain {
          var i := NamesLead(rs, j);
          assert EntryLoads(entries, i);
        }
      }
    }
  }

  /** When the policy of a run loads. */
  lemma {:induction false} RunLoadsIff(lib: Library, minTTL: int, es: seq<Event>, rs: seq<Report>)
    requires Usable(lib) && Collects(lib, minTTL, es, rs)
    ensures SetOf(lib, FileOf(EntriesOf(rs))).Ok? <==> AllLoad(EntriesOf(rs))
  {
    RunIsCollected(lib, minTTL, es, rs);
    LearnedPolicyLoadsIff(lib, EntriesOf(rs));
    EachLoadsIsAll(rs);
  }

  // ---- runs with ordinary answers ----

  /** A name that is plain, and no address. */
  ghost predicate Ordinary(lib: Library, name: string) {
    PlainName(name) && !IsAddress(lib, name)
  }

  /** Every answer of the run is for an ordinary name. */
  ghost predicate OrdinaryAnswers(lib: Library, es: seq<Event>) {
    forall e | e in es :: e.Seen? && e.answer.Some? && e.answer.value.name != "" ==> Ordinary(lib, e.answer.value.name)
  }

  /** Every cached name is one of `names`. */
  ghost predicate NamesIn(m: CacheMap, names: iset<string>) {
    forall ip | ip in m :: m[ip].name in names
  }

  lemma {:induction false} RecordNames(m: CacheMap, minTTL: int, name: string, addrs: seq<AddrTTL>, now: Time,
          names: iset<string>)
    requires NamesIn(m, names) && name in names
    ensures NamesIn(RecordAddrs(m, minTTL, name, addrs, now), names)
    decreases |addrs|
  {
    if addrs != [] {
      var m1 := m[addrs[0].ip := CacheEntry(name, now + Stretch(addrs[0].ttl, minTTL))];
      RecordNames(m1, minTTL, name, addrs[1..], now, names);
    }
  }

  /** The name an event brings, if any. */
  predicate Brings(e: Event, name: string) {
    e.Seen? && e.answer.Some? && e.answer.value.name == name && name != ""
  }

  lemma {:induction false} StepNames(lib: Library, minTTL: int, o: Obs, e: Event, names: iset<string>)
    requires NamesIn(o.cache, names) && forall n | Brings(e, n) :: n in names
    ensures NamesIn(StepObs(lib, minTTL, o, e).cache, names)
  {
    if e.Seen? && e.answer.Some? && e.answer.value.name != "" {
      assert Brings(e, e.answer.value.name);
      RecordNames(o.cache, minTTL, e.answer.value.name, e.answer.value.addrs, e.now, names);
    }
  }

  lemma {:induction false} FlowNames(lib: Library, o: Obs, e: Event, names: iset<string>)
    requires NamesIn(o.cache, names) && FlowAt(lib, o, e).Some? && FlowAt(lib, o, e).value.domain
    ensures FlowAt(lib, o, e).value.host in names
  {
    var ip := e.p.dst.Unmap();
    assert LookupIn(o.cache, ip, e.now).Some?;
    assert ip.Unmap() in o.cache;
  }

  lemma {:induction false} RunNames(lib: Library, minTTL: int, es: seq<Event>, names: iset<string>)
    requires forall e, n | e in es && Brings(e, n) :: n in names
    ensures NamesIn(RunObs(lib, minTTL, FRESH_OBS, es).cache, names)
    ensures forall f | f in FlowsOfRun(lib, minTTL, es) :: f.domain ==> f.host in names
  {
    if es != [] {
      var before, e := es[..|es| - 1], es[|es| - 1];
      assert e in es && forall x | x in before :: x in es;
      RunNames(lib, minTTL, before, names);
      var o := RunObs(lib, minTTL, FRESH_OBS, before);
      StepNames(lib, minTTL, o, e, names);
      if FlowAt(lib, o, e).Some? && FlowAt(lib, o, e).value.domain {
        FlowNames(lib, o, e, names);
      }
    }
  }

  lemma {:induction false} RunOrdinary(lib: Library, minTTL: int, es: seq<Event>)
    requires OrdinaryAnswers(lib, es)
    ensures forall f | f in FlowsOfRun(lib, minTTL, es) :: f.domain ==> Ordinary(lib, f.host)
  {
    RunNames(lib, minTTL, es, iset n | Ordinary(lib, n));
  }

  /** Then names are plain, and no host is both a name and an address. */
  lemma {:induction false} RunIsObserved(lib: Library, minTTL: int, es: seq<Event>, rs: seq<Report>)
    requires Collects(lib, minTTL, es, rs) && OrdinaryAnswers(lib, es)
    ensures Observed(lib, EntriesOf(rs))
  {
    var entries := EntriesOf(rs);
    RunIsCollected(lib, minTTL, es, rs);
    RunOrdinary(lib, minTTL, es);
    forall e | e in entries && e.domain ensures Ordinary(lib, e.host) {
      var f := EntryHasFlow(lib, minTTL, es, rs, e);
    }
  }

  // ---- what was recorded, and what is permitted ----

  /** The flow went to `d`: to its name, or to its address without a name. */
  predicate FlowIsTo(f: Flow, d: Dest) {
    if f.domain then f.host == NormalizeDomain(d.domain) else d.ip.IsValid() && f.ip == d.ip.Unmap()
  }

  predicate PortRecorded(flows: seq<Flow>, h: string, port: uint16) {
    exists f | f in flows :: f.host == h && f.port == port
  }

  predicate ProtoRecorded(flows: seq<Flow>, h: string, proto: string) {
    exists f | f in flows :: f.host == h && f.proto == proto
  }

  /** Some recorded flow went to `d`, and its host was used on this port and over this
      protocol. */
  predicate Recorded(flows: seq<Flow>, d: Dest) {
    exists f | f in flows :: FlowIsTo(f, d) && PortRecorded(flows, f.host, d.port)
        && ProtoUsed(flows, f.host, ToLower(d.proto))
  }

  predicate ProtoUsed(flows: seq<Flow>, h: string, p: string) {
    p == "" || ProtoRecorded(flows, h, p) || (ProtoRecorded(flows, h, "tcp") && ProtoRecorded(flows, h, "udp"))
  }

  lemma {:induction false} FlowIsUsed(lib: Library, minTTL: int, es: seq<Event>, rs: seq<Report>, f: Flow)
    requires Collects(lib, minTTL, es, rs) && f in FlowsOfRun(lib, minTTL, es) && f.host != METADATA_TEXT
    ensures HasPort(EntriesOf(rs), f.host, f.port) && HasProto(EntriesOf(rs), f.host, f.proto)
  {
    var e := FlowHasEntry(lib, minTTL, es, rs, f);
    assert GoesTo(e, f.host);
  }

  lemma {:induction false} EntryIsRecorded(lib: Library, minTTL: int, es: seq<Event>, rs: seq<Report>, e: Entry)
    requires Collects(lib, minTTL, es, rs) && e in EntriesOf(rs)
    ensures PortRecorded(FlowsOfRun(lib, minTTL, es), e.host, e.port)
    ensures ProtoRecorded(FlowsOfRun(lib, minTTL, es), e.host, e.proto)
  {
    var f := EntryHasFlow(lib, minTTL, es, rs, e);
  }

  lemma {:induction false} RecordedIsPermitted(lib: Library, minTTL: int, es: seq<Event>, rs: seq<Report>,
          h: string, port: uint16, p: string)
    requires Collects(lib, minTTL, es, rs) && h != METADATA_TEXT
    ensures PortRecorded(FlowsOfRun(lib, minTTL, es), h, port) <==> HasPort(EntriesOf(rs), h, port)
    ensures ProtoRecorded(FlowsOfRun(lib, minTTL, es), h, p) <==> HasProto(EntriesOf(rs), h, p)
  {
    var flows, entries := FlowsOfRun(lib, minTTL, es), EntriesOf(rs);
    forall f | f in flows && f.host == h ensures HasPort(entries, h, f.port) && HasProto(entries, h, f.proto) {
      FlowIsUsed(lib, minTTL, es, rs, f);
    }
    forall e | e in entries && e.host == h ensures PortRecorded(flows, h, e.port) && ProtoRecorded(flows, h, e.proto) {
      EntryIsRecorded(lib, minTTL, es, rs, e);
    }
  }

  lemma {:induction false} UsedIsPermitted(lib: Library, minTTL: int, es: seq<Event>, rs: seq<Report>, h: string,
          d: Dest)
    requires Collects(lib, minTTL, es, rs) && h != METADATA_TEXT
    ensures var flows := FlowsOfRun(lib, minTTL, es);
            PortRecorded(flows, h, d.port) && ProtoUsed(flows, h, ToLower(d.proto)) <==>
              Permitted(EntriesOf(rs), h, d.port, ToLower(d.proto))
  {
    RecordedIsPermitted(lib, minTTL, es, rs, h, d.port, ToLower(d.proto));
    RecordedIsPermitted(lib, minTTL, es, rs, h, d.port, "tcp");
    RecordedIsPermitted(lib, minTTL, es, rs, h, d.port, "udp");
  }

  /** The host a flow or an entry is known by is not the metadata address. */
  lemma {:induction false} NotMetadataText(lib: Library, h: string, domain: bool, a: IP)
    requires Usable(lib) && (if domain then !IsAddress(lib, h) else h == lib.addrText(a) && a != METADATA_IP)
    ensures h != METADATA_TEXT
  {
    if !domain && h == METADATA_TEXT { TextTellsAddress(lib, a, METADATA_IP); }
  }

  lemma {:induction false} RecordedIsWanted(lib: Library, minTTL: int, es: seq<Event>, rs: seq<Report>, d: Dest)
    requires Usable(lib) && Collects(lib, minTTL, es, rs) && OrdinaryAnswers(lib, es) && d.ip.Unmap() != METADATA_IP
    requires Recorded(FlowsOfRun(lib, minTTL, es), d)
    ensures Wanted(lib, EntriesOf(rs), d)
  {
    var flows, entries := FlowsOfRun(lib, minTTL, es), EntriesOf(rs);
    var f :| f in flows && FlowIsTo(f, d) && PortRecorded(flows, f.host, d.port)
        && ProtoUsed(flows, f.host, ToLower(d.proto));
    FlowShape(lib, minTTL, es);
    RunOrdinary(lib, minTTL, es);
    RunIsObserved(lib, minTTL, es, rs);
    NotMetadataText(lib, f.host, f.domain, f.ip);
    UsedIsPermitted(lib, minTTL, es, rs, f.host, d);
    var e := FlowHasEntry(lib, minTTL, es, rs, f);
    var g := EntryHasFlow(lib, minTTL, es, rs, e);
    assert e.domain == f.domain;
    assert GoesTo(e, f.host) && HasKind(entries, f.host, f.domain);
    SeenIsWanted(lib, entries, d, f.host, f.domain);
  }

  lemma {:induction false} WantedIsRecorded(lib: Library, minTTL: int, es: seq<Event>, rs: seq<Report>, d: Dest)
    requires Usable(lib) && Collects(lib, minTTL, es, rs) && OrdinaryAnswers(lib, es) && d.ip.Unmap() != METADATA_IP
    requires Wanted(lib, EntriesOf(rs), d)
    ensures Recorded(FlowsOfRun(lib, minTTL, es), d)
  {
    var entries := EntriesOf(rs);
    var i: nat :| i < |entries| && Leads(entries, i) && HostTakes(lib, entries[i].host, entries[i].domain, d)
                  && Permitted(entries, entries[i].host, d.port, ToLower(d.proto));
    var e := entries[i];
    var f := EntryHasFlow(lib, minTTL, es, rs, e);
    FlowShape(lib, minTTL, es);
    RunOrdinary(lib, minTTL, es);
    if f.domain {
      PlainNameTakes(e.host, NormalizeDomain(d.domain));
    } else {
      TextTellsAddress(lib, f.ip, d.ip.Unmap());
    }
    NotMetadataText(lib, f.host, f.domain, f.ip);
    UsedIsPermitted(lib, minTTL, es, rs, e.host, d);
  }

  /** A flow the policy leaves out: to the metadata address, without a name. */
  predicate FlowIsMetadata(f: Flow) {
    !f.domain && f.ip == METADATA_IP
  }

  lemma {:induction false} MetadataAlike(lib: Library, f: Flow, e: Entry)
    requires Usable(lib) && f.Key() == EntryKey(e) && f.domain == e.domain && (!f.domain ==>
            f.host == lib.addrText(f.ip))
    ensures FlowIsMetadata(f) <==> IsMetadata(e)
  {
    if !f.domain && f.host == METADATA_TEXT { TextTellsAddress(lib, f.ip, METADATA_IP); }
  }

  lemma {:induction false} AllLoadIff(lib: Library, minTTL: int, es: seq<Event>, rs: seq<Report>)
    requires Usable(lib) && Collects(lib, minTTL, es, rs) && OrdinaryAnswers(lib, es)
    ensures AllLoad(EntriesOf(rs)) <==> forall f | f in FlowsOfRun(lib, minTTL, es) && !FlowIsMetadata(f) :: f.port != 0
  {
    var flows, entries := FlowsOfRun(lib, minTTL, es), EntriesOf(rs);
    FlowShape(lib, minTTL, es);
    RunOrdinary(lib, minTTL, es);
    if AllLoad(entries) {
      forall f | f in flows && !FlowIsMetadata(f) ensures f.port != 0 {
        var e := FlowHasEntry(lib, minTTL, es, rs, f);
        var g := EntryHasFlow(lib, minTTL, es, rs, e);
        assert e.domain == f.domain;
        MetadataAlike(lib, f, e);
      }
    }
    if forall f | f in flows && !FlowIsMetadata(f) :: f.port != 0 {
      forall e | e in entries && !IsMetadata(e) ensures e.port != 0 && (e.domain ==> NameLoads(e.host)) {
        var f := EntryHasFlow(lib, minTTL, es, rs, e);
        MetadataAlike(lib, f, e);
        if e.domain { PlainNameTakes(e.host, ""); }
      }
    }
  }

  /** From packets to verdicts: whatever packets an observer saw, with answers for
      ordinary names, the policy it writes loads exactly when no flow but to the metadata
      address was on port 0, and allows a destination exactly when it does not carry the
      metadata address and a recorded flow went to it, whose host was used on this port
      and over this protocol. */
  lemma {:induction false} LearnedRunIsExact(lib: Library, minTTL: int, es: seq<Event>, rs: seq<Report>, d: Dest)
    requires Usable(lib) && Collects(lib, minTTL, es, rs) && OrdinaryAnswers(lib, es)
    ensures var s, flows := SetOf(lib, FileOf(EntriesOf(rs))), FlowsOfRun(lib, minTTL, es);
            && (s.Ok? <==> forall f | f in flows && !FlowIsMetadata(f) :: f.port != 0)
            && (s.Ok? ==> (Decide(s.value, d).verdict == Allow <==> d.ip.Unmap() != METADATA_IP && Recorded(flows, d)))
  {
    RunIsCollected(lib, minTTL, es, rs);
    RunLoadsIff(lib, minTTL, es, rs);
    AllLoadIff(lib, minTTL, es, rs);
    if SetOf(lib, FileOf(EntriesOf(rs))).Ok? {
      LearnedPolicyDecides(lib, EntriesOf(rs), d);
      WantedIffRecorded(lib, minTTL, es, rs, d);
    }
  }

  lemma {:induction false} WantedIffRecorded(lib: Library, minTTL: int, es: seq<Event>, rs: seq<Report>, d: Dest)
    requires Usable(lib) && Collects(lib, minTTL, es, rs) && OrdinaryAnswers(lib, es)
    ensures d.ip.Unmap() != METADATA_IP ==> (Wanted(lib, EntriesOf(rs), d) <==>
            Recorded(FlowsOfRun(lib, minTTL, es), d))
  {
    if d.ip.Unmap() != METADATA_IP {
      if Wanted(lib, EntriesOf(rs), d) { WantedIsRecorded(lib, minTTL, es, rs, d); }
      if Recorded(FlowsOfRun(lib, minTTL, es), d) { RecordedIsWanted(lib, minTTL, es, rs, d); }
    }
  }

  /** What the policy of a run decides, whatever names were answered. */
  lemma {:induction false} RunDecides(lib: Library, minTTL: int, es: seq<Event>, rs: seq<Report>, d: Dest)
    requires Usable(lib) && Collects(lib, minTTL, es, rs) && AllLoad(EntriesOf(rs))
    ensures SetOf(lib, FileOf(EntriesOf(rs))).Ok?
    ensures Decide(SetOf(lib, FileOf(EntriesOf(rs))).value, d).verdict == Allow <==>
              d.ip.Unmap() != METADATA_IP && Wanted(lib, EntriesOf(rs), d)
  {
    RunIsCollected(lib, minTTL, es, rs);
    RunLoadsIff(lib, minTTL, es, rs);
    LearnedPolicyDecides(lib, EntriesOf(rs), d);
  }

  // ---- what an observer may come by ----

  lemma {:induction false} OneFlowBook(f: Flow)
    ensures var b := BookOf([f]);
            && b.entries.Keys == {f.Key()} == b.ips.Keys == b.origins.Keys
            && b.entries[f.Key()] == FirstEntry(f)
  {
    assert [f][..0] == [];
    assert BookOf([f]) == Booked(EMPTY_BOOK, f);
  }

  lemma {:induction false} OneReport(b: Book, k: FlowKey) returns (rs: seq<Report>)
    requires b.entries.Keys == {k} == b.ips.Keys == b.origins.Keys && EntryKey(b.entries[k]) == k
    ensures Sorted(rs) && Lists(rs, b, b.entries.Keys) && EntriesOf(rs) == [b.entries[k]]
  {
    rs := [ReportOf(b, k)];
    assert ReportOf(b, k) in rs;
  }

  /** The list made of a single flow. */
  lemma {:induction false} OneFlow(lib: Library, minTTL: int, es: seq<Event>, f: Flow) returns (rs: seq<Report>)
    requires FlowsOfRun(lib, minTTL, es) == [f]
    ensures Collects(lib, minTTL, es, rs)
    ensures EntriesOf(rs) == [Entry(f.host, f.domain, f.port, f.proto, f.at, f.at, 1)]
  {
    BookIsFlows(lib, minTTL, es);
    OneFlowBook(f);
    rs := OneReport(BookOf([f]), f.Key());
  }

  lemma {:induction false} RunOneMore(lib: Library, minTTL: int, es: seq<Event>, e: Event)
    ensures RunObs(lib, minTTL, FRESH_OBS, es + [e]) == StepObs(lib, minTTL, RunObs(lib, minTTL, FRESH_OBS, es), e)
    ensures FlowsOfRun(lib, minTTL, es + [e]) ==
              FlowsOfRun(lib, minTTL, es) +
              match FlowAt(lib, RunObs(lib, minTTL, FRESH_OBS, es), e) case Some(f) => [f] case None => []
  {
    assert (es + [e])[..|es|] == es;
  }

  const SOME_HOST: IP := IPv4([198, 51, 100, 7])

  /** The first packet of a connection. */
  function Opening(port: uint16): Event {
    Seen(Packet(SOME_HOST, SOME_HOST, PROTO_TCP, 40000, port, true, false, []), true, 0, "", None)
  }

  /** An answer from a name server, giving `name` the address connected to. */
  function Answering(name: string): Event {
    Seen(Packet(SOME_HOST, SOME_HOST, PROTO_UDP, 53, 40000, false, false, []), false, 0, "",
         Some(Answer(name, [AddrTTL(SOME_HOST, 0)])))
  }

  lemma {:induction false} FirstPacketFlow(lib: Library, o: Obs, port: uint16)
    ensures FlowAt(lib, o, Opening(port)) == Some(FlowOf(lib, o.cache, SOME_HOST, port, "tcp", "", 0))
  {
    assert SOME_HOST.Unmap() == SOME_HOST && SOME_HOST.AsSlice()[0] == 198;
    assert Eligible(SOME_HOST);
  }

  /** A connection to an address nobody asked about. */
  lemma {:induction false} AddressIsLearned(lib: Library, minTTL: int, port: uint16)
    returns (es: seq<Event>, rs: seq<Report>)
    ensures Collects(lib, minTTL, es, rs)
    ensures EntriesOf(rs) == [Entry(lib.addrText(SOME_HOST), false, port, "tcp", 0, 0, 1)]
  {
    es := [] + [Opening(port)];
    FirstPacketFlow(lib, FRESH_OBS, port);
    RunOneMore(lib, minTTL, [], Opening(port));
    var f := Flow(lib.addrText(SOME_HOST), false, port, "tcp", SOME_HOST, "", 0);
    assert [] + [f] == [f];
    rs := OneFlow(lib, minTTL, es, f);
  }

  lemma {:induction false} AnsweredCache(lib: Library, minTTL: int, name: string)
    requires name != ""
    ensures LookupIn(StepObs(lib, minTTL, FRESH_OBS, Answering(name)).cache, SOME_HOST, 0) == Some(name)
  {
    var addrs := [AddrTTL(SOME_HOST, 0)];
    assert addrs[1..] == [];
    assert SOME_HOST.Unmap() == SOME_HOST;
    var m: CacheMap := map[];
    var m1: CacheMap := m[SOME_HOST := CacheEntry(name, 0 + Stretch(0, minTTL))];
    assert RecordAddrs(m1, minTTL, name, [], 0) == m1;
    assert RecordAddrs(m, minTTL, name, addrs, 0) == m1;
    assert StepObs(lib, minTTL, FRESH_OBS, Answering(name)).cache == RecordAddrs(m, minTTL, name, addrs, 0);
  }

  /** Any name but the empty one is learned, if an answer for it is seen. */
  lemma {:induction false} NameIsLearned(lib: Library, minTTL: int, name: string, port: uint16)
    returns (es: seq<Event>, rs: seq<Report>)
    requires name != ""
    ensures Collects(lib, minTTL, es, rs)
    ensures EntriesOf(rs) == [Entry(name, true, port, "tcp", 0, 0, 1)]
  {
    var first := [] + [Answering(name)];
    es := first + [Opening(port)];
    RunOneMore(lib, minTTL, [], Answering(name));
    RunOneMore(lib, minTTL, first, Opening(port));
    FirstPacketFlow(lib, RunObs(lib, minTTL, FRESH_OBS, first), port);
    AnsweredCache(lib, minTTL, name);
    assert SOME_HOST.Unmap() == SOME_HOST;
    var f := Flow(name, true, port, "tcp", SOME_HOST, "", 0);
    assert [] + [f] == [f];
    rs := OneFlow(lib, minTTL, es, f);
  }

  /** The file is said to load always. A connection to port 0 makes one that does not. */
  lemma {:induction false} PortZeroDoesNotLoad(lib: Library, minTTL: int) returns (es: seq<Event>, rs: seq<Report>)
    requires Usable(lib)
    ensures Collects(lib, minTTL, es, rs) && !SetOf(lib, FileOf(EntriesOf(rs))).Ok?
  {
    es, rs := AddressIsLearned(lib, minTTL, 0);
    RunLoadsIff(lib, minTTL, es, rs);
    var e := EntriesOf(rs)[0];
    assert e in EntriesOf(rs);
    NotMetadataText(lib, e.host, false, SOME_HOST);
  }

  /** So does a connection to the address of any name that no rule can be made for. */
  lemma {:induction false} BadNameDoesNotLoad(lib: Library, minTTL: int, name: string, port: uint16)
    returns (es: seq<Event>, rs: seq<Report>)
    requires Usable(lib) && name != "" && !NameLoads(name)
    ensures Collects(lib, minTTL, es, rs) && !SetOf(lib, FileOf(EntriesOf(rs))).Ok?
  {
    es, rs := NameIsLearned(lib, minTTL, name, port);
    RunLoadsIff(lib, minTTL, es, rs);
    assert EntriesOf(rs)[0] in EntriesOf(rs);
  }

  lemma {:induction false} StarInside()
    ensures !NameLoads("a*b") && NormalizeDomain("a*b") == "a*b"
  {
    assert TrimSpace("a*b") == "a*b" && ToLower("a*b") == "a*b";
    assert "a*b"[2..] == "b" && "a*b"[1] == '*';
    assert '*' in "a*b";
  }

  lemma {:induction false} StarInFront()
    ensures NameLoads("*.x") && NameTakes("*.x", "z.x")
  {
    assert TrimSpace("*.x") == "*.x" && ToLower("*.x") == "*.x";
    assert "*.x"[..2] == "*." && "*.x"[1..] == ".x" && "*.x"[2..] == "x" && "z.x"[1..] == ".x";
  }

  lemma {:induction false} OneEntryWants(lib: Library, e: Entry, d: Dest)
    requires e.domain && NameTakes(e.host, NormalizeDomain(d.domain)) && e.port == d.port && e.proto == d.proto == "tcp"
    ensures Wanted(lib, [e], d)
  {
    assert ToLower("tcp") == "tcp";
    assert e in [e] && GoesTo(e, e.host) && Leads([e], 0);
    assert HasPort([e], e.host, e.port) && HasProto([e], e.host, "tcp");
  }

  /** And a name with a leading star, once learned, lets out every name below it, seen
      or not. */
  lemma {:induction false} StarLetsMoreOut(lib: Library, minTTL: int, name: string, port: uint16, other: string)
    returns (es: seq<Event>, rs: seq<Report>)
    requires Usable(lib) && name != "" && NameLoads(name) && port != 0
    requires NameTakes(name, NormalizeDomain(other))
    ensures Collects(lib, minTTL, es, rs) && EntriesOf(rs) == [Entry(name, true, port, "tcp", 0, 0, 1)]
    ensures var s := SetOf(lib, FileOf(EntriesOf(rs)));
            s.Ok? && Decide(s.value, Dest(other, NoAddr, port, "tcp", "")).verdict == Allow
  {
    es, rs := NameIsLearned(lib, minTTL, name, port);
    RunIsCollected(lib, minTTL, es, rs);
    RunLoadsIff(lib, minTTL, es, rs);
    var d := Dest(other, NoAddr, port, "tcp", "");
    LearnedPolicyDecides(lib, EntriesOf(rs), d);
    OneEntryWants(lib, Entry(name, true, port, "tcp", 0, 0, 1), d);
    assert NoAddr.Unmap() != METADATA_IP;
  }
}
