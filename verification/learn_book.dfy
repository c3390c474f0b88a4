/** The observer's accounts: the book as a function of the flows recorded, and the
    sorted list made of it. */
module LearnBook {
  import opened Clock
  import opened Wrappers
  import opened Bytes
  import opened Text
  import opened Netip
  import opened Seqs
  import opened Packets
  import opened Dnswatch
  import opened Sums
  import opened Learn
  import opened LearnInitiator

  /** The flow an event records, if any. */
  function FlowAt(lib: Library, o: Obs, e: Event): Option<Flow> {
    if e.Seen? && e.outgoing then Opened(lib, o, e.p, e.now, e.origin) else None
  }

  /** All flows recorded in a run, in order. */
  function FlowsOf(lib: Library, minTTL: int, o: Obs, es: seq<Event>): seq<Flow> {
    if es == [] then []
    else
      var before := es[..|es| - 1];
      FlowsOf(lib, minTTL, o, before) +
      match FlowAt(lib, RunObs(lib, minTTL, o, before), es[|es| - 1]) case Some(f) => [f] case None => []
  }

  function BookOf(flows: seq<Flow>): Book {
    if flows == [] then EMPTY_BOOK else Booked(BookOf(flows[..|flows| - 1]), flows[|flows| - 1])
  }

  /** The book holds what was recorded, and nothing else. */
  lemma {:induction false} BookIsFlows(lib: Library, minTTL: int, es: seq<Event>)
    ensures RunObs(lib, minTTL, FRESH_OBS, es).book == BookOf(FlowsOf(lib, minTTL, FRESH_OBS, es))
  {
    if es != [] {
      var n := |es| - 1;
      BookIsFlows(lib, minTTL, es[..n]);
      var flows, before := FlowsOf(lib, minTTL, FRESH_OBS, es), FlowsOf(lib, minTTL, FRESH_OBS, es[..n]);
      match FlowAt(lib, RunObs(lib, minTTL, FRESH_OBS, es[..n]), es[n])
      case Some(f) => assert flows[..|flows| - 1] == before;
      case None => assert flows == before;
    }
  }

  function Times(flows: seq<Flow>, k: FlowKey): nat {
    if flows == [] then 0
    else Times(flows[..|flows| - 1], k) + (if flows[|flows| - 1].Key() == k then 1 else 0)
  }

  function TimesFrom(flows: seq<Flow>, k: FlowKey, origin: string): nat {
    if flows == [] then 0
    else
      var f := flows[|flows| - 1];
      TimesFrom(flows[..|flows| - 1], k, origin) + (if f.Key() == k && f.origin == origin then 1 else 0)
  }

  function FlowKeys(flows: seq<Flow>): seq<FlowKey> {
    seq(|flows|, i requires 0 <= i < |flows| => flows[i].Key())
  }

  lemma {:induction false} BookKeys(flows: seq<Flow>, k: FlowKey)
    ensures var b := BookOf(flows);
            && b.entries.Keys == b.ips.Keys == b.origins.Keys
            && (k in b.entries <==> Times(flows, k) > 0)
            && (k in b.entries <==> exists i | 0 <= i < |flows| :: flows[i].Key() == k)
  {
    if flows != [] {
      var n := |flows| - 1;
      BookKeys(flows[..n], k);
      assert forall i | 0 <= i < n :: flows[..n][i] == flows[i];
    }
  }

  lemma {:induction false} BookedEntry(b: Book, f: Flow, k: FlowKey)
    requires k in Booked(b, f).entries
    ensures var e := Booked(b, f).entries[k];
            && (k != f.Key() ==> k in b.entries && e == b.entries[k])
            && (k == f.Key() ==> e == if k in b.entries then b.entries[k].(hits := b.entries[k].hits + 1, last := f.at)
                                      else FirstEntry(f))
  {
  }

  lemma {:induction false} EntryCounts(flows: seq<Flow>, k: FlowKey)
    requires k in BookOf(flows).entries
    ensures EntryKey(BookOf(flows).entries[k]) == k && BookOf(flows).entries[k].hits == Times(flows, k)
  {
    var n := |flows| - 1;
    BookKeys(flows[..n], k);
    BookedEntry(BookOf(flows[..n]), flows[n], k);
    if k in BookOf(flows[..n]).entries {
      EntryCounts(flows[..n], k);
    }
  }

  lemma {:induction false} EntryFirst(flows: seq<Flow>, k: FlowKey) returns (i: nat)
    requires k in BookOf(flows).entries
    ensures i < |flows| && FirstOf(FlowKeys(flows), k, i)
    ensures var e := BookOf(flows).entries[k]; e.first == flows[i].at && e.domain == flows[i].domain
  {
    var n := |flows| - 1;
    var keys := FlowKeys(flows[..n]);
    assert FlowKeys(flows) == keys + [flows[n].Key()];
    BookKeys(flows[..n], k);
    BookedEntry(BookOf(flows[..n]), flows[n], k);
    if k in BookOf(flows[..n]).entries {
      i := EntryFirst(flows[..n], k);
      FirstGrows(keys, flows[n].Key(), k, i);
    } else {
      i := n;
      assert forall j | 0 <= j < n :: keys[j] == flows[..n][j].Key();
    }
  }

  lemma {:induction false} EntryLast(flows: seq<Flow>, k: FlowKey) returns (i: nat)
    requires k in BookOf(flows).entries
    ensures i < |flows| && LastOf(FlowKeys(flows), k, i) && BookOf(flows).entries[k].last == flows[i].at
  {
    var n := |flows| - 1;
    var keys := FlowKeys(flows[..n]);
    assert FlowKeys(flows) == keys + [flows[n].Key()];
    BookedEntry(BookOf(flows[..n]), flows[n], k);
    if flows[n].Key() == k {
      i := n;
    } else {
      i := EntryLast(flows[..n], k);
      LastGrows(keys, flows[n].Key(), k, i);
    }
  }

  /** An entry counts the flows of its key, and is stamped by the first and last of
      them, whose name or address it bears. */
  lemma {:induction false} EntryExact(flows: seq<Flow>, k: FlowKey)
    requires k in BookOf(flows).entries
    ensures var e := BookOf(flows).entries[k];
            && e.hits == Times(flows, k) && EntryKey(e) == k
            && (exists i: nat | i < |flows| ::
                  FirstOf(FlowKeys(flows), k, i) && e.first == flows[i].at && e.domain == flows[i].domain)
            && (exists i: nat | i < |flows| :: LastOf(FlowKeys(flows), k, i) && e.last == flows[i].at)
  {
    EntryCounts(flows, k);
    var i := EntryFirst(flows, k);
    var j := EntryLast(flows, k);
  }

  /** What one more flow does to the tables of a key. */
  lemma {:induction false} BookedTables(b: Book, f: Flow, k: FlowKey)
    requires b.entries.Keys == b.ips.Keys == b.origins.Keys && (k == f.Key() || k in b.entries)
    ensures var c := Booked(b, f);
            && k in c.origins && k in c.ips
            && (k != f.Key() ==> c.origins[k] == b.origins[k] && c.ips[k] == b.ips[k])
            && (k == f.Key() ==>
                  var from: map<string, nat> := if k in b.entries then b.origins[k] else map[];
                  var ips: set<IP> := if k in b.entries then b.ips[k] else {};
                  c.origins[k] == from[f.origin := CountOf(from, f.origin) + 1] && c.ips[k] == ips + {f.ip})
  {
  }

  /** An entry's origins count its flows by cgroup, and add up to its hits. */
  lemma {:induction false} OriginsExact(flows: seq<Flow>, k: FlowKey, origin: string)
    requires k in BookOf(flows).entries
    ensures k in BookOf(flows).origins
    ensures CountOf(BookOf(flows).origins[k], origin) == TimesFrom(flows, k, origin)
    ensures Sum(BookOf(flows).origins[k]) == Times(flows, k)
  {
    var n := |flows| - 1;
    var f, b0 := flows[n], BookOf(flows[..n]);
    BookKeys(flows[..n], k);
    NoTimesFrom(flows[..n], k, origin);
    BookedTables(b0, f, k);
    var from: map<string, nat> := if k in b0.entries then b0.origins[k] else map[];
    if k in b0.entries {
      OriginsExact(flows[..n], k, origin);
    }
    if f.Key() == k {
      SumUpdate(from, f.origin, CountOf(from, f.origin) + 1);
    }
  }

  /** An entry's addresses are those of its flows. */
  lemma {:induction false} IpsExact(flows: seq<Flow>, k: FlowKey)
    requires k in BookOf(flows).entries
    ensures k in BookOf(flows).ips && BookOf(flows).ips[k] == set f | f in flows && f.Key() == k :: f.ip
  {
    var n := |flows| - 1;
    var f, b0 := flows[n], BookOf(flows[..n]);
    BookKeys(flows[..n], k);
    BookedTables(b0, f, k);
    assert flows == flows[..n] + [f];
    assert forall x :: x in flows <==> x in flows[..n] || x == f;
    if k in b0.entries {
      IpsExact(flows[..n], k);
    } else {
      assert forall x | x in flows[..n] :: x.Key() != k;
    }
  }

  lemma {:induction false} NoTimesFrom(flows: seq<Flow>, k: FlowKey, origin: string)
    ensures TimesFrom(flows, k, origin) <= Times(flows, k)
  {
    if flows != [] {
      NoTimesFrom(flows[..|flows| - 1], k, origin);
    }
  }

  function Hits(b: Book): map<FlowKey, nat> {
    map k | k in b.entries :: b.entries[k].hits
  }

  /** Every recorded packet is a hit of one entry. */
  lemma {:induction false} HitsAddUp(flows: seq<Flow>)
    ensures Sum(Hits(BookOf(flows))) == |flows|
  {
    if flows == [] {
      assert Hits(BookOf(flows)) == map[];
    } else {
      var n := |flows| - 1;
      var b0, b, k := BookOf(flows[..n]), BookOf(flows), flows[n].Key();
      HitsAddUp(flows[..n]);
      SumUpdate(Hits(b0), k, b.entries[k].hits);
      assert Hits(b) == Hits(b0)[k := b.entries[k].hits];
    }
  }

  function EntryKey(e: Entry): FlowKey { FlowKey(e.host, e.port, e.proto) }

  /** The flows of keys not seen before, in order. */
  function FirstFlows(flows: seq<Flow>): seq<Flow> {
    if flows == [] then []
    else
      var n := |flows| - 1;
      FirstFlows(flows[..n]) + (if Times(flows[..n], flows[n].Key()) > 0 then [] else [flows[n]])
  }

  /** The entry of a key after its first packet. */
  function FirstEntry(f: Flow): Entry {
    Entry(f.host, f.domain, f.port, f.proto, f.at, f.at, 1)
  }

  function FirstEntries(flows: seq<Flow>): seq<Entry> {
    seq(|flows|, i requires 0 <= i < |flows| => FirstEntry(flows[i]))
  }

  lemma {:induction false} FirstFlowsSeen(flows: seq<Flow>, f: Flow)
    requires f in FirstFlows(flows)
    ensures Times(flows, f.Key()) > 0
  {
    var n := |flows| - 1;
    if f in FirstFlows(flows[..n]) {
      FirstFlowsSeen(flows[..n], f);
    }
  }

  lemma {:induction false} FirstFlowsDistinct(flows: seq<Flow>, i: nat, j: nat)
    requires i < j < |FirstFlows(flows)|
    ensures FirstFlows(flows)[i].Key() != FirstFlows(flows)[j].Key()
  {
    var n := |flows| - 1;
    var before := FirstFlows(flows[..n]);
    if j < |before| {
      FirstFlowsDistinct(flows[..n], i, j);
    } else {
      FirstFlowsSeen(flows[..n], before[i]);
    }
  }

  lemma {:induction false} OneMoreKey(m: map<FlowKey, Entry>, k: FlowKey, e: Entry)
    ensures m[k := e].Keys == m.Keys + {k}
    ensures |m[k := e].Keys| == |m.Keys| + (if k in m then 0 else 1)
  {
    if k in m {
      assert m.Keys + {k} == m.Keys;
    }
    assert m[k := e].Keys == m.Keys + {k};
  }

  lemma {:induction false} BookedKeys(b: Book, f: Flow)
    ensures Booked(b, f).entries.Keys == b.entries.Keys + {f.Key()}
    ensures |Booked(b, f).entries.Keys| == |b.entries.Keys| + (if f.Key() in b.entries then 0 else 1)
  {
    OneMoreKey(b.entries, f.Key(), Booked(b, f).entries[f.Key()]);
  }

  lemma {:induction false} BookedNews(b: Book, f: Flow)
    ensures Booked(b, f).news == if f.Key() in b.entries then b.news else b.news + [FirstEntry(f)]
  {
  }

  lemma {:induction false} FirstFlowsCount(flows: seq<Flow>)
    ensures |FirstFlows(flows)| == |BookOf(flows).entries.Keys|
  {
    if flows != [] {
      var n := |flows| - 1;
      FirstFlowsCount(flows[..n]);
      BookKeys(flows[..n], flows[n].Key());
      BookedKeys(BookOf(flows[..n]), flows[n]);
    }
  }

  lemma {:induction false} FirstEntriesSnoc(flows: seq<Flow>, f: Flow)
    ensures FirstEntries(flows + [f]) == FirstEntries(flows) + [FirstEntry(f)]
  {
  }

  lemma {:induction false} NewsAreFirst(flows: seq<Flow>)
    ensures BookOf(flows).news == FirstEntries(FirstFlows(flows))
  {
    if flows != [] {
      var n := |flows| - 1;
      NewsAreFirst(flows[..n]);
      BookKeys(flows[..n], flows[n].Key());
      BookedNews(BookOf(flows[..n]), flows[n]);
      FirstEntriesSnoc(FirstFlows(flows[..n]), flows[n]);
    }
  }

  /** OnNew is called in order for the first flow of each key, with the entry as that flow
      made it, and so once for each key. */
  lemma {:induction false} NewsOncePerKey(flows: seq<Flow>)
    ensures BookOf(flows).news == FirstEntries(FirstFlows(flows))
    ensures |FirstFlows(flows)| == |BookOf(flows).entries.Keys|
    ensures var fs := FirstFlows(flows); forall i, j | 0 <= i < j < |fs| :: fs[i].Key() != fs[j].Key()
  {
    NewsAreFirst(flows);
    FirstFlowsCount(flows);
    var fs := FirstFlows(flows);
    forall i, j | 0 <= i < j < |fs| ensures fs[i].Key() != fs[j].Key() { FirstFlowsDistinct(flows, i, j); }
  }

  /** Flows in order of time, none later than `end`. */
  predicate TimeOrdered(flows: seq<Flow>, end: Time) {
    && (forall i, j | 0 <= i < j < |flows| :: flows[i].at <= flows[j].at)
    && (forall i | 0 <= i < |flows| :: flows[i].at <= end)
  }

  lemma {:induction false} TimeOrderedLater(flows: seq<Flow>, end: Time, later: Time)
    requires TimeOrdered(flows, end) && end <= later
    ensures TimeOrdered(flows, later)
    ensures forall f: Flow | f.at == later :: TimeOrdered(flows + [f], later)
  {
  }

  /** The clock of a run is the clock of its flows. */
  lemma {:induction false} FlowTimes(lib: Library, minTTL: int, es: seq<Event>)
    requires Ordered(es) && es != []
    ensures TimeOrdered(FlowsOf(lib, minTTL, FRESH_OBS, es), es[|es| - 1].now)
  {
    var n := |es| - 1;
    var before := es[..n];
    var flows := FlowsOf(lib, minTTL, FRESH_OBS, before);
    if before != [] {
      FlowTimes(lib, minTTL, before);
      assert before[n - 1].now <= es[n].now;
      TimeOrderedLater(flows, before[n - 1].now, es[n].now);
    } else {
      assert flows == [];
      TimeOrderedLater(flows, es[n].now, es[n].now);
    }
    match FlowAt(lib, RunObs(lib, minTTL, FRESH_OBS, before), es[n])
    case Some(f) => assert FlowsOf(lib, minTTL, FRESH_OBS, es) == flows + [f];
    case None => assert FlowsOf(lib, minTTL, FRESH_OBS, es) == flows;
  }

  lemma {:induction false} FirstBeforeLast(flows: seq<Flow>, k: FlowKey)
    requires forall i, j | 0 <= i < j < |flows| :: flows[i].at <= flows[j].at
    requires k in BookOf(flows).entries
    ensures BookOf(flows).entries[k].first <= BookOf(flows).entries[k].last
  {
    EntryExact(flows, k);
    var e := BookOf(flows).entries[k];
    var i: nat :| i < |flows| && FirstOf(FlowKeys(flows), k, i) && e.first == flows[i].at
        && e.domain == flows[i].domain;
    var j: nat :| j < |flows| && LastOf(FlowKeys(flows), k, j) && e.last == flows[j].at;
    assert i <= j by {
      assert FlowKeys(flows)[i] == k;
    }
  }

  /** The accounts of a run: in every reachable state the three tables have the same keys,
      the hits add up to the packets recorded, OnNew was called for the first packet of each
      key, an entry's origins count its packets by cgroup and add up to its hits, its
      addresses are those of its packets, and no entry ends before it begins. */
  lemma {:induction false} Accounts(lib: Library, minTTL: int, es: seq<Event>, k: FlowKey, origin: string)
    requires Ordered(es)
    ensures var b, flows := RunObs(lib, minTTL, FRESH_OBS, es).book, FlowsOf(lib, minTTL, FRESH_OBS, es);
            && b.entries.Keys == b.ips.Keys == b.origins.Keys
            && Sum(Hits(b)) == |flows|
            && b.news == FirstEntries(FirstFlows(flows))
            && (k in b.entries ==>
                  && b.entries[k].hits == Times(flows, k) == Sum(b.origins[k])
                  && CountOf(b.origins[k], origin) == TimesFrom(flows, k, origin)
                  && b.ips[k] == (set f | f in flows && f.Key() == k :: f.ip)
                  && b.entries[k].first <= b.entries[k].last)
  {
    var flows := FlowsOf(lib, minTTL, FRESH_OBS, es);
    BookIsFlows(lib, minTTL, es);
    BookKeys(flows, k);
    HitsAddUp(flows);
    NewsOncePerKey(flows);
    if k in BookOf(flows).entries {
      EntryExact(flows, k);
      OriginsExact(flows, k, origin);
      IpsExact(flows, k);
      if es != [] {
        FlowTimes(lib, minTTL, es);
      }
      FirstBeforeLast(flows, k);
    }
  }

  // ---- the sorted list ----

  /** An entry as Entries hands it out. */
  datatype Report = Report(entry: Entry, ips: set<IP>, origins: map<string, nat>)

  /** Domains first, then host, port and protocol. */
  predicate Before(a: Entry, b: Entry) {
    if a.domain != b.domain then a.domain
    else if a.host != b.host then Less(a.host, b.host)
    else if a.port != b.port then a.port < b.port
    else Less(a.proto, b.proto)
  }

  lemma {:induction false} BeforeTotal(a: Entry, b: Entry)
    ensures Before(a, b) || Before(b, a) || (a.domain == b.domain && EntryKey(a) == EntryKey(b))
    ensures !(Before(a, b) && Before(b, a))
  {
    LessTotal(a.host, b.host);
    LessTotal(a.proto, b.proto);
  }

  lemma {:induction false} BeforeTransitive(a: Entry, b: Entry, c: Entry)
    requires Before(a, b) && Before(b, c)
    ensures Before(a, c)
  {
    if a.domain == b.domain == c.domain {
      LessTotal(a.host, b.host);
      LessTotal(b.host, c.host);
      if a.host != b.host && b.host != c.host {
        LessTransitive(a.host, b.host, c.host);
        LessTotal(a.host, c.host);
      } else if a.host == b.host == c.host && a.port == b.port == c.port {
        LessTransitive(a.proto, b.proto, c.proto);
      }
    }
  }

  predicate Sorted(rs: seq<Report>) {
    forall i, j | 0 <= i < j < |rs| :: Before(rs[i].entry, rs[j].entry)
  }

  lemma {:induction false} PutBetween(rs: seq<Report>, r: Report, i: nat)
    requires i <= |rs| && Sorted(rs)
    requires forall k | 0 <= k < i :: Before(rs[k].entry, r.entry)
    requires forall k | i <= k < |rs| :: Before(r.entry, rs[k].entry)
    ensures Sorted(rs[..i] + [r] + rs[i..])
    ensures multiset(rs[..i] + [r] + rs[i..]) == multiset(rs) + multiset{r}
  {
    assert rs == rs[..i] + rs[i..];
  }

  /** Put one report where it belongs; a stand-in for the library's sort. */
  method Insert(rs: seq<Report>, r: Report) returns (out: seq<Report>)
    requires Sorted(rs)
    requires forall x | x in rs :: EntryKey(x.entry) != EntryKey(r.entry)
    ensures Sorted(out) && multiset(out) == multiset(rs) + multiset{r}
  {
    var i := 0;
    while i < |rs| && Before(rs[i].entry, r.entry)
      invariant 0 <= i <= |rs|
      invariant forall k | 0 <= k < i :: Before(rs[k].entry, r.entry)
    {
      i := i + 1;
    }
    out := rs[..i] + [r] + rs[i..];
    forall k | i <= k < |rs| ensures Before(r.entry, rs[k].entry) {
      assert rs[i] in rs;
      BeforeTotal(rs[i].entry, r.entry);
      if k > i {
        BeforeTransitive(r.entry, rs[i].entry, rs[k].entry);
      }
    }
    PutBetween(rs, r, i);
  }

  function ReportOf(b: Book, k: FlowKey): Report
    requires k in b.entries && k in b.ips && k in b.origins
  {
    Report(b.entries[k], b.ips[k], b.origins[k])
  }

  /** The list holds each entry once, with its addresses and origins. */
  predicate Lists(rs: seq<Report>, b: Book, keys: set<FlowKey>)
    requires b.entries.Keys == b.ips.Keys == b.origins.Keys && keys <= b.entries.Keys
  {
    |rs| == |keys| && (forall k | k in keys :: ReportOf(b, k) in rs)
    && (forall r | r in rs :: EntryKey(r.entry) in keys && r == ReportOf(b, EntryKey(r.entry)))
  }

  lemma {:induction false} ListsOneMore(rs: seq<Report>, out: seq<Report>, b: Book, done: set<FlowKey>, k: FlowKey)
    requires b.entries.Keys == b.ips.Keys == b.origins.Keys && done <= b.entries.Keys && k in b.entries && k !in done
    requires EntryKey(b.entries[k]) == k && Lists(rs, b, done)
    requires multiset(out) == multiset(rs) + multiset{ReportOf(b, k)}
    ensures Lists(out, b, done + {k})
  {
    assert |out| == |multiset(out)| == |rs| + 1;
    assert forall x :: x in out <==> x in multiset(out);
    assert forall x :: x in out <==> x in rs || x == ReportOf(b, k);
  }

  lemma {:induction false} NotListed(rs: seq<Report>, b: Book, done: set<FlowKey>, k: FlowKey)
    requires b.entries.Keys == b.ips.Keys == b.origins.Keys && done <= b.entries.Keys && k in b.entries && k !in done
    requires EntryKey(b.entries[k]) == k && Lists(rs, b, done)
    ensures forall x | x in rs :: EntryKey(x.entry) != EntryKey(ReportOf(b, k).entry)
  {
  }

  /** Entries: walk the table in any order, copy, and sort. */
  method Entries(b: Book) returns (rs: seq<Report>)
    requires b.entries.Keys == b.ips.Keys == b.origins.Keys
    requires forall k | k in b.entries :: EntryKey(b.entries[k]) == k
    ensures Sorted(rs) && Lists(rs, b, b.entries.Keys)
  {
    rs := [];
    var todo := b.entries.Keys;
    ghost var done: set<FlowKey> := {};
    while todo != {}
      invariant done !! todo && done + todo == b.entries.Keys
      invariant Sorted(rs) && Lists(rs, b, done)
      decreases todo
    {
      var k :| k in todo;
      ghost var before := rs;
      NotListed(rs, b, done, k);
      rs := Insert(rs, ReportOf(b, k));
      ListsOneMore(before, rs, b, done, k);
      todo, done := todo - {k}, done + {k};
    }
  }

  /** There is only one such list, so the order the table is walked in, which Go
      leaves open, does not show. */
  lemma {:induction false} SortedUnique(xs: seq<Report>, ys: seq<Report>)
    requires Sorted(xs) && Sorted(ys) && |xs| == |ys| && forall r :: r in xs <==> r in ys
    ensures xs == ys
  {
    if xs != [] {
      SameHead(xs, ys);
      NotLater(xs);
      NotLater(ys);
      forall r ensures r in xs[1..] <==> r in ys[1..] {
        assert r in xs <==> r == xs[0] || r in xs[1..];
        assert r in ys <==> r == ys[0] || r in ys[1..];
      }
      SortedUnique(xs[1..], ys[1..]);
      assert xs == [xs[0]] + xs[1..] && ys == [ys[0]] + ys[1..];
    }
  }

  lemma {:induction false} SameHead(xs: seq<Report>, ys: seq<Report>)
    requires Sorted(xs) && Sorted(ys) && xs != [] && ys != [] && forall r :: r in xs <==> r in ys
    ensures xs[0] == ys[0]
  {
    assert xs[0] in ys && ys[0] in xs;
    var j :| 0 <= j < |ys| && ys[j] == xs[0];
    var i :| 0 <= i < |xs| && xs[i] == ys[0];
    BeforeTotal(xs[0].entry, ys[0].entry);
  }

  /** Any two outcomes of Entries on one book are the same list. */
  lemma {:induction false} EntriesIndependentOfOrder(b: Book, xs: seq<Report>, ys: seq<Report>)
    requires b.entries.Keys == b.ips.Keys == b.origins.Keys
    requires Sorted(xs) && Lists(xs, b, b.entries.Keys) && Sorted(ys) && Lists(ys, b, b.entries.Keys)
    ensures xs == ys
  {
    SortedUnique(xs, ys);
  }

  lemma {:induction false} NotLater(xs: seq<Report>)
    requires Sorted(xs) && xs != []
    ensures xs[0] !in xs[1..]
  {
    if xs[0] in xs[1..] {
      var i :| 0 <= i < |xs[1..]| && xs[1..][i] == xs[0];
      BeforeTotal(xs[0].entry, xs[i + 1].entry);
    }
  }
}
