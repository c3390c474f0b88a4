/** cmd/egresswall/enforce.go: the enforcing loop as a state machine. DNS
    answers fill the cache and the kernel sets; a reload swaps the table, which
    empties the sets but not the cache. */
module Enforce {
  import opened Clock
  import opened Wrappers
  import opened Bytes
  import opened Text
  import opened Netip
  import opened Policy
  import opened PolicyLaws
  import opened Plan
  import opened PlanCorrect
  import opened Kernel
  import opened Codegen
  import opened Apply
  import opened TableCorrect
  import opened SetNames
  import opened Dnswatch

  /** learnMinTTL: five minutes. */
  const MIN_TTL: int := 300 * SECOND

  // ---- feeding ----

  /** What feed adds for one address of an answer: one key per covering rule. */
  function FactAdds(s: PolicySet, fact: Fact): seq<Add> {
    var rules := DomainRuleList(s, fact.name, |s.rules|);
    seq(|rules|, k requires 0 <= k < |rules| =>
      Add(SetFor(rules[k], fact.ip), fact.ip, Stretch(fact.ttl, MIN_TTL)))
  }

  function FeedAdds(s: PolicySet, facts: seq<Fact>): seq<Add> {
    if facts == [] then [] else FeedAdds(s, facts[..|facts| - 1]) + FactAdds(s, facts[|facts| - 1])
  }

  function FeedFacts(mode: Readd, s: PolicySet, elems: Elements, facts: seq<Fact>): Elements {
    if facts == [] then elems
    else
      var n := |facts| - 1;
      AddAll(mode, FeedFacts(mode, s, elems, facts[..n]), FactAdds(s, facts[n]), facts[n].at)
  }

  lemma {:induction false} AddAllConcat(mode: Readd, elems: Elements, a: seq<Add>, b: seq<Add>, now: Time)
    ensures AddAll(mode, elems, a + b, now) == AddAll(mode, AddAll(mode, elems, a, now), b, now)
  {
    if b == [] {
      assert a + b == a;
    } else {
      var n := |b| - 1;
      AddAllConcat(mode, elems, a, b[..n], now);
      assert (a + b)[..|a + b| - 1] == a + b[..n];
    }
  }

  /** Feeding an answer in one batch is feeding its addresses one by one. */
  lemma {:induction false} FeedIsFactByFact(mode: Readd, s: PolicySet, elems: Elements, facts: seq<Fact>, now: Time)
    requires forall f | f in facts :: f.at == now
    ensures AddAll(mode, elems, FeedAdds(s, facts), now) == FeedFacts(mode, s, elems, facts)
  {
    if facts != [] {
      var n := |facts| - 1;
      assert forall f | f in facts[..n] :: f in facts;
      assert facts[n] in facts;
      FeedIsFactByFact(mode, s, elems, facts[..n], now);
      AddAllConcat(mode, elems, FeedAdds(s, facts[..n]), FactAdds(s, facts[n]), now);
    }
  }

  /** Every addition names a set the plan declared, of the family of the address
      inside, so AddAddrs never finds a set missing. */
  lemma {:induction false} FeedNeverMisses(s: PolicySet, fact: Fact, a: Add)
    requires a in FactAdds(s, fact)
    ensures a.set_ in SetsOf(PlanOf(s).sets)
    ensures SetsOf(PlanOf(s).sets)[a.set_] == if fact.ip.Unmap().IPv4? then V4 else V6
    ensures a.Key() == fact.ip.Unmap().AsSlice()
  {
    var rules := DomainRuleList(s, fact.name, |s.rules|);
    var k :| 0 <= k < |rules| && a == FactAdds(s, fact)[k];
    var i := rules[k];
    assert InDomainRules(s, fact.name, i);
    DeclaredExactly(s, 0, a.set_, if fact.ip.Unmap().IPv4? then V4 else V6);
  }

  // ---- the state ----

  /** `log` is every address of every answer taken in; those from `loaded` on came
      after the table was last loaded, and `fed` are those of them whose batch was
      committed. */
  datatype World = World(
    cache: CacheMap,
    elems: Elements,
    table: Table,
    fs: CgroupFs,
    lastSweep: Time,
    lastCheck: Time,
    log: seq<Fact>,
    loaded: nat,
    fed: seq<Fact>)

  /** One lookup seed makes: the addresses found, or a failure. */
  datatype Seeding = Seeding(name: string, ips: Option<seq<IP>>, at: Time, flushOk: bool)

  /** One turn of the loop: a DNS answer (None when the message did not parse),
      or any other frame, with what the cgroup tree looks like by then and how a
      reload and its seeding would go. */
  datatype Event =
    | DnsFrame(now: Time, answer: Option<Answer>, flushOk: bool)
    | OtherFrame(now: Time, fs: CgroupFs, applyOk: bool, seeds: seq<Seeding>)

  /** Record, then feed. */
  function Learned(mode: Readd, s: PolicySet, w: World, a: Answer, now: Time, flushOk: bool): World {
    var facts := FactsOf(a.name, a.addrs, now);
    w.(cache := RecordAddrs(w.cache, MIN_TTL, a.name, a.addrs, now),
       elems := if flushOk then FeedFacts(mode, s, w.elems, facts) else w.elems,
       log := w.log + facts,
       fed := if flushOk then w.fed + facts else w.fed)
  }

  function SeedAnswer(name: string, ips: seq<IP>): Answer {
    Answer(name, seq(|ips|, k requires 0 <= k < |ips| => AddrTTL(ips[k].Unmap(), MIN_TTL)))
  }

  function Seeded(mode: Readd, s: PolicySet, w: World, seeds: seq<Seeding>): World {
    if seeds == [] then w
    else
      var before := Seeded(mode, s, w, seeds[..|seeds| - 1]);
      var sd := seeds[|seeds| - 1];
      match sd.ips
      case None => before
      case Some(ips) => Learned(mode, s, before, SeedAnswer(sd.name, ips), sd.at, sd.flushOk)
  }

  predicate Appeared(missing: set<string>, fs: CgroupFs) {
    exists cg | cg in missing :: fs(cg).Found?
  }

  /** The table just loaded, nothing learned since. */
  function Reloaded(w: World, t: Table, fs: CgroupFs): World {
    w.(table := t, fs := fs, elems := EmptySets(t.sets.Keys), loaded := |w.log|, fed := [])
  }

  function Purged(w: World, now: Time): World {
    if now - w.lastSweep > 30 * SECOND then w.(cache := PurgeOf(w.cache, now), lastSweep := now) else w
  }

  function Checked(mode: Readd, s: PolicySet, p: Plan, w: World, e: Event): World
    requires e.OtherFrame?
  {
    if e.now - w.lastCheck > 5 * SECOND then
      var w1 := w.(lastCheck := e.now);
      if Appeared(w1.table.missing, e.fs) && e.applyOk && TableOf(p, e.fs).Ok? then
        Seeded(mode, s, Reloaded(w1, TableOf(p, e.fs).value, e.fs), e.seeds)
      else w1
    else w
  }

  function StepWorld(mode: Readd, s: PolicySet, p: Plan, w: World, e: Event): World {
    match e
    case DnsFrame(now, answer, flushOk) =>
      if answer.Some? && answer.value.name != "" then Learned(mode, s, w, answer.value, now, flushOk) else w
    case OtherFrame(now, _, _, _) => Checked(mode, s, p, Purged(w, now), e)
  }

  function StartWorld(t: Table, fs: CgroupFs, now: Time): World {
    World(map[], EmptySets(t.sets.Keys), t, fs, now, now, [], 0, [])
  }

  /** From the first load, through the first seeding and any frames. */
  function RunWorld(mode: Readd, s: PolicySet, p: Plan, w: World, es: seq<Event>): World {
    if es == [] then w
    else StepWorld(mode, s, p, RunWorld(mode, s, p, w, es[..|es| - 1]), es[|es| - 1])
  }

  /** What the rules see at an instant: keys whose deadline has not passed, and
      the anonymous sets. */
  function LiveSets(elems: Elements, anon: nat, now: Time): SetTable {
    (map n | n in elems :: set k | k in elems[n] && now <= elems[n][k])
    + (map k: nat | 1 <= k <= anon :: AnonymousName(k) := TCP_UDP)
  }

  // ---- what one batch of additions does to one key ----

  lemma {:induction false} AddAllSource(mode: Readd, elems: Elements, adds: seq<Add>, now: Time, n: string,
          k: seq<byte>)
    requires n in elems
    ensures var r := AddAll(mode, elems, adds, now);
            && r.Keys == elems.Keys
            && (k in r[n] ==> (k in elems[n] && r[n][k] == elems[n][k])
                              || exists a | a in adds :: a.set_ == n && a.Key() == k && r[n][k] == now + a.ttl)
  {
    if adds != [] {
      var m := |adds| - 1;
      AddAllSource(mode, elems, adds[..m], now, n, k);
      assert forall a | a in adds[..m] :: a in adds;
      assert adds[m] in adds;
    }
  }

  lemma {:induction false} AddAllKeeps(mode: Readd, elems: Elements, adds: seq<Add>, now: Time, n: string,
          k: seq<byte>)
    requires n in elems && k in elems[n]
    ensures var r := AddAll(mode, elems, adds, now);
            && n in r && k in r[n]
            && (mode == Extend || (forall a | a in adds :: a.Key() != k) ==> r[n][k] >= elems[n][k])
  {
    if adds != [] {
      var m := |adds| - 1;
      AddAllKeeps(mode, elems, adds[..m], now, n, k);
      assert forall a | a in adds[..m] :: a in adds;
      assert adds[m] in adds;
    }
  }

  lemma {:induction false} AddAllCovers(mode: Readd, elems: Elements, adds: seq<Add>, now: Time, a: Add)
    requires mode != Keep && a in adds && a.set_ in elems && forall b | b in adds :: b.ttl == a.ttl
    ensures var r := AddAll(mode, elems, adds, now);
            a.set_ in r && a.Key() in r[a.set_] && r[a.set_][a.Key()] >= now + a.ttl
  {
    var m := |adds| - 1;
    var before := AddAll(mode, elems, adds[..m], now);
    AddAllBySet(mode, elems, adds[..m], now, "");
    assert forall b | b in adds[..m] :: b in adds;
    assert adds[m] in adds;
    if adds[m] != a {
      assert a in adds[..m];
      AddAllCovers(mode, elems, adds[..m], now, a);
    }
  }

  // ---- safety: every key in a set has a reason ----

  /** `fact` is a reason for key `k` to be in set `n`. */
  predicate Feeds(s: PolicySet, fact: Fact, n: string, k: seq<byte>) {
    k == fact.ip.Unmap().AsSlice()
    && exists i: nat | i < |s.rules| :: InDomainRules(s, fact.name, i) && n == SetFor(i, fact.ip)
  }

  /** Each key in a set comes from an answer taken in since the table was loaded,
      and stays no longer than that answer's stretched TTL. */
  predicate Justified(s: PolicySet, elems: Elements, log: seq<Fact>, loaded: nat) {
    forall n, k | n in elems && k in elems[n] :: HasReason(s, log, loaded, n, k, elems[n][k])
  }

  predicate HasReason(s: PolicySet, log: seq<Fact>, loaded: nat, n: string, k: seq<byte>, deadline: Time) {
    exists j | loaded <= j < |log| :: Feeds(s, log[j], n, k) && deadline == log[j].Deadline(MIN_TTL)
  }

  lemma {:induction false} FactAddsFeed(s: PolicySet, fact: Fact, a: Add)
    requires a in FactAdds(s, fact)
    ensures Feeds(s, fact, a.set_, a.Key()) && fact.at + a.ttl == fact.Deadline(MIN_TTL)
  {
    var rules := DomainRuleList(s, fact.name, |s.rules|);
    var k :| 0 <= k < |rules| && a == FactAdds(s, fact)[k];
    assert InDomainRules(s, fact.name, rules[k]) && a.set_ == SetFor(rules[k], fact.ip);
  }

  lemma {:induction false} ReasonGrows(s: PolicySet, log: seq<Fact>, loaded: nat, facts: seq<Fact>, n: string,
          k: seq<byte>, deadline: Time)
    requires HasReason(s, log, loaded, n, k, deadline)
    ensures HasReason(s, log + facts, loaded, n, k, deadline)
  {
    var j :| loaded <= j < |log| && Feeds(s, log[j], n, k) && deadline == log[j].Deadline(MIN_TTL);
    assert (log + facts)[j] == log[j];
  }

  lemma {:induction false} AddIsReason(s: PolicySet, log: seq<Fact>, loaded: nat, fact: Fact, a: Add)
    requires a in FactAdds(s, fact) && loaded <= |log|
    ensures HasReason(s, log + [fact], loaded, a.set_, a.Key(), fact.at + a.ttl)
  {
    FactAddsFeed(s, fact, a);
    assert (log + [fact])[|log|] == fact;
  }

  lemma {:induction false} FactJustified(mode: Readd, s: PolicySet, elems: Elements, log: seq<Fact>, loaded: nat,
          fact: Fact)
    requires Justified(s, elems, log, loaded) && loaded <= |log|
    ensures Justified(s, AddAll(mode, elems, FactAdds(s, fact), fact.at), log + [fact], loaded)
    ensures AddAll(mode, elems, FactAdds(s, fact), fact.at).Keys == elems.Keys
  {
    var adds := FactAdds(s, fact);
    var after := AddAll(mode, elems, adds, fact.at);
    AddAllBySet(mode, elems, adds, fact.at, "");
    forall n, k | n in after && k in after[n] ensures HasReason(s, log + [fact], loaded, n, k, after[n][k]) {
      AddAllSource(mode, elems, adds, fact.at, n, k);
      if k in elems[n] && after[n][k] == elems[n][k] {
        ReasonGrows(s, log, loaded, [fact], n, k, elems[n][k]);
      } else {
        var a :| a in adds && a.set_ == n && a.Key() == k && after[n][k] == fact.at + a.ttl;
        AddIsReason(s, log, loaded, fact, a);
      }
    }
  }

  lemma {:induction false} FeedJustified(mode: Readd, s: PolicySet, elems: Elements, log: seq<Fact>, loaded: nat,
          facts: seq<Fact>)
    requires Justified(s, elems, log, loaded) && loaded <= |log|
    ensures Justified(s, FeedFacts(mode, s, elems, facts), log + facts, loaded)
    ensures FeedFacts(mode, s, elems, facts).Keys == elems.Keys
  {
    if facts == [] {
      assert log + facts == log;
    } else {
      var m := |facts| - 1;
      FeedJustified(mode, s, elems, log, loaded, facts[..m]);
      assert log + facts == log + facts[..m] + [facts[m]] by {
        assert facts == facts[..m] + [facts[m]];
      }
      FactJustified(mode, s, FeedFacts(mode, s, elems, facts[..m]), log + facts[..m], loaded, facts[m]);
    }
  }

  /** More history takes no reason away. */
  lemma {:induction false} JustifiedGrows(s: PolicySet, elems: Elements, log: seq<Fact>, loaded: nat,
          facts: seq<Fact>)
    requires Justified(s, elems, log, loaded)
    ensures Justified(s, elems, log + facts, loaded)
  {
    forall n, k | n in elems && k in elems[n] ensures HasReason(s, log + facts, loaded, n, k, elems[n][k]) {
      ReasonGrows(s, log, loaded, facts, n, k, elems[n][k]);
    }
  }

  /** What holds in every state of an enforcing run. */
  predicate Safe(s: PolicySet, p: Plan, w: World) {
    && w.loaded <= |w.log|
    && TableOf(p, w.fs) == Ok(w.table)
    && w.elems.Keys == SetsOf(p.sets).Keys
    && Justified(s, w.elems, w.log, w.loaded)
    && EntriesAreFacts(w.cache, w.log, MIN_TTL)
  }

  lemma {:induction false} RecordFacts(m: CacheMap, log: seq<Fact>, name: string, addrs: seq<AddrTTL>, now: Time)
    requires EntriesAreFacts(m, log, MIN_TTL)
    ensures EntriesAreFacts(RecordAddrs(m, MIN_TTL, name, addrs, now), log + FactsOf(name, addrs, now), MIN_TTL)
    decreases |addrs|
  {
    var facts := FactsOf(name, addrs, now);
    if addrs == [] {
      assert log + facts == log;
    } else {
      var m1 := m[addrs[0].ip := CacheEntry(name, facts[0].Deadline(MIN_TTL))];
      var log1 := log + [facts[0]];
      assert forall f | f in log :: f in log1;
      assert facts[0] in log1;
      RecordFacts(m1, log1, name, addrs[1..], now);
      assert facts[1..] == FactsOf(name, addrs[1..], now);
      assert log1 + facts[1..] == log + facts;
    }
  }

  lemma {:induction false} LearnedSafe(mode: Readd, s: PolicySet, p: Plan, w: World, a: Answer, now: Time,
          flushOk: bool)
    requires Safe(s, p, w)
    ensures Safe(s, p, Learned(mode, s, w, a, now, flushOk))
  {
    var facts := FactsOf(a.name, a.addrs, now);
    FeedJustified(mode, s, w.elems, w.log, w.loaded, facts);
    JustifiedGrows(s, w.elems, w.log, w.loaded, facts);
    RecordFacts(w.cache, w.log, a.name, a.addrs, now);
  }

  lemma {:induction false} SeededSafe(mode: Readd, s: PolicySet, p: Plan, w: World, seeds: seq<Seeding>)
    requires Safe(s, p, w)
    ensures Safe(s, p, Seeded(mode, s, w, seeds))
  {
    if seeds != [] {
      var n := |seeds| - 1;
      SeededSafe(mode, s, p, w, seeds[..n]);
      if seeds[n].ips.Some? {
        LearnedSafe(mode, s, p, Seeded(mode, s, w, seeds[..n]), SeedAnswer(seeds[n].name, seeds[n].ips.value),
                    seeds[n].at, seeds[n].flushOk);
      }
    }
  }

  lemma {:induction false} StepSafe(mode: Readd, s: PolicySet, p: Plan, w: World, e: Event)
    requires Safe(s, p, w)
    ensures Safe(s, p, StepWorld(mode, s, p, w, e))
  {
    match e
    case DnsFrame(now, answer, flushOk) =>
      if answer.Some? && answer.value.name != "" {
        LearnedSafe(mode, s, p, w, answer.value, now, flushOk);
      }
    case OtherFrame(now, fs, applyOk, seeds) =>
      var w1 := Purged(w, now);
      assert Safe(s, p, w1);
      if now - w1.lastCheck > 5 * SECOND && Appeared(w1.table.missing, fs) && applyOk && TableOf(p, fs).Ok? {
        var w2 := Reloaded(w1.(lastCheck := now), TableOf(p, fs).value, fs);
        assert w2.table.sets == SetsOf(p.sets);
        assert Safe(s, p, w2);
        SeededSafe(mode, s, p, w2, seeds);
      }
  }

  /** Every state of every run, whatever the answers, reloads and failures. */
  lemma {:induction false} RunSafe(mode: Readd, s: PolicySet, p: Plan, t: Table, fs: CgroupFs, start: Time,
          seeds: seq<Seeding>, es: seq<Event>)
    requires TableOf(p, fs) == Ok(t)
    ensures Safe(s, p, RunWorld(mode, s, p, Seeded(mode, s, StartWorld(t, fs, start), seeds), es))
  {
    var w0 := Seeded(mode, s, StartWorld(t, fs, start), seeds);
    if es == [] {
      SeededSafe(mode, s, p, StartWorld(t, fs, start), seeds);
    } else {
      var n := |es| - 1;
      RunSafe(mode, s, p, t, fs, start, seeds, es[..n]);
      StepSafe(mode, s, p, RunWorld(mode, s, p, w0, es[..n]), es[n]);
    }
  }
}
