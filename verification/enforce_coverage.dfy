/** What was learned since the table was loaded can be used: coverage of the
    address sets between reloads, and what a reload forgets. */
module EnforceCoverage {
  import opened Clock
  import opened Wrappers
  import opened Bytes
  import opened Text
  import opened Netip
  import opened Policy
  import opened PolicyLaws
  import opened Plan
  import opened PlanCorrect
  import opened Kernel
  import opened Codegen
  import opened Apply
  import opened TableCorrect
  import opened SetNames
  import opened Dnswatch
  import opened Enforce
  import opened EnforceSafety

  /** `ip` stays in the set of every rule that covers `name` until `deadline`. */
  predicate InAllSets(s: PolicySet, elems: Elements, name: string, ip: IP, deadline: Time) {
    forall i: nat | i < |s.rules| && InDomainRules(s, name, i) ::
      var n, k := SetFor(i, ip), ip.Unmap().AsSlice();
      n in elems && k in elems[n] && elems[n][k] >= deadline
  }

  /** Index of the last fact recorded under exactly this key. */
  function LastUnder(log: seq<Fact>, ip: IP): (r: Option<nat>)
    ensures r.Some? ==> r.value < |log| && log[r.value].ip == ip
    ensures r.None? ==> forall k | 0 <= k < |log| :: log[k].ip != ip
  {
    if log == [] then None
    else if log[|log| - 1].ip == ip then Some(|log| - 1)
    else LastUnder(log[..|log| - 1], ip)
  }

  /** Each cache entry a lookup can find is the last fact about its address, and
      if that was learned since the last load, the address is in every set of the
      rules covering the name, at least until the entry expires. */
  predicate Covered(s: PolicySet, w: World) {
    forall ip | ip in w.cache && !ip.Is4In6() ::
      var j := LastUnder(w.log, ip);
      && j.Some?
      && w.cache[ip] == CacheEntry(w.log[j.value].name, w.log[j.value].Deadline(MIN_TTL))
      && (j.value >= w.loaded ==> InAllSets(s, w.elems, w.cache[ip].name, ip, w.cache[ip].exp))
  }

  /** With kernels that replace a deadline, an IPv4-mapped record could shorten
      that of the plain address, so coverage needs unmapped facts there. With kernels
      that keep the old deadline there is no coverage; see KeepForgets. */
  predicate Gentle(mode: Readd, facts: seq<Fact>) {
    mode == Extend || (mode == Replace && Unmapped(facts))
  }

  lemma {:induction false} FactInAllSets(mode: Readd, s: PolicySet, elems: Elements, fact: Fact)
    requires mode != Keep && elems.Keys == SetsOf(PlanOf(s).sets).Keys
    ensures InAllSets(s, AddAll(mode, elems, FactAdds(s, fact), fact.at), fact.name, fact.ip, fact.Deadline(MIN_TTL))
  {
    var adds := FactAdds(s, fact);
    var rules := DomainRuleList(s, fact.name, |s.rules|);
    forall i: nat | i < |s.rules| && InDomainRules(s, fact.name, i)
      ensures var r, n, k := AddAll(mode, elems, adds, fact.at), SetFor(i, fact.ip), fact.ip.Unmap().AsSlice();
              n in r && k in r[n] && r[n][k] >= fact.Deadline(MIN_TTL)
    {
      assert i in rules;
      var m :| 0 <= m < |rules| && rules[m] == i;
      var a := adds[m];
      assert a in adds;
      FeedNeverMisses(s, fact, a);
      AddAllCovers(mode, elems, adds, fact.at, a);
    }
  }

  lemma {:induction false} OtherInAllSets(mode: Readd, s: PolicySet, elems: Elements, fact: Fact, name: string,
          ip: IP, deadline: Time)
    requires InAllSets(s, elems, name, ip, deadline)
    requires mode == Extend || fact.ip.Unmap() != ip.Unmap()
    ensures InAllSets(s, AddAll(mode, elems, FactAdds(s, fact), fact.at), name, ip, deadline)
  {
    var adds, k := FactAdds(s, fact), ip.Unmap().AsSlice();
    forall a | a in adds && mode != Extend ensures a.Key() != k {
      if fact.ip.Unmap().AsSlice() == k { SameFamilyBytes(fact.ip.Unmap(), ip.Unmap()); }
    }
    forall i: nat | i < |s.rules| && InDomainRules(s, name, i)
      ensures var r, n := AddAll(mode, elems, adds, fact.at), SetFor(i, ip);
              n in r && k in r[n] && r[n][k] >= deadline
    {
      AddAllKeeps(mode, elems, adds, fact.at, SetFor(i, ip), k);
    }
  }

  /** One address of an answer, recorded and fed. */
  function LearnFact(mode: Readd, s: PolicySet, w: World, fact: Fact): World {
    w.(cache := w.cache[fact.ip := CacheEntry(fact.name, fact.Deadline(MIN_TTL))],
       elems := AddAll(mode, w.elems, FactAdds(s, fact), fact.at),
       log := w.log + [fact],
       fed := w.fed + [fact])
  }

  lemma {:induction false} LearnFactCovered(mode: Readd, s: PolicySet, w: World, fact: Fact)
    requires Covered(s, w) && w.elems.Keys == SetsOf(PlanOf(s).sets).Keys && Gentle(mode, [fact])
    ensures Covered(s, LearnFact(mode, s, w, fact))
    ensures LearnFact(mode, s, w, fact).elems.Keys == w.elems.Keys
  {
    var w1 := LearnFact(mode, s, w, fact);
    AddAllBySet(mode, w.elems, FactAdds(s, fact), fact.at, "");
    assert w1.log[..|w1.log| - 1] == w.log;
    assert fact in [fact];
    forall ip | ip in w1.cache && !ip.Is4In6()
      ensures var j := LastUnder(w1.log, ip);
              && j.Some?
              && w1.cache[ip] == CacheEntry(w1.log[j.value].name, w1.log[j.value].Deadline(MIN_TTL))
              && (j.value >= w1.loaded ==> InAllSets(s, w1.elems, w1.cache[ip].name, ip, w1.cache[ip].exp))
    {
      if ip == fact.ip {
        FactInAllSets(mode, s, w.elems, fact);
      } else {
        var j := LastUnder(w.log, ip).value;
        if j >= w.loaded {
          OtherInAllSets(mode, s, w.elems, fact, w.cache[ip].name, ip, w.cache[ip].exp);
        }
      }
    }
  }

  /** An answer is its addresses, learned one by one. */
  lemma {:induction false} LearnedFactByFact(mode: Readd, s: PolicySet, w: World, a: Answer, now: Time)
    requires a.addrs != []
    ensures var n := |a.addrs| - 1;
            Learned(mode, s, w, a, now, true) ==
              LearnFact(mode, s, Learned(mode, s, w, Answer(a.name, a.addrs[..n]), now, true),
                        Fact(a.name, a.addrs[n].ip, a.addrs[n].ttl, now))
  {
    var n := |a.addrs| - 1;
    var facts := FactsOf(a.name, a.addrs, now);
    assert facts[..n] == FactsOf(a.name, a.addrs[..n], now);
    assert w.log + facts == w.log + facts[..n] + [facts[n]];
    assert w.fed + facts == w.fed + facts[..n] + [facts[n]];
    RecordSnoc(w.cache, a.name, a.addrs, now);
  }

  lemma {:induction false} RecordSnoc(m: CacheMap, name: string, addrs: seq<AddrTTL>, now: Time)
    requires addrs != []
    ensures RecordAddrs(m, MIN_TTL, name, addrs, now)
         == RecordAddrs(m, MIN_TTL, name, addrs[..|addrs| - 1], now)
              [addrs[|addrs| - 1].ip := CacheEntry(name, now + Stretch(addrs[|addrs| - 1].ttl, MIN_TTL))]
    decreases |addrs|
  {
    var n := |addrs| - 1;
    var m1 := m[addrs[0].ip := CacheEntry(name, now + Stretch(addrs[0].ttl, MIN_TTL))];
    if n == 0 {
      assert addrs[1..] == [] && addrs[..0] == [];
    } else {
      RecordSnoc(m1, name, addrs[1..], now);
      assert addrs[1..][..n - 1] == addrs[..n][1..];
    }
  }

  lemma {:induction false} LearnedCovered(mode: Readd, s: PolicySet, w: World, a: Answer, now: Time)
    requires Covered(s, w) && w.elems.Keys == SetsOf(PlanOf(s).sets).Keys
    requires Gentle(mode, FactsOf(a.name, a.addrs, now))
    ensures Covered(s, Learned(mode, s, w, a, now, true))
    ensures Learned(mode, s, w, a, now, true).elems.Keys == w.elems.Keys
    decreases |a.addrs|
  {
    var facts := FactsOf(a.name, a.addrs, now);
    if a.addrs == [] {
      assert Learned(mode, s, w, a, now, true) == w by { assert w.log + facts == w.log && w.fed + facts == w.fed; }
    } else {
      var n := |a.addrs| - 1;
      var b := Answer(a.name, a.addrs[..n]);
      assert FactsOf(b.name, b.addrs, now) == facts[..n];
      assert forall f | f in facts[..n] :: f in facts;
      LearnedCovered(mode, s, w, b, now);
      LearnedFactByFact(mode, s, w, a, now);
      assert facts[n] in facts;
      LearnFactCovered(mode, s, Learned(mode, s, w, b, now, true), facts[n]);
    }
  }

  // ---- runs ----

  predicate GentleSeeds(mode: Readd, seeds: seq<Seeding>) {
    mode != Keep && forall sd | sd in seeds :: sd.flushOk
  }

  /** Every batch was committed, and mapped records do not shorten deadlines. */
  predicate GentleEvent(mode: Readd, e: Event) {
    match e
    case DnsFrame(now, answer, flushOk) =>
      flushOk && (answer.Some? ==> Gentle(mode, FactsOf(answer.value.name, answer.value.addrs, now)))
    case OtherFrame(_, _, _, seeds) => GentleSeeds(mode, seeds)
  }

  /** Seeding unmaps every address, so its facts are plain ones. */
  lemma {:induction false} SeedFactsUnmapped(name: string, ips: seq<IP>, at: Time)
    ensures Unmapped(FactsOf(name, SeedAnswer(name, ips).addrs, at))
  {
    var facts := FactsOf(name, SeedAnswer(name, ips).addrs, at);
    forall f | f in facts ensures !f.ip.Is4In6() {
      var k :| 0 <= k < |facts| && facts[k] == f;
      assert f.ip == ips[k].Unmap();
    }
  }

  lemma {:induction false} SeededCovered(mode: Readd, s: PolicySet, w: World, seeds: seq<Seeding>)
    requires Covered(s, w) && w.elems.Keys == SetsOf(PlanOf(s).sets).Keys && GentleSeeds(mode, seeds)
    ensures Covered(s, Seeded(mode, s, w, seeds))
    ensures Seeded(mode, s, w, seeds).elems.Keys == w.elems.Keys
  {
    if seeds != [] {
      var n := |seeds| - 1;
      assert forall sd | sd in seeds[..n] :: sd in seeds;
      assert seeds[n] in seeds;
      SeededCovered(mode, s, w, seeds[..n]);
      if seeds[n].ips.Some? {
        SeedFactsUnmapped(seeds[n].name, seeds[n].ips.value, seeds[n].at);
        LearnedCovered(mode, s, Seeded(mode, s, w, seeds[..n]), SeedAnswer(seeds[n].name, seeds[n].ips.value),
            seeds[n].at);
      }
    }
  }

  lemma {:induction false} StepCovered(mode: Readd, s: PolicySet, p: Plan, w: World, e: Event)
    requires p.sets == PlanOf(s).sets && Safe(s, p, w) && Covered(s, w) && GentleEvent(mode, e)
    ensures Covered(s, StepWorld(mode, s, p, w, e))
  {
    match e
    case DnsFrame(now, answer, _) =>
      if answer.Some? && answer.value.name != "" {
        LearnedCovered(mode, s, w, answer.value, now);
      }
    case OtherFrame(now, fs, applyOk, seeds) =>
      var w1 := Purged(w, now);
      assert Covered(s, w1);
      if now - w1.lastCheck > 5 * SECOND && Appeared(w1.table.missing, fs) && applyOk && TableOf(p, fs).Ok? {
        var w2 := Reloaded(w1.(lastCheck := now), TableOf(p, fs).value, fs);
        assert Covered(s, w2) by {
          forall ip | ip in w2.cache && !ip.Is4In6() ensures LastUnder(w2.log, ip).value < w2.loaded {
          }
        }
        SeededCovered(mode, s, w2, seeds);
      }
  }

  /** Coverage over whole runs: if every batch was committed, then in every state
      whatever the cache remembers from after the last load is in the sets. */
  lemma {:induction false} RunCovered(mode: Readd, s: PolicySet, p: Plan, t: Table, fs: CgroupFs, start: Time,
          seeds: seq<Seeding>, es: seq<Event>)
    requires p.sets == PlanOf(s).sets && TableOf(p, fs) == Ok(t)
    requires GentleSeeds(mode, seeds) && forall e | e in es :: GentleEvent(mode, e)
    ensures Covered(s, RunWorld(mode, s, p, Seeded(mode, s, StartWorld(t, fs, start), seeds), es))
  {
    var w0 := Seeded(mode, s, StartWorld(t, fs, start), seeds);
    if es == [] {
      SeededCovered(mode, s, StartWorld(t, fs, start), seeds);
    } else {
      var n := |es| - 1;
      assert forall e | e in es[..n] :: e in es;
      assert es[n] in es;
      RunCovered(mode, s, p, t, fs, start, seeds, es[..n]);
      RunSafe(mode, s, p, t, fs, start, seeds, es[..n]);
      StepCovered(mode, s, p, RunWorld(mode, s, p, w0, es[..n]), es[n]);
    }
  }

  /** What coverage gives a packet: while a lookup names an address learned since
      the last load, the address is live in the right-family set of every rule
      that covers the name. */
  lemma {:induction false} NamedAddressIsLive(s: PolicySet, w: World, ip: IP, now: Time, name: string, i: nat)
    requires Covered(s, w) && LookupIn(w.cache, ip, now) == Some(name)
    requires LastUnder(w.log, ip.Unmap()).Some? && LastUnder(w.log, ip.Unmap()).value >= w.loaded
    requires i < |s.rules| && InDomainRules(s, name, i)
    ensures HasKey(LiveSets(w.elems, w.table.anon, now), SetFor(i, ip), ip.Unmap().AsSlice())
  {
    var a: IP := ip.Unmap();
    assert InAllSets(s, w.elems, w.cache[a].name, a, w.cache[a].exp);
    LiveSetsNamed(s, w.elems, w.table.anon, now, i, if a.IPv4? then V4 else V6, a.AsSlice());
  }

  /** Coverage over whole runs, for one packet's address. */
  lemma {:induction false} RunNamedIsLive(mode: Readd, s: PolicySet, p: Plan, t: Table, fs: CgroupFs, start: Time,
          seeds: seq<Seeding>, es: seq<Event>, ip: IP, now: Time, name: string, i: nat)
    requires p.sets == PlanOf(s).sets && TableOf(p, fs) == Ok(t)
    requires GentleSeeds(mode, seeds) && forall e | e in es :: GentleEvent(mode, e)
    requires var w := RunWorld(mode, s, p, Seeded(mode, s, StartWorld(t, fs, start), seeds), es);
             && LookupIn(w.cache, ip, now) == Some(name)
             && LastUnder(w.log, ip.Unmap()).Some? && LastUnder(w.log, ip.Unmap()).value >= w.loaded
    requires i < |s.rules| && InDomainRules(s, name, i)
    ensures var w := RunWorld(mode, s, p, Seeded(mode, s, StartWorld(t, fs, start), seeds), es);
            HasKey(LiveSets(w.elems, w.table.anon, now), SetFor(i, ip), ip.Unmap().AsSlice())
  {
    var w := RunWorld(mode, s, p, Seeded(mode, s, StartWorld(t, fs, start), seeds), es);
    RunCovered(mode, s, p, t, fs, start, seeds, es);
    NamedAddressIsLive(s, w, ip, now, name, i);
  }
}
