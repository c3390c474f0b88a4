/** The enforcing loop as the program runs it: one cache, one table handle that a
    reload replaces, and the two timers. Each method does to the state what the
    transition functions of Enforce say. */
module Daemon {
  import opened Clock
  import opened Wrappers
  import opened Bytes
  import opened Netip
  import opened Policy
  import opened PolicyLaws
  import opened Plan
  import opened Kernel
  import opened Codegen
  import opened Apply
  import opened SetNames
  import opened Dnswatch
  import opened Enforce

  /** The loaded table, read off a handle. */
  function TableIn(h: Handle, forward: bool): Table
    reads h
    requires OUTPUT_CHAIN in h.chains && (forward ==> FORWARD_CHAIN in h.chains)
  {
    Table(h.sets, h.chains[OUTPUT_CHAIN], if forward then h.chains[FORWARD_CHAIN] else [], h.policy, h.anon, h.missing)
  }

  class Enforcer {
    const set_: PolicySet
    const plan: Plan
    const mode: Readd
    const cache: Cache
    var handle: Handle
    var lastSweep: Time
    var lastCheck: Time
    ghost var fs: CgroupFs
    ghost var log: seq<Fact>
    ghost var loaded: nat
    ghost var fed: seq<Fact>

    ghost predicate Valid()
      reads this, cache, handle
    {
      && cache.minTTL == MIN_TTL
      && plan.sets == PlanOf(set_).sets && (forall a | a in plan.atoms :: GoodAtom(a))
      && handle.sets == SetsOf(plan.sets) && handle.elems.Keys == handle.sets.Keys
      && OUTPUT_CHAIN in handle.chains && (plan.forward ==> FORWARD_CHAIN in handle.chains)
    }

    ghost function State(): World
      reads this, cache, handle
      requires Valid()
    {
      World(cache.byIP, handle.elems, TableIn(handle, plan.forward), fs, lastSweep, lastCheck, log, loaded, fed)
    }

    constructor (set_: PolicySet, plan: Plan, mode: Readd, cache: Cache, handle: Handle, now: Time,
            ghost fs: CgroupFs)
      requires cache.minTTL == MIN_TTL && cache.byIP == map[]
      requires plan.sets == PlanOf(set_).sets && forall a | a in plan.atoms :: GoodAtom(a)
      requires OUTPUT_CHAIN in handle.chains && (plan.forward ==> FORWARD_CHAIN in handle.chains)
      requires TableOf(plan, fs) == Ok(TableIn(handle, plan.forward))
      requires handle.elems == EmptySets(handle.sets.Keys)
      ensures this.set_ == set_ && this.plan == plan && this.mode == mode && this.cache == cache
              && this.handle == handle
      ensures Valid() && State() == StartWorld(TableIn(handle, plan.forward), fs, now)
    {
      this.set_, this.plan, this.mode, this.cache, this.handle := set_, plan, mode, cache, handle;
      this.lastSweep, this.lastCheck, this.fs, this.log, this.loaded, this.fed := now, now, fs, [], 0, [];
    }

    /** The inner loop of feed: one address for every covering rule. */
    method FeedOne(before: seq<Add>, rules: seq<nat>, ip: IP, ttl: int, ghost fact: Fact) returns (adds: seq<Add>)
      requires rules == DomainRuleList(set_, fact.name, |set_.rules|)
      requires ip == fact.ip && ttl == Stretch(fact.ttl, MIN_TTL)
      ensures adds == before + FactAdds(set_, fact)
    {
      adds := before;
      ghost var all := FactAdds(set_, fact);
      for k := 0 to |rules|
        invariant adds == before + all[..k]
      {
        adds := adds + [Add(SetFor(rules[k], ip), ip, ttl)];
        assert all[..k + 1] == all[..k] + [all[k]];
      }
      assert all[..|rules|] == all;
    }

    /** The nested loops of feed. */
    method FeedList(a: Answer, ghost now: Time) returns (adds: seq<Add>)
      ensures adds == FeedAdds(set_, FactsOf(a.name, a.addrs, now))
    {
      ghost var facts := FactsOf(a.name, a.addrs, now);
      var rules := DomainRules(set_, a.name);
      adds := [];
      for i := 0 to |a.addrs|
        invariant adds == FeedAdds(set_, facts[..i])
      {
        var ttl := a.addrs[i].ttl;
        if ttl < MIN_TTL {
          ttl := MIN_TTL;
        }
        adds := FeedOne(adds, rules, a.addrs[i].ip, ttl, facts[i]);
        assert facts[..i + 1][..i] == facts[..i];
      }
      assert facts[..|a.addrs|] == facts;
    }

    /** Put an answer's addresses into the sets of every covering rule. */
    method Feed(a: Answer, now: Time, flushOk: bool)
      requires Valid()
      modifies handle`elems
      ensures Valid()
      ensures handle.elems == if flushOk then FeedFacts(mode, set_, old(handle.elems), FactsOf(a.name, a.addrs, now))
                              else old(handle.elems)
    {
      ghost var facts := FactsOf(a.name, a.addrs, now);
      var adds := FeedList(a, now);
      FeedIsFactByFact(mode, set_, handle.elems, facts, now);
      FeedKnown(set_, facts);
      AddAllBySet(mode, handle.elems, adds, now, "");
      var err := handle.AddAddrs(adds, mode, now, flushOk);
    }

    /** Record, then feed: one DNS answer off the wire, or one from seed. */
    method Learn(a: Answer, now: Time, flushOk: bool)
      requires Valid()
      modifies this`log, this`fed, cache, handle`elems
      ensures Valid() && State() == Learned(mode, set_, old(State()), a, now, flushOk)
    {
      cache.Record(a, now);
      Feed(a, now, flushOk);
      log := log + FactsOf(a.name, a.addrs, now);
      fed := if flushOk then fed + FactsOf(a.name, a.addrs, now) else fed;
    }

    /** The answer seed makes of one lookup's addresses. */
    method SeedAddrs(ips: seq<IP>) returns (addrs: seq<AddrTTL>)
      ensures forall name :: Answer(name, addrs) == SeedAnswer(name, ips)
    {
      addrs := [];
      for k := 0 to |ips|
        invariant |addrs| == k && forall j | 0 <= j < k :: addrs[j] == AddrTTL(ips[j].Unmap(), MIN_TTL)
      {
        addrs := addrs + [AddrTTL(ips[k].Unmap(), MIN_TTL)];
      }
    }

    method Seed(seeds: seq<Seeding>)
      requires Valid()
      modifies this`log, this`fed, cache, handle`elems
      ensures Valid() && State() == Seeded(mode, set_, old(State()), seeds)
    {
      for i := 0 to |seeds|
        invariant Valid() && State() == Seeded(mode, set_, old(State()), seeds[..i])
      {
        assert seeds[..i + 1][..i] == seeds[..i];
        if seeds[i].ips.None? {
          continue;
        }
        var addrs := SeedAddrs(seeds[i].ips.value);
        Learn(Answer(seeds[i].name, addrs), seeds[i].at, seeds[i].flushOk);
      }
      assert seeds[..|seeds|] == seeds;
    }

    /** Work with another handle from here on. */
    method Swap(h: Handle, ghost fs': CgroupFs)
      requires Valid() && h.sets == SetsOf(plan.sets) && h.elems == EmptySets(h.sets.Keys)
      requires OUTPUT_CHAIN in h.chains && (plan.forward ==> FORWARD_CHAIN in h.chains)
      modifies this`handle, this`fs, this`loaded, this`fed
      ensures Valid() && handle == h && State() == Reloaded(old(State()), TableIn(h, plan.forward), fs')
    {
      handle, fs, loaded, fed := h, fs', |log|, [];
    }

    /** Load the table again, now that a cgroup it was missing exists. */
    method Reload(now: Time, fs': CgroupFs, applyOk: bool, seeds: seq<Seeding>)
      requires Valid()
      modifies this`handle, this`fs, this`loaded, this`log, this`fed, cache, handle
      ensures Valid() && (handle == old(handle) || fresh(handle))
      ensures var w := old(State());
              State() == if applyOk && TableOf(plan, fs').Ok?
                         then Seeded(mode, set_, Reloaded(w, TableOf(plan, fs').value, fs'), seeds) else w
    {
      var loadedNow, err := Apply.Apply(plan, fs');
      if err.Some? || !applyOk {
        return;
      }
      Swap(loadedNow, fs');
      Seed(seeds);
    }

    method SweepCache(now: Time)
      requires Valid()
      modifies this`lastSweep, cache
      ensures Valid() && State() == Purged(old(State()), now)
    {
      if now - lastSweep > 30 * SECOND {
        cache.Purge(now);
        lastSweep := now;
      }
    }

    /** One turn of the loop. */
    method Frame(e: Event)
      requires Valid()
      modifies this, cache, handle
      ensures Valid() && State() == StepWorld(mode, set_, plan, old(State()), e)
      ensures handle == old(handle) || fresh(handle)
    {
      match e {
        case DnsFrame(now, answer, flushOk) =>
          if answer.Some? && answer.value.name != "" {
            Learn(answer.value, now, flushOk);
          }
        case OtherFrame(now, fs', applyOk, seeds) =>
          SweepCache(now);
          if now - lastCheck > 5 * SECOND {
            lastCheck := now;
            if Appeared(handle.missing, fs') {
              Reload(now, fs', applyOk, seeds);
            }
          }
      }
    }

    /** The loop. */
    method Run(es: seq<Event>)
      requires Valid()
      modifies this, cache, handle
      ensures Valid() && State() == RunWorld(mode, set_, plan, old(State()), es)
    {
      for i := 0 to |es|
        invariant Valid() && State() == RunWorld(mode, set_, plan, old(State()), es[..i])
        invariant handle == old(handle) || fresh(handle)
      {
        assert es[..i + 1][..i] == es[..i];
        Frame(es[i]);
      }
      assert es[..|es|] == es;
    }
  }

  lemma {:induction false} FeedKnown(s: PolicySet, facts: seq<Fact>)
    ensures forall a | a in FeedAdds(s, facts) :: a.set_ in SetsOf(PlanOf(s).sets)
  {
    if facts != [] {
      var n := |facts| - 1;
      FeedKnown(s, facts[..n]);
      forall a | a in FactAdds(s, facts[n]) ensures a.set_ in SetsOf(PlanOf(s).sets) {
        FeedNeverMisses(s, facts[n], a);
      }
    }
  }
}
