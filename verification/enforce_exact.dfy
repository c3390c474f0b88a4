/** Exactness of enforcing runs: the content of every set, on any kind of kernel and
    whatever batches fail, and with it the verdict of either chain on every packet. */
module EnforceExact {
  import opened Clock
  import opened Wrappers
  import opened Bytes
  import opened Text
  import opened Netip
  import opened Seqs
  import opened Policy
  import opened PolicyLaws
  import opened Plan
  import opened PlanCorrect
  import opened Kernel
  import opened Codegen
  import opened Apply
  import opened TableCorrect
  import opened SetNames
  import opened Dnswatch
  import opened Enforce
  import opened EnforceSafety
  import opened EnforceCoverage

  // ---- the sets are a function of the answers fed to them ----

  function NoElems(s: PolicySet): Elements {
    EmptySets(SetsOf(PlanOf(s).sets).Keys)
  }

  predicate FedExactly(mode: Readd, s: PolicySet, w: World) {
    w.elems == FeedFacts(mode, s, NoElems(s), w.fed)
  }

  lemma {:induction false} FeedConcatStep(mode: Readd, s: PolicySet, elems: Elements, a: seq<Fact>, b: seq<Fact>,
          fact: Fact)
    requires FeedFacts(mode, s, elems, a + b) == FeedFacts(mode, s, FeedFacts(mode, s, elems, a), b)
    ensures FeedFacts(mode, s, elems, (a + b) + [fact]) == FeedFacts(mode, s, FeedFacts(mode, s, elems, a), b + [fact])
  {
    FeedOneMore(mode, s, elems, a + b, fact);
    FeedOneMore(mode, s, FeedFacts(mode, s, elems, a), b, fact);
  }

  lemma {:induction false} FeedConcat(mode: Readd, s: PolicySet, elems: Elements, a: seq<Fact>, b: seq<Fact>)
    ensures FeedFacts(mode, s, elems, a + b) == FeedFacts(mode, s, FeedFacts(mode, s, elems, a), b)
  {
    if b == [] {
      assert a + b == a && FeedFacts(mode, s, FeedFacts(mode, s, elems, a), b) == FeedFacts(mode, s, elems, a);
    } else {
      var init, last := b[..|b| - 1], b[|b| - 1];
      FeedConcat(mode, s, elems, a, init);
      FeedConcatStep(mode, s, elems, a, init, last);
      Snoc(b);
      Regroup(a, init, [last]);
    }
  }

  lemma {:induction false} SeededFed(mode: Readd, s: PolicySet, w: World, seeds: seq<Seeding>)
    requires FedExactly(mode, s, w)
    ensures FedExactly(mode, s, Seeded(mode, s, w, seeds))
  {
    if seeds != [] {
      var n := |seeds| - 1;
      SeededFed(mode, s, w, seeds[..n]);
      var before := Seeded(mode, s, w, seeds[..n]);
      if seeds[n].ips.Some? {
        var a := SeedAnswer(seeds[n].name, seeds[n].ips.value);
        FeedConcat(mode, s, NoElems(s), before.fed, FactsOf(a.name, a.addrs, seeds[n].at));
      }
    }
  }

  lemma {:induction false} StepFed(mode: Readd, s: PolicySet, p: Plan, w: World, e: Event)
    requires p.sets == PlanOf(s).sets && FedExactly(mode, s, w)
    ensures FedExactly(mode, s, StepWorld(mode, s, p, w, e))
  {
    match e
    case DnsFrame(now, answer, _) =>
      if answer.Some? {
        FeedConcat(mode, s, NoElems(s), w.fed, FactsOf(answer.value.name, answer.value.addrs, now));
      }
    case OtherFrame(now, fs, applyOk, seeds) =>
      var w1 := Purged(w, now);
      assert FedExactly(mode, s, w1);
      if now - w1.lastCheck > 5 * SECOND && Appeared(w1.table.missing, fs) && applyOk && TableOf(p, fs).Ok? {
        SeededFed(mode, s, Reloaded(w1.(lastCheck := now), TableOf(p, fs).value, fs), seeds);
      }
  }

  /** In every state of every run the sets hold what the answers fed to them since the
      last load make of empty ones: whatever fails, and whatever the kernel does to the
      deadline of a key added again. */
  lemma {:induction false} RunFed(mode: Readd, s: PolicySet, p: Plan, t: Table, fs: CgroupFs, start: Time,
          seeds: seq<Seeding>, es: seq<Event>)
    requires p.sets == PlanOf(s).sets && TableOf(p, fs) == Ok(t)
    ensures FedExactly(mode, s, RunWorld(mode, s, p, Seeded(mode, s, StartWorld(t, fs, start), seeds), es))
  {
    var w0 := Seeded(mode, s, StartWorld(t, fs, start), seeds);
    if es == [] {
      SeededFed(mode, s, StartWorld(t, fs, start), seeds);
    } else {
      var n := |es| - 1;
      RunFed(mode, s, p, t, fs, start, seeds, es[..n]);
      StepFed(mode, s, p, RunWorld(mode, s, p, w0, es[..n]), es[n]);
    }
  }

  // ---- what that makes of one address and one rule ----

  /** The answer puts `dst` into the set of rule `i`. */
  predicate Reaches(s: PolicySet, fact: Fact, i: nat, dst: IP) {
    fact.ip.Unmap() == dst && InDomainRules(s, fact.name, i)
  }

  /** An answer for an address: when it came, and until when it is good. */
  datatype Hit = Hit(at: Time, until: Time)

  function HitOf(fact: Fact): Hit {
    Hit(fact.at, fact.Deadline(MIN_TTL))
  }

  /** For each answer, what it says of `dst` in the set of rule `i`, if anything. */
  function Hits(s: PolicySet, fed: seq<Fact>, i: nat, dst: IP): seq<Option<Hit>> {
    seq(|fed|, j requires 0 <= j < |fed| => if Reaches(s, fed[j], i, dst) then Some(HitOf(fed[j])) else None)
  }

  function OneMore(mode: Readd, before: Option<Time>, hit: Option<Hit>): Option<Time> {
    if hit.None? then before
    else if before.Some? && mode == Extend && before.value > hit.value.until then before
    else if before.Some? && mode == Keep && before.value >= hit.value.at then before
    else Some(hit.value.until)
  }

  /** What a kernel makes of answers that come one after the other. */
  function Settled(mode: Readd, hits: seq<Option<Hit>>): Option<Time> {
    if hits == [] then None else OneMore(mode, Settled(mode, hits[..|hits| - 1]), hits[|hits| - 1])
  }

  /** Until when `dst` is in the set of rule `i`. */
  function DeadlineOf(mode: Readd, s: PolicySet, fed: seq<Fact>, i: nat, dst: IP): Option<Time> {
    Settled(mode, Hits(s, fed, i, dst))
  }

  /** Where deadlines are extended, an address stays until all its answers have run out. */
  lemma {:induction false} ExtendSettled(hits: seq<Option<Hit>>, now: Time)
    ensures Settled(Extend, hits).Some? && now <= Settled(Extend, hits).value <==>
              exists j | 0 <= j < |hits| :: hits[j].Some? && now <= hits[j].value.until
  {
    if hits != [] {
      var n := |hits| - 1;
      ExtendSettled(hits[..n], now);
      assert forall j | 0 <= j < n :: hits[..n][j] == hits[j];
    }
  }

  /** Where they are replaced, until its last answer has. */
  lemma {:induction false} ReplaceSettled(hits: seq<Option<Hit>>, j: nat)
    requires j < |hits| && forall k | j < k < |hits| :: hits[k].None?
    ensures hits[j].Some? ==> Settled(Replace, hits) == Some(hits[j].value.until)
    ensures (forall k | 0 <= k <= j :: hits[k].None?) ==> Settled(Replace, hits) == None
  {
    var n := |hits| - 1;
    if j < n {
      ReplaceSettled(hits[..n], j);
    } else if hits[n].None? && n > 0 && forall k | 0 <= k <= n :: hits[k].None? {
      ReplaceSettled(hits[..n], n - 1);
    }
  }

  /** Where they are kept, until the answer that put it there has, whatever came since. */
  lemma {:induction false} KeepSettled(hits: seq<Option<Hit>>) returns (j: nat)
    requires Settled(Keep, hits).Some?
    ensures j < |hits| && hits[j].Some? && Settled(Keep, hits) == Some(hits[j].value.until)
    ensures forall k | j < k < |hits| && hits[k].Some? :: hits[k].value.at <= hits[j].value.until
  {
    var n := |hits| - 1;
    var before := Settled(Keep, hits[..n]);
    if hits[n].Some? && !(before.Some? && before.value >= hits[n].value.at) {
      j := n;
    } else {
      j := KeepSettled(hits[..n]);
    }
  }

  /** The additions for one set, when every addition is for a different one. */
  lemma {:induction false} ForSetOnce(adds: seq<Add>, name: string)
    requires forall j, k | 0 <= j < k < |adds| :: adds[j].set_ != adds[k].set_
    ensures (forall a | a in adds :: a.set_ != name) ==> ForSet(adds, name) == []
    ensures forall a | a in adds && a.set_ == name :: ForSet(adds, name) == [a]
  {
    if adds != [] {
      var n := |adds| - 1;
      ForSetOnce(adds[..n], name);
      assert forall a :: a in adds <==> a in adds[..n] || a == adds[n];
      assert forall a | a in adds[..n] :: a.set_ != adds[n].set_;
    }
  }

  lemma {:induction false} FactAddsDistinct(s: PolicySet, fact: Fact)
    ensures var adds := FactAdds(s, fact); forall j, k | 0 <= j < k < |adds| :: adds[j].set_ != adds[k].set_
  {
    var rules, adds := DomainRuleList(s, fact.name, |s.rules|), FactAdds(s, fact);
    var g := if fact.ip.Unmap().IPv4? then V4 else V6;
    forall j, k | 0 <= j < k < |adds| ensures adds[j].set_ != adds[k].set_ {
      if adds[j].set_ == adds[k].set_ { SetNameInjective(rules[j], g, rules[k], g); }
    }
  }

  /** What one answer's address adds to the set of rule `i` and a family. */
  lemma {:induction false} FactForSet(s: PolicySet, fact: Fact, i: nat, f: Family)
    requires i < |s.rules| && f != AnyFamily
    ensures var here := InDomainRules(s, fact.name, i) && SetFor(i, fact.ip) == SetName(i, f);
            ForSet(FactAdds(s, fact), SetName(i, f)) ==
              if here then [Add(SetName(i, f), fact.ip, Stretch(fact.ttl, MIN_TTL))] else []
  {
    var rules, adds := DomainRuleList(s, fact.name, |s.rules|), FactAdds(s, fact);
    var g := if fact.ip.Unmap().IPv4? then V4 else V6;
    FactAddsDistinct(s, fact);
    ForSetOnce(adds, SetName(i, f));
    if i in rules && SetFor(i, fact.ip) == SetName(i, f) {
      var m :| 0 <= m < |rules| && rules[m] == i;
      assert adds[m] in adds;
    } else {
      forall a | a in adds ensures a.set_ != SetName(i, f) {
        var m :| 0 <= m < |adds| && adds[m] == a;
        assert rules[m] in rules;
        if a.set_ == SetName(i, f) { SetNameInjective(rules[m], g, i, f); }
      }
    }
  }

  /** Key `k` is in set `n` exactly until `d`. */
  predicate HoldsUntil(elems: Elements, n: string, k: seq<byte>, d: Option<Time>) {
    && n in elems
    && (k in elems[n] <==> d.Some?) && (d.Some? ==> elems[n][k] == d.value)
  }

  /** One more answer, seen from one key. */
  lemma {:induction false} FactAtKey(mode: Readd, s: PolicySet, elems: Elements, fact: Fact, i: nat, dst: IP,
          d: Option<Time>)
    requires i < |s.rules| && !dst.Is4In6()
    requires HoldsUntil(elems, SetFor(i, dst), dst.AsSlice(), d)
    ensures HoldsUntil(AddAll(mode, elems, FactAdds(s, fact), fact.at), SetFor(i, dst), dst.AsSlice(),
                       OneMore(mode, d, if Reaches(s, fact, i, dst) then Some(HitOf(fact)) else None))
  {
    var f := if dst.IPv4? then V4 else V6;
    var adds := FactAdds(s, fact);
    AddAllBySet(mode, elems, adds, fact.at, SetFor(i, dst));
    FactForSet(s, fact, i, f);
    if ForSet(adds, SetName(i, f)) != [] {
      var a := Add(SetName(i, f), fact.ip, Stretch(fact.ttl, MIN_TTL));
      assert [a][..0] == [];
      if a.Key() == dst.AsSlice() { SameFamilyBytes(fact.ip.Unmap(), dst); }
    }
  }

  /** The set of a rule with domains exists, and is empty at first. */
  lemma {:induction false} NothingFed(s: PolicySet, i: nat, dst: IP)
    requires i < |s.rules| && HasDomains(s.rules[i]) && !dst.Is4In6()
    ensures HoldsUntil(NoElems(s), SetFor(i, dst), dst.AsSlice(), None)
  {
    var f := if dst.IPv4? then V4 else V6;
    assert Declares(s, 0, SetName(i, f), f);
    DeclaredExactly(s, 0, SetName(i, f), f);
  }

  lemma {:induction false} FeedOneMore(mode: Readd, s: PolicySet, elems: Elements, fed: seq<Fact>, fact: Fact)
    ensures FeedFacts(mode, s, elems, fed + [fact])
         == AddAll(mode, FeedFacts(mode, s, elems, fed), FactAdds(s, fact), fact.at)
  {
    assert (fed + [fact])[..|fed|] == fed;
  }

  lemma {:induction false} SettledOneMore(mode: Readd, hits: seq<Option<Hit>>, hit: Option<Hit>)
    ensures Settled(mode, hits + [hit]) == OneMore(mode, Settled(mode, hits), hit)
  {
    assert (hits + [hit])[..|hits|] == hits;
  }

  lemma {:induction false} DeadlineOneMore(mode: Readd, s: PolicySet, fed: seq<Fact>, fact: Fact, i: nat, dst: IP)
    ensures DeadlineOf(mode, s, fed + [fact], i, dst)
         == OneMore(mode, DeadlineOf(mode, s, fed, i, dst),
                    if Reaches(s, fact, i, dst) then Some(HitOf(fact)) else None)
  {
    var hit := if Reaches(s, fact, i, dst) then Some(HitOf(fact)) else None;
    assert Hits(s, fed + [fact], i, dst) == Hits(s, fed, i, dst) + [hit];
    SettledOneMore(mode, Hits(s, fed, i, dst), hit);
  }

  lemma {:induction false} KeyOneMore(mode: Readd, s: PolicySet, empty: Elements, fed: seq<Fact>, fact: Fact,
          i: nat, dst: IP)
    requires i < |s.rules| && !dst.Is4In6()
    requires HoldsUntil(FeedFacts(mode, s, empty, fed), SetFor(i, dst), dst.AsSlice(), DeadlineOf(mode, s, fed, i, dst))
    ensures HoldsUntil(FeedFacts(mode, s, empty, fed + [fact]), SetFor(i, dst), dst.AsSlice(),
                       DeadlineOf(mode, s, fed + [fact], i, dst))
  {
    FactAtKey(mode, s, FeedFacts(mode, s, empty, fed), fact, i, dst, DeadlineOf(mode, s, fed, i, dst));
    FeedOneMore(mode, s, empty, fed, fact);
    DeadlineOneMore(mode, s, fed, fact, i, dst);
  }

  /** The deadline of every key in every set, starting from sets without it. */
  lemma {:induction false} KeyDeadline(mode: Readd, s: PolicySet, empty: Elements, fed: seq<Fact>, i: nat, dst: IP)
    requires i < |s.rules| && !dst.Is4In6() && HoldsUntil(empty, SetFor(i, dst), dst.AsSlice(), None)
    ensures HoldsUntil(FeedFacts(mode, s, empty, fed), SetFor(i, dst), dst.AsSlice(), DeadlineOf(mode, s, fed, i, dst))
  {
    if fed != [] {
      var n := |fed| - 1;
      KeyDeadline(mode, s, empty, fed[..n], i, dst);
      KeyOneMore(mode, s, empty, fed[..n], fed[n], i, dst);
      assert fed == fed[..n] + [fed[n]];
    }
  }

  // ---- the verdict ----

  /** The rules in whose sets `dst` is at an instant. */
  function LiveRules(mode: Readd, s: PolicySet, fed: seq<Fact>, dst: IP, now: Time): set<nat> {
    set i: nat | i < |s.rules| && IsLive(mode, s, fed, i, dst, now)
  }

  predicate IsLive(mode: Readd, s: PolicySet, fed: seq<Fact>, i: nat, dst: IP, now: Time) {
    var d := DeadlineOf(mode, s, fed, i, dst);
    d.Some? && now <= d.value
  }

  lemma {:induction false} LiveRulesHold(mode: Readd, s: PolicySet, w: World, dst: IP, now: Time)
    requires FedExactly(mode, s, w) && !dst.Is4In6()
    ensures SetsHoldFor(s, LiveRules(mode, s, w.fed, dst, now), dst, LiveSets(w.elems, w.table.anon, now))
  {
    forall i: nat | i < |s.rules| && HasDomains(s.rules[i])
      ensures HasKey(LiveSets(w.elems, w.table.anon, now), SetFor(i, dst), dst.AsSlice()) <==>
                i in LiveRules(mode, s, w.fed, dst, now)
    {
      NothingFed(s, i, dst);
      KeyDeadline(mode, s, NoElems(s), w.fed, i, dst);
      LiveSetsNamed(s, w.elems, w.table.anon, now, i, if dst.IPv4? then V4 else V6, dst.AsSlice());
    }
  }

  /** Each state decides exactly, for either chain and every packet to an address that is
      not IPv4-mapped. */
  lemma {:induction false} StateDecidesExactly(mode: Readd, s: PolicySet, p: Plan, w: World, forward: bool,
          pkt: Packet, f: Flow, d: Dest, now: Time)
    requires WellFormedSet(s) && p.sets == PlanOf(s).sets && p.atoms == PlanOf(s).atoms
    requires p.defaultDeny == PlanOf(s).defaultDeny && (forward ==> p.forward)
    requires TableOf(p, w.fs) == Ok(w.table) && FedExactly(mode, s, w)
    requires AboutPacket(s, w, forward, pkt, f, d) && !f.dst.Is4In6()
    ensures ChainVerdict(forward, w, pkt, now) ==
              if PassesEarly(forward, pkt, f) then Accepted
              else DecisionOutcome(DecideAmong(s, 0, d, LiveRules(mode, s, w.fed, f.dst, now), f.inside))
  {
    var sets, live := LiveSets(w.elems, w.table.anon, now), LiveRules(mode, s, w.fed, f.dst, now);
    LiveSetsAnonymous(w.elems, w.table.anon, now);
    LiveRulesHold(mode, s, w, f.dst, now);
    TableDecidesAsAtoms(s, p, w.fs, forward, pkt, f, sets);
    AtomsDecideAsRules(s, 0, f, sets);
    RulesDecideAmong(s, 0, d, f, live, sets);
  }

  /** The enforcing run decides exactly: in every state of every run, on any kind of kernel,
      whatever fails and whatever became of cgroups since the load, either chain gives a
      packet the policy's verdict, with its destination under exactly the rules an answer
      for it still stands for and its socket in exactly the cgroups whose loaded id it has. */
  lemma {:induction false} RunDecidesExactly(mode: Readd, s: PolicySet, p: Plan, t: Table, fs: CgroupFs,
          start: Time, seeds: seq<Seeding>, es: seq<Event>, forward: bool, pkt: Packet, f: Flow, d: Dest,
          now: Time)
    requires WellFormedSet(s) && p.sets == PlanOf(s).sets && p.atoms == PlanOf(s).atoms
    requires p.defaultDeny == PlanOf(s).defaultDeny && (forward ==> p.forward) && TableOf(p, fs) == Ok(t)
    requires var w := RunWorld(mode, s, p, Seeded(mode, s, StartWorld(t, fs, start), seeds), es);
             AboutPacket(s, w, forward, pkt, f, d) && !f.dst.Is4In6()
    ensures var w := RunWorld(mode, s, p, Seeded(mode, s, StartWorld(t, fs, start), seeds), es);
            ChainVerdict(forward, w, pkt, now) ==
              if PassesEarly(forward, pkt, f) then Accepted
              else DecisionOutcome(DecideAmong(s, 0, d, LiveRules(mode, s, w.fed, f.dst, now), f.inside))
  {
    var w := RunWorld(mode, s, p, Seeded(mode, s, StartWorld(t, fs, start), seeds), es);
    RunFed(mode, s, p, t, fs, start, seeds, es);
    RunSafe(mode, s, p, t, fs, start, seeds, es);
    StateDecidesExactly(mode, s, p, w, forward, pkt, f, d, now);
  }

  // ---- by name ----

  /** Answer `j` put `dst` under rule `i`, and has not run out. */
  predicate Stands(s: PolicySet, fed: seq<Fact>, i: nat, dst: IP, now: Time, j: nat) {
    j < |fed| && Reaches(s, fed[j], i, dst) && now <= fed[j].Deadline(MIN_TTL)
  }

  /** Where deadlines are extended, any answer that has not run out keeps an address in a set. */
  lemma {:induction false} ExtendLiveIff(s: PolicySet, fed: seq<Fact>, i: nat, dst: IP, now: Time)
    ensures IsLive(Extend, s, fed, i, dst, now) <==> exists j: nat | j < |fed| :: Stands(s, fed, i, dst, now, j)
  {
    var hits := Hits(s, fed, i, dst);
    ExtendSettled(hits, now);
    assert forall j: nat | j < |fed| :: Stands(s, fed, i, dst, now, j) <==> hits[j].Some? && now <= hits[j].value.until;
  }

  /** Where they are replaced, only the last one does, as long as it lasts. */
  lemma {:induction false} ReplaceLiveIff(s: PolicySet, fed: seq<Fact>, i: nat, dst: IP, now: Time, j: nat)
    requires j < |fed| && Reaches(s, fed[j], i, dst) && forall k | j < k < |fed| :: !Reaches(s, fed[k], i, dst)
    ensures IsLive(Replace, s, fed, i, dst, now) <==> now <= fed[j].Deadline(MIN_TTL)
  {
    ReplaceSettled(Hits(s, fed, i, dst), j);
  }

  /** Where they are kept, the one that put it there does, even if others came since. */
  lemma {:induction false} KeepLiveBy(s: PolicySet, fed: seq<Fact>, i: nat, dst: IP, now: Time) returns (j: nat)
    requires IsLive(Keep, s, fed, i, dst, now)
    ensures Stands(s, fed, i, dst, now, j)
    ensures forall k | j < k < |fed| && Reaches(s, fed[k], i, dst) :: fed[k].at <= fed[j].Deadline(MIN_TTL)
  {
    var hits := Hits(s, fed, i, dst);
    j := KeepSettled(hits);
    assert forall k | 0 <= k < |fed| && Reaches(s, fed[k], i, dst) :: hits[k] == Some(HitOf(fed[k]));
  }

  /** The names an address goes by: those of its answers that have not run out. */
  function LiveNames(fed: seq<Fact>, dst: IP, now: Time): set<string> {
    set j | 0 <= j < |fed| && fed[j].ip.Unmap() == dst && now <= fed[j].Deadline(MIN_TTL) :: fed[j].name
  }

  /** Where deadlines are extended, an address is under the rules its names are under. */
  lemma {:induction false} LiveRulesAreNamed(s: PolicySet, fed: seq<Fact>, dst: IP, now: Time)
    ensures LiveRules(Extend, s, fed, dst, now) == NamedRules(s, LiveNames(fed, dst, now))
  {
    var names := LiveNames(fed, dst, now);
    forall i: nat | i < |s.rules| ensures i in LiveRules(Extend, s, fed, dst, now) <==> Named(s, names, i) {
      ExtendLiveIff(s, fed, i, dst, now);
      if Named(s, names, i) {
        var n :| n in names && InDomainRules(s, n, i);
        var j: nat :| j < |fed| && fed[j].ip.Unmap() == dst && now <= fed[j].Deadline(MIN_TTL) && fed[j].name == n;
        assert Stands(s, fed, i, dst, now, j);
      }
      if IsLive(Extend, s, fed, i, dst, now) {
        var j: nat :| j < |fed| && Stands(s, fed, i, dst, now, j);
        assert fed[j].name in names;
      }
    }
  }

  /** On kernels that extend deadlines, and for a socket the kernel places where its path
      does, that is the policy's verdict on the destination under all the names it currently
      goes by. */
  lemma {:induction false} RunDecidesAsPolicy(s: PolicySet, p: Plan, t: Table, fs: CgroupFs, start: Time,
          seeds: seq<Seeding>, es: seq<Event>, forward: bool, pkt: Packet, f: Flow, d: Dest, now: Time)
    requires WellFormedSet(s) && p.sets == PlanOf(s).sets && p.atoms == PlanOf(s).atoms
    requires p.defaultDeny == PlanOf(s).defaultDeny && (forward ==> p.forward) && TableOf(p, fs) == Ok(t)
    requires var w := RunWorld(Extend, s, p, Seeded(Extend, s, StartWorld(t, fs, start), seeds), es);
             AboutPacket(s, w, forward, pkt, f, d) && !f.dst.Is4In6()
    requires f.inside == CgroupsAbove(s, TrimSlashes(d.cgroup))
    ensures var w := RunWorld(Extend, s, p, Seeded(Extend, s, StartWorld(t, fs, start), seeds), es);
            ChainVerdict(forward, w, pkt, now) ==
              if PassesEarly(forward, pkt, f) then Accepted
              else DecisionOutcome(DecideNamed(s, d, LiveNames(w.fed, f.dst, now)))
  {
    var w := RunWorld(Extend, s, p, Seeded(Extend, s, StartWorld(t, fs, start), seeds), es);
    RunDecidesExactly(Extend, s, p, t, fs, start, seeds, es, forward, pkt, f, d, now);
    LiveRulesAreNamed(s, w.fed, f.dst, now);
  }
}
