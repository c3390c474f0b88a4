/** When what the daemon reports is what the kernel does, for every policy without
    cgroups, as a condition on the run's answers alone. And a run where it is not. */
module ReportRuns {
  import opened Clock
  import opened Wrappers
  import opened Bytes
  import opened Text
  import opened Netip
  import opened Policy
  import opened PolicyLaws
  import opened Plan
  import opened PlanCorrect
  import opened Kernel
  import opened Codegen
  import opened Apply
  import opened TableCorrect
  import opened SetNames
  import opened Dnswatch
  import opened Enforce
  import opened EnforceSafety
  import opened EnforceExact
  import opened EnforceReport

  // ---- policies without cgroups never reload ----

  predicate NoCgroups(s: PolicySet) {
    WellFormedSet(s) && RuleCgroups(s) == {}
  }

  lemma {:induction false} NothingMissing(atoms: seq<Atom>, forward: bool, fs: CgroupFs, known: set<string>, anon: nat)
    requires forall a | a in atoms :: a.cgroup == ""
    ensures var b := AtomsBody(atoms, forward, fs, known, anon); b.Ok? ==> b.value.missing == {}
  {
    if atoms != [] {
      var one := AtomBody(atoms[0], forward, fs, known, anon);
      assert atoms[0] in atoms && forall a | a in atoms[1..] :: a in atoms;
      if one.Ok? {
        NothingMissing(atoms[1..], forward, fs, known, one.value.anon);
      }
    }
  }

  /** Such a policy always loads, and misses nothing. */
  lemma {:induction false} NoCgroupsLoad(s: PolicySet, fs: CgroupFs)
    requires NoCgroups(s)
    ensures TableOf(PlanOf(s), fs).Ok? && TableOf(PlanOf(s), fs).value.missing == {}
  {
    PlanCgroups(s, 0);
    assert forall a | a in PlanOf(s).atoms :: a.cgroup == "";
    PlanLoadsIff(s, PlanOf(s), fs);
    NothingMissing(PlanOf(s).atoms, false, fs, SetsOf(PlanOf(s).sets).Keys, 0);
  }

  /** The state a run of such a policy ends in. */
  function RunOf(mode: Readd, s: PolicySet, fs: CgroupFs, start: Time, seeds: seq<Seeding>, es: seq<Event>): World
    requires TableOf(PlanOf(s), fs).Ok?
  {
    RunWorld(mode, s, PlanOf(s), Seeded(mode, s, StartWorld(TableOf(PlanOf(s), fs).value, fs, start), seeds), es)
  }

  /** Two states that differ only in what the policy makes of the answers. */
  predicate Alike(a: World, b: World) {
    && a.cache == b.cache && a.fed == b.fed && a.lastSweep == b.lastSweep && a.lastCheck == b.lastCheck
    && a.table.missing == b.table.missing == {}
  }

  lemma {:induction false} SeededAlike(mode: Readd, s: PolicySet, t: PolicySet, a: World, b: World, seeds: seq<Seeding>)
    requires Alike(a, b)
    ensures Alike(Seeded(mode, s, a, seeds), Seeded(mode, t, b, seeds))
  {
    if seeds != [] {
      SeededAlike(mode, s, t, a, b, seeds[..|seeds| - 1]);
    }
  }

  lemma {:induction false} StepAlike(mode: Readd, s: PolicySet, t: PolicySet, a: World, b: World, e: Event)
    requires Alike(a, b)
    ensures Alike(StepWorld(mode, s, PlanOf(s), a, e), StepWorld(mode, t, PlanOf(t), b, e))
  {
  }

  lemma {:induction false} RunAlike(mode: Readd, s: PolicySet, t: PolicySet, a: World, b: World, es: seq<Event>)
    requires Alike(a, b)
    ensures Alike(RunWorld(mode, s, PlanOf(s), a, es), RunWorld(mode, t, PlanOf(t), b, es))
  {
    if es != [] {
      var n := |es| - 1;
      RunAlike(mode, s, t, a, b, es[..n]);
      StepAlike(mode, s, t, RunWorld(mode, s, PlanOf(s), a, es[..n]), RunWorld(mode, t, PlanOf(t), b, es[..n]), es[n]);
    }
  }

  /** What answers a run took in, and what it cached, does not depend on the policy. */
  lemma {:induction false} SameAnswers(mode: Readd, s: PolicySet, t: PolicySet, fs: CgroupFs, start: Time,
          seeds: seq<Seeding>, es: seq<Event>)
    requires NoCgroups(s) && NoCgroups(t)
    ensures TableOf(PlanOf(s), fs).Ok? && TableOf(PlanOf(t), fs).Ok?
    ensures Alike(RunOf(mode, s, fs, start, seeds, es), RunOf(mode, t, fs, start, seeds, es))
  {
    NoCgroupsLoad(s, fs);
    NoCgroupsLoad(t, fs);
    var a := StartWorld(TableOf(PlanOf(s), fs).value, fs, start);
    var b := StartWorld(TableOf(PlanOf(t), fs).value, fs, start);
    SeededAlike(mode, s, t, a, b, seeds);
    RunAlike(mode, s, t, Seeded(mode, s, a, seeds), Seeded(mode, t, b, seeds), es);
  }

  // ---- reported rightly, whatever the policy ----

  /** A packet out to `dst` that the policy is asked about, in the state a run ends in, and
      the destination it is reported as. */
  predicate Asked(w: World, s: PolicySet, pkt: Packet, f: Flow, d: Dest, dst: IP, now: Time) {
    && AboutPacket(s, w, false, pkt, f, d) && !PassesEarly(false, pkt, f)
    && f.dst == dst && d.domain == ReportedName(w, dst, now)
  }

  ghost predicate ReportedRightly(mode: Readd, fs: CgroupFs, start: Time, seeds: seq<Seeding>, es: seq<Event>,
          dst: IP, now: Time)
  {
    forall s: PolicySet, pkt: Packet, f: Flow, d: Dest |
      NoCgroups(s) && TableOf(PlanOf(s), fs).Ok?
      && Asked(RunOf(mode, s, fs, start, seeds, es), s, pkt, f, d, dst, now) ::
      ChainVerdict(false, RunOf(mode, s, fs, start, seeds, es), pkt, now) == DecisionOutcome(Decide(s, d))
  }

  /** The policy that names nothing; its runs are as good as any to tell what was answered. */
  const BARE := PolicySet([], Deny)

  lemma {:induction false} RunVerdict(mode: Readd, s: PolicySet, fs: CgroupFs, start: Time, seeds: seq<Seeding>,
          es: seq<Event>, pkt: Packet, f: Flow, d: Dest, now: Time)
    requires NoCgroups(s) && TableOf(PlanOf(s), fs).Ok? && !f.dst.Is4In6()
    requires AboutPacket(s, RunOf(mode, s, fs, start, seeds, es), false, pkt, f, d) && !PassesEarly(false, pkt, f)
    ensures var w := RunOf(mode, s, fs, start, seeds, es);
            var live := LiveRules(mode, s, w.fed, f.dst, now);
            ChainVerdict(false, w, pkt, now) == DecisionOutcome(DecideWhere(s, d, live))
  {
    var t := TableOf(PlanOf(s), fs).value;
    RunDecidesExactly(mode, s, PlanOf(s), t, fs, start, seeds, es, false, pkt, f, d, now);
    assert f.inside == {} == CgroupsAbove(s, TrimSlashes(d.cgroup));
  }

  lemma {:induction false} ZerosNotEstablished(pkt: Packet)
    requires pkt.ctstate == [0, 0, 0, 0]
    ensures !Established(pkt)
  {
    var masked := And(pkt.ctstate, ESTABLISHED_MASK);
    forall k | 0 <= k < 4 ensures masked[k] == 0 {
      ZeroAnd(ESTABLISHED_MASK[k]);
    }
    assert masked == [0, 0, 0, 0];
  }

  lemma {:induction false} ZeroAnd(m: byte)
    ensures BitAnd(0, m) == 0
  {
    forall j: nat | j < 8 ensures Bit(BitAnd(0, m), j) == Bit(0, j) {
      BitOfZero(7 - j);
    }
    ByteExtensional(BitAnd(0, m), 0);
  }

  /** A first packet to `dst`, to ask any policy about. */
  lemma {:induction false} PacketTo(s: PolicySet, w: World, dst: IP, n: string) returns (pkt: Packet, f: Flow, d: Dest)
    requires NoCgroups(s) && !IsHousekeeping(dst)
    ensures AboutPacket(s, w, false, pkt, f, d) && !PassesEarly(false, pkt, f) && f.dst == dst && d.domain == n
    ensures d == Dest(n, dst, 443, "tcp", "")
  {
    f := Flow(dst, TCP, 443, {});
    pkt := PacketOf(f);
    d := Dest(n, dst, 443, "tcp", "");
    PacketCarries(f);
    ZerosNotEstablished(pkt);
    assert ToLower("tcp") == "tcp";
  }

  /** Told apart on some names, the policy that allows them is reported wrongly. */
  lemma {:induction false} RightlyOnNames(mode: Readd, fs: CgroupFs, start: Time, seeds: seq<Seeding>,
          es: seq<Event>, dst: IP, now: Time, names: set<string>)
    requires !dst.Is4In6() && !IsHousekeeping(dst) && TableOf(PlanOf(BARE), fs).Ok? && "" !in names
    requires ReportedRightly(mode, fs, start, seeds, es, dst, now)
    ensures var w := RunOf(mode, BARE, fs, start, seeds, es);
            NamesLive(mode, w.fed, dst, names, now) <==> NormalizeDomain(ReportedName(w, dst, now)) in names
  {
    var s := AllowNames(names);
    AllowNamesWellFormed(names);
    SameAnswers(mode, s, BARE, fs, start, seeds, es);
    var w := RunOf(mode, s, fs, start, seeds, es);
    var pkt, f, d := PacketTo(s, w, dst, ReportedName(w, dst, now));
    RunVerdict(mode, s, fs, start, seeds, es, pkt, f, d, now);
    assert Asked(w, s, pkt, f, d, dst, now);
    assert ChainVerdict(false, w, pkt, now) == DecisionOutcome(Decide(s, d));
    SeparatedByNames(mode, w.fed, dst, names, now, d);
  }

  lemma {:induction false} RightlyUnderOne(mode: Readd, fs: CgroupFs, start: Time, seeds: seq<Seeding>,
          es: seq<Event>, dst: IP, now: Time, s: PolicySet, pkt: Packet, f: Flow, d: Dest)
    requires NoCgroups(s) && TableOf(PlanOf(s), fs).Ok? && TableOf(PlanOf(BARE), fs).Ok? && !dst.Is4In6()
    requires var w := RunOf(mode, BARE, fs, start, seeds, es);
             GoesByOnly(mode, w.fed, dst, ReportedName(w, dst, now), now)
    requires Asked(RunOf(mode, s, fs, start, seeds, es), s, pkt, f, d, dst, now)
    ensures ChainVerdict(false, RunOf(mode, s, fs, start, seeds, es), pkt, now) == DecisionOutcome(Decide(s, d))
  {
    SameAnswers(mode, s, BARE, fs, start, seeds, es);
    RunVerdict(mode, s, fs, start, seeds, es, pkt, f, d, now);
    var w := RunOf(mode, s, fs, start, seeds, es);
    OnlyNameDecides(mode, s, w.fed, dst, d.domain, now, d);
  }

  /** The report is right exactly when: in every run, on any kind of kernel, every policy
      without cgroups has every packet to an address decided as it is reported if and only if
      the address goes by the reported name and by no other. */
  lemma {:induction false} ReportedRightlyIff(mode: Readd, fs: CgroupFs, start: Time, seeds: seq<Seeding>,
          es: seq<Event>, dst: IP, now: Time)
    requires !dst.Is4In6() && !IsHousekeeping(dst)
    ensures TableOf(PlanOf(BARE), fs).Ok?
    ensures var w := RunOf(mode, BARE, fs, start, seeds, es);
            ReportedRightly(mode, fs, start, seeds, es, dst, now) <==>
              GoesByOnly(mode, w.fed, dst, ReportedName(w, dst, now), now)
  {
    NoCgroupsLoad(BARE, fs);
    var w := RunOf(mode, BARE, fs, start, seeds, es);
    var n := ReportedName(w, dst, now);
    if ReportedRightly(mode, fs, start, seeds, es, dst, now) {
      forall names: set<string> | "" !in names
        ensures NamesLive(mode, w.fed, dst, names, now) <==> NormalizeDomain(n) in names
      {
        RightlyOnNames(mode, fs, start, seeds, es, dst, now, names);
      }
    }
    if GoesByOnly(mode, w.fed, dst, n, now) {
      forall s: PolicySet, pkt: Packet, f: Flow, d: Dest |
        NoCgroups(s) && TableOf(PlanOf(s), fs).Ok?
        && Asked(RunOf(mode, s, fs, start, seeds, es), s, pkt, f, d, dst, now)
        ensures ChainVerdict(false, RunOf(mode, s, fs, start, seeds, es), pkt, now) == DecisionOutcome(Decide(s, d))
      {
        RightlyUnderOne(mode, fs, start, seeds, es, dst, now, s, pkt, f, d);
      }
    }
  }

  /** Where deadlines are extended: if and only if the reported name is the only one, in
      normal form, of an answer that has not run out. */
  lemma {:induction false} ExtendReportedRightlyIff(fs: CgroupFs, start: Time, seeds: seq<Seeding>,
          es: seq<Event>, dst: IP, now: Time)
    requires !dst.Is4In6() && !IsHousekeeping(dst)
    ensures TableOf(PlanOf(BARE), fs).Ok?
    ensures var w := RunOf(Extend, BARE, fs, start, seeds, es);
            ReportedRightly(Extend, fs, start, seeds, es, dst, now) <==>
              Normals(LiveNames(w.fed, dst, now)) == Normals({ReportedName(w, dst, now)})
  {
    ReportedRightlyIff(Extend, fs, start, seeds, es, dst, now);
    var w := RunOf(Extend, BARE, fs, start, seeds, es);
    ExtendGoesByOnlyIff(w.fed, dst, ReportedName(w, dst, now), now);
  }

  // ---- a run with a shared address ----

  /** An answer for one address. */
  function OneAnswer(name: string, ip: IP, now: Time): Event {
    DnsFrame(now, Some(Answer(name, [AddrTTL(ip, 0)])), true)
  }

  lemma {:induction false} OneAnswerStep(mode: Readd, s: PolicySet, p: Plan, w: World, name: string, ip: IP, now: Time)
    requires name != "" && !ip.Is4In6()
    ensures var w1 := StepWorld(mode, s, p, w, OneAnswer(name, ip, now));
            && w1.fed == w.fed + [Fact(name, ip, 0, now)] && ReportedName(w1, ip, now) == name
            && forall t :: LookupIn(w1.cache, ip, t) == if t <= now + MIN_TTL then Some(name) else None
  {
    var addrs := [AddrTTL(ip, 0)];
    assert addrs[1..] == [];
    var m1 := w.cache[ip := CacheEntry(name, now + Stretch(0, MIN_TTL))];
    assert RecordAddrs(m1, MIN_TTL, name, [], now) == m1;
    assert RecordAddrs(w.cache, MIN_TTL, name, addrs, now) == m1;
    assert FactsOf(name, addrs, now) == [Fact(name, ip, 0, now)];
    assert ip.Unmap() == ip;
  }

  lemma {:induction false} RunOneMore(mode: Readd, s: PolicySet, p: Plan, w: World, es: seq<Event>, e: Event)
    ensures RunWorld(mode, s, p, w, es + [e]) == StepWorld(mode, s, p, RunWorld(mode, s, p, w, es), e)
  {
    assert (es + [e])[..|es|] == es;
  }

  lemma {:induction false} TwoAnswers(mode: Readd, s: PolicySet, p: Plan, w: World, ip: IP, now: Time)
    requires !ip.Is4In6() && w.fed == []
    ensures var w2 := RunWorld(mode, s, p, w, [OneAnswer("a", ip, now), OneAnswer("b", ip, now)]);
            w2.fed == [Fact("a", ip, 0, now), Fact("b", ip, 0, now)] && ReportedName(w2, ip, now) == "b"
  {
    var a, b := OneAnswer("a", ip, now), OneAnswer("b", ip, now);
    RunOneMore(mode, s, p, w, [], a);
    RunOneMore(mode, s, p, w, [a], b);
    assert [] + [a] == [a] && [a] + [b] == [a, b];
    OneAnswerStep(mode, s, p, w, "a", ip, now);
    OneAnswerStep(mode, s, p, RunWorld(mode, s, p, w, [a]), "b", ip, now);
  }

  lemma {:induction false} PlainLetter(name: string)
    requires name == "a" || name == "b"
    ensures NormalizeDomain(name) == name
  {
    assert TrimSpace(name) == name && ToLower(name) == name;
  }

  lemma {:induction false} FirstHitSettles(mode: Readd, hit: Hit)
    ensures Settled(mode, [Some(hit), None]) == Some(hit.until)
  {
    var one: seq<Option<Hit>> := [Some(hit)];
    assert [] + [Some(hit)] == one && one + [None] == [Some(hit), None];
    SettledOneMore(mode, [], Some(hit));
    SettledOneMore(mode, one, None);
  }

  lemma {:induction false} HitsForAt(fed: seq<Fact>, ip: IP, names: set<string>, j: nat)
    requires j < |fed| && fed[j].ip == ip && !ip.Is4In6()
    ensures |HitsFor(fed, ip, names)| == |fed|
    ensures HitsFor(fed, ip, names)[j] == if NormalizeDomain(fed[j].name) in names then Some(HitOf(fed[j])) else None
  {
    assert ip.Unmap() == ip;
  }

  /** Of two answers for one address the first keeps its name live. */
  lemma {:induction false} FirstStaysLive(mode: Readd, fed: seq<Fact>, ip: IP, names: set<string>)
    requires !ip.Is4In6() && |fed| == 2 && fed[0].ip == fed[1].ip == ip
    requires NormalizeDomain(fed[0].name) in names && NormalizeDomain(fed[1].name) !in names
    ensures NamesLive(mode, fed, ip, names, fed[0].at + MIN_TTL)
  {
    var hits := HitsFor(fed, ip, names);
    HitsForAt(fed, ip, names, 0);
    HitsForAt(fed, ip, names, 1);
    assert hits == [hits[0], hits[1]];
    FirstHitSettles(mode, HitOf(fed[0]));
  }

  /** A packet to an address live under some name but reported under another. */
  lemma {:induction false} Misreported(mode: Readd, names: set<string>, fs: CgroupFs, start: Time,
          seeds: seq<Seeding>, es: seq<Event>, dst: IP, now: Time)
    returns (pkt: Packet, f: Flow, d: Dest)
    requires names != {} && "" !in names && !dst.Is4In6() && !IsHousekeeping(dst)
    requires TableOf(PlanOf(AllowNames(names)), fs).Ok?
    requires var w := RunOf(mode, AllowNames(names), fs, start, seeds, es);
             NamesLive(mode, w.fed, dst, names, now) && NormalizeDomain(ReportedName(w, dst, now)) !in names
    ensures var s, w := AllowNames(names), RunOf(mode, AllowNames(names), fs, start, seeds, es);
            && Asked(w, s, pkt, f, d, dst, now)
            && ChainVerdict(false, w, pkt, now) == Accepted && Decide(s, d).verdict == Deny
  {
    var s, w := AllowNames(names), RunOf(mode, AllowNames(names), fs, start, seeds, es);
    AllowNamesWellFormed(names);
    pkt, f, d := PacketTo(s, w, dst, ReportedName(w, dst, now));
    RunVerdict(mode, s, fs, start, seeds, es, pkt, f, d, now);
    AllowNamesLive(mode, w.fed, dst, names, now);
    AllowNamesWhere(names, d, LiveRules(mode, s, w.fed, dst, now));
    AllowNamesDecide(names, d);
  }

  lemma {:induction false} LiveEarlier(mode: Readd, fed: seq<Fact>, dst: IP, names: set<string>, now: Time, later: Time)
    requires NamesLive(mode, fed, dst, names, later) && now <= later
    ensures NamesLive(mode, fed, dst, names, now)
  {
  }

  /** The run in which both are answered. */
  lemma {:induction false} SharedRun(mode: Readd, names: set<string>, fs: CgroupFs, start: Time, ip: IP, now: Time)
    requires !ip.Is4In6() && "" !in names
    ensures TableOf(PlanOf(AllowNames(names)), fs).Ok?
    ensures var w := RunOf(mode, AllowNames(names), fs, start, [], [OneAnswer("a", ip, now), OneAnswer("b", ip, now)]);
            w.fed == [Fact("a", ip, 0, now), Fact("b", ip, 0, now)] && ReportedName(w, ip, now) == "b"
  {
    var s := AllowNames(names);
    AllowNamesWellFormed(names);
    NoCgroupsLoad(s, fs);
    var w0 := StartWorld(TableOf(PlanOf(s), fs).value, fs, start);
    assert Seeded(mode, s, w0, []) == w0;
    TwoAnswers(mode, s, PlanOf(s), w0, ip, now);
  }

  /** Two names on one address, of which only the first is allowed: from the first load on,
      on any kind of kernel, its packets pass, while the daemon reports the second name, and
      a refusal. */
  lemma {:induction false} SharedAddressIsMisreported(mode: Readd, names: set<string>, fs: CgroupFs, start: Time,
          ip: IP, now: Time)
    returns (pkt: Packet, f: Flow, d: Dest)
    requires names != {} && "" !in names && NormalizeDomain("a") in names && NormalizeDomain("b") !in names
    requires !ip.Is4In6() && !IsHousekeeping(ip)
    ensures TableOf(PlanOf(AllowNames(names)), fs).Ok?
    ensures var s := AllowNames(names);
            var w := RunOf(mode, s, fs, start, [], [OneAnswer("a", ip, now), OneAnswer("b", ip, now)]);
            && Asked(w, s, pkt, f, d, ip, now) && ReportedName(w, ip, now) == "b"
            && ChainVerdict(false, w, pkt, now) == Accepted && Decide(s, d).verdict == Deny
  {
    SharedRun(mode, names, fs, start, ip, now);
    SharedNames(mode, names, ip, now);
    pkt, f, d := Misreported(mode, names, fs, start, [], [OneAnswer("a", ip, now), OneAnswer("b", ip, now)], ip, now);
  }

  /** There is such a policy. */
  lemma {:induction false} OnlyA()
    ensures {"a"} != {} && "" !in {"a"} && NormalizeDomain("a") in {"a"} && NormalizeDomain("b") !in {"a"}
  {
    PlainLetter("a");
    PlainLetter("b");
    assert "a" in {"a"} && "b"[0] != "a"[0];
  }

  lemma {:induction false} SharedNames(mode: Readd, names: set<string>, ip: IP, now: Time)
    requires !ip.Is4In6() && NormalizeDomain("a") in names && NormalizeDomain("b") !in names
    ensures NamesLive(mode, [Fact("a", ip, 0, now), Fact("b", ip, 0, now)], ip, names, now)
  {
    var fed := [Fact("a", ip, 0, now), Fact("b", ip, 0, now)];
    FirstStaysLive(mode, fed, ip, names);
    LiveEarlier(mode, fed, ip, names, now, now + MIN_TTL);
  }
}
