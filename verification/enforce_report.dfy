/** What the daemon reports, Evaluate's answer under the one name a lookup gives, against
    what the kernel does: when the two agree, for one policy and for all. */
module EnforceReport {
  import opened Clock
  import opened Wrappers
  import opened Bytes
  import opened Text
  import opened Netip
  import opened Seqs
  import opened Policy
  import opened PolicyLaws
  import opened Plan
  import opened PlanCorrect
  import opened Kernel
  import opened Codegen
  import opened Apply
  import opened TableCorrect
  import opened SetNames
  import opened Dnswatch
  import opened Enforce
  import opened EnforceSafety
  import opened EnforceExact

  /** The name the daemon would report a destination under. */
  function ReportedName(w: World, dst: IP, now: Time): string {
    match LookupIn(w.cache, dst, now)
    case Some(n) => n
    case None => ""
  }

  // ---- under one policy ----

  /** The verdict is the one reported, in every state of every run and on any kind of
      kernel, whenever the address is live for exactly the rules its reported name falls
      under, and the socket is placed where its path is. */
  lemma {:induction false} VerdictIsReported(mode: Readd, s: PolicySet, p: Plan, t: Table, fs: CgroupFs,
          start: Time, seeds: seq<Seeding>, es: seq<Event>, forward: bool, pkt: Packet, f: Flow, d: Dest,
          now: Time)
    requires WellFormedSet(s) && p.sets == PlanOf(s).sets && p.atoms == PlanOf(s).atoms
    requires p.defaultDeny == PlanOf(s).defaultDeny && (forward ==> p.forward) && TableOf(p, fs) == Ok(t)
    requires var w := RunWorld(mode, s, p, Seeded(mode, s, StartWorld(t, fs, start), seeds), es);
             && AboutPacket(s, w, forward, pkt, f, d) && !f.dst.Is4In6()
             && d.domain == ReportedName(w, f.dst, now)
             && LiveRules(mode, s, w.fed, f.dst, now) == NamedRules(s, {d.domain})
    requires f.inside == CgroupsAbove(s, TrimSlashes(d.cgroup))
    ensures var w := RunWorld(mode, s, p, Seeded(mode, s, StartWorld(t, fs, start), seeds), es);
            ChainVerdict(forward, w, pkt, now) ==
              if PassesEarly(forward, pkt, f) then Accepted else DecisionOutcome(Decide(s, d))
  {
    RunDecidesExactly(mode, s, p, t, fs, start, seeds, es, forward, pkt, f, d, now);
    NamedIsDecide(s, d);
  }

  // ---- under all policies ----

  /** What answers say of `dst` under any of `names`, in normal form. */
  function HitsFor(fed: seq<Fact>, dst: IP, names: set<string>): seq<Option<Hit>> {
    seq(|fed|, j requires 0 <= j < |fed| =>
      if fed[j].ip.Unmap() == dst && NormalizeDomain(fed[j].name) in names then Some(HitOf(fed[j])) else None)
  }

  /** A rule for exactly these names would be live for `dst`. */
  predicate NamesLive(mode: Readd, fed: seq<Fact>, dst: IP, names: set<string>, now: Time) {
    var d := Settled(mode, HitsFor(fed, dst, names));
    d.Some? && now <= d.value
  }

  /** `dst` goes by the name `n` and by no other: it is live for just those collections of
      names that have `n` in them. */
  ghost predicate GoesByOnly(mode: Readd, fed: seq<Fact>, dst: IP, n: string, now: Time) {
    forall names: set<string> | "" !in names :: NamesLive(mode, fed, dst, names, now) <==> NormalizeDomain(n) in names
  }

  /** Whatever the policy, the rules `dst` is live for decide as the name `n` does. */
  ghost predicate DecidesAsName(mode: Readd, fed: seq<Fact>, dst: IP, n: string, now: Time) {
    forall s: PolicySet, d: Dest | WellFormedSet(s) && d.domain == n ::
      DecideWhere(s, d, LiveRules(mode, s, fed, dst, now)) == Decide(s, d)
  }

  /** The names a rule covers, of those that matter here. */
  function CoveredNames(r: CompiledRule, fed: seq<Fact>, n: string): set<string> {
    (set fact | fact in fed && Covers(r, NormalizeDomain(fact.name)) :: NormalizeDomain(fact.name))
    + (if Covers(r, NormalizeDomain(n)) then {NormalizeDomain(n)} else {})
  }

  lemma {:induction false} RuleHitsAreFor(s: PolicySet, fed: seq<Fact>, i: nat, dst: IP, n: string)
    requires i < |s.rules|
    ensures Hits(s, fed, i, dst) == HitsFor(fed, dst, CoveredNames(s.rules[i], fed, n))
  {
    var names := CoveredNames(s.rules[i], fed, n);
    forall j | 0 <= j < |fed| ensures Hits(s, fed, i, dst)[j] == HitsFor(fed, dst, names)[j] {
      assert fed[j] in fed;
      assert Covers(s.rules[i], NormalizeDomain(fed[j].name)) <==> NormalizeDomain(fed[j].name) in names;
    }
  }

  lemma {:induction false} OnlyNameDecides(mode: Readd, s: PolicySet, fed: seq<Fact>, dst: IP, n: string,
          now: Time, d: Dest)
    requires GoesByOnly(mode, fed, dst, n, now) && WellFormedSet(s) && d.domain == n
    ensures DecideWhere(s, d, LiveRules(mode, s, fed, dst, now)) == Decide(s, d)
  {
    var live := LiveRules(mode, s, fed, dst, now);
    forall i: nat | i < |s.rules| ensures i in live <==> InDomainRules(s, n, i) {
      var names := CoveredNames(s.rules[i], fed, n);
      assert s.rules[i] in s.rules;
      EmptyNameUncovered(s.rules[i]);
      RuleHitsAreFor(s, fed, i, dst, n);
      assert NamesLive(mode, fed, dst, names, now) <==> NormalizeDomain(n) in names;
    }
    LiveIsDecideFrom(s, 0, d, live);
  }

  /** A default-deny policy that allows some names. */
  function AllowNames(names: set<string>): PolicySet {
    PolicySet([CompiledRule("only", Allow, names, [], [], [], "", "", names == {})], Deny)
  }

  lemma {:induction false} AllowNamesWellFormed(names: set<string>)
    requires "" !in names
    ensures WellFormedSet(AllowNames(names)) && RuleCgroups(AllowNames(names)) == {}
  {
  }

  lemma {:induction false} AllowNamesDecide(names: set<string>, d: Dest)
    requires names != {} && "" !in names
    ensures Decide(AllowNames(names), d).verdict == if NormalizeDomain(d.domain) in names then Allow else Deny
  {
    var s := AllowNames(names);
    if NormalizeDomain(d.domain) in names {
      FirstIndexAt(s.rules, r => RuleApplies(r, d), 0);
    }
  }

  lemma {:induction false} AllowNamesWhere(names: set<string>, d: Dest, live: set<nat>)
    requires names != {}
    ensures DecideWhere(AllowNames(names), d, live).verdict == if 0 in live then Allow else Deny
  {
    var s := AllowNames(names);
    assert RuleAppliesAmong(s, 0, d, live, CgroupsAbove(s, TrimSlashes(d.cgroup))) <==> 0 in live;
    assert DecideAmong(s, 1, d, live, CgroupsAbove(s, TrimSlashes(d.cgroup))) == Decision(Deny, "");
  }

  lemma {:induction false} AllowNamesLive(mode: Readd, fed: seq<Fact>, dst: IP, names: set<string>, now: Time)
    ensures 0 in LiveRules(mode, AllowNames(names), fed, dst, now) <==> NamesLive(mode, fed, dst, names, now)
  {
    var s := AllowNames(names);
    forall j | 0 <= j < |fed| ensures Hits(s, fed, 0, dst)[j] == HitsFor(fed, dst, names)[j] {
      assert Covers(s.rules[0], NormalizeDomain(fed[j].name)) <==> NormalizeDomain(fed[j].name) in names;
    }
    assert Hits(s, fed, 0, dst) == HitsFor(fed, dst, names);
  }

  lemma {:induction false} NoNamesNoHits(mode: Readd, hits: seq<Option<Hit>>)
    requires forall h | h in hits :: h.None?
    ensures Settled(mode, hits) == None
  {
    if hits != [] {
      assert hits[|hits| - 1] in hits && forall h | h in hits[..|hits| - 1] :: h in hits;
      NoNamesNoHits(mode, hits[..|hits| - 1]);
    }
  }

  lemma {:induction false} NoNamesNotLive(mode: Readd, fed: seq<Fact>, dst: IP, now: Time)
    ensures !NamesLive(mode, fed, dst, {}, now)
  {
    NoNamesNoHits(mode, HitsFor(fed, dst, {}));
  }

  /** Under exactly which answers the verdict is the reported one for every policy: when the
      address goes by the reported name and by no other. */
  lemma {:induction false} DecidesAsNameIff(mode: Readd, fed: seq<Fact>, dst: IP, n: string, now: Time)
    ensures DecidesAsName(mode, fed, dst, n, now) <==> GoesByOnly(mode, fed, dst, n, now)
  {
    if GoesByOnly(mode, fed, dst, n, now) {
      forall s: PolicySet, d: Dest | WellFormedSet(s) && d.domain == n
        ensures DecideWhere(s, d, LiveRules(mode, s, fed, dst, now)) == Decide(s, d)
      {
        OnlyNameDecides(mode, s, fed, dst, n, now, d);
      }
    }
    if DecidesAsName(mode, fed, dst, n, now) {
      var d := Dest(n, dst, 443, "tcp", "");
      forall names: set<string> | "" !in names
        ensures NamesLive(mode, fed, dst, names, now) <==> NormalizeDomain(n) in names
      {
        SeparatedByNames(mode, fed, dst, names, now, d);
      }
    }
  }

  /** The policy that allows some names tells whether the two agree on them. */
  lemma {:induction false} SeparatedByNames(mode: Readd, fed: seq<Fact>, dst: IP, names: set<string>, now: Time,
          d: Dest)
    requires "" !in names
    ensures var s := AllowNames(names);
            names != {} && DecideWhere(s, d, LiveRules(mode, s, fed, dst, now)).verdict == Decide(s, d).verdict ==>
              (NamesLive(mode, fed, dst, names, now) <==> NormalizeDomain(d.domain) in names)
    ensures names == {} ==> !NamesLive(mode, fed, dst, names, now)
    ensures WellFormedSet(AllowNames(names))
  {
    AllowNamesWellFormed(names);
    if names == {} {
      NoNamesNotLive(mode, fed, dst, now);
    } else {
      AllowNamesDecide(names, d);
      AllowNamesWhere(names, d, LiveRules(mode, AllowNames(names), fed, dst, now));
      AllowNamesLive(mode, fed, dst, names, now);
    }
  }

  // ---- where deadlines are extended ----

  function Normals(names: set<string>): set<string> {
    set m | m in names && NormalizeDomain(m) != "" :: NormalizeDomain(m)
  }

  lemma {:induction false} LiveNameHit(fed: seq<Fact>, dst: IP, names: set<string>, now: Time, x: string)
    requires x in names && x in Normals(LiveNames(fed, dst, now))
    ensures var hits := HitsFor(fed, dst, names);
            exists j | 0 <= j < |hits| :: hits[j].Some? && now <= hits[j].value.until
  {
    var m :| m in LiveNames(fed, dst, now) && NormalizeDomain(m) == x;
    var j: nat :| j < |fed| && fed[j].ip.Unmap() == dst && now <= fed[j].Deadline(MIN_TTL) && fed[j].name == m;
    assert HitsFor(fed, dst, names)[j] == Some(HitOf(fed[j]));
  }

  lemma {:induction false} HitLiveName(fed: seq<Fact>, dst: IP, names: set<string>, now: Time, j: nat)
    requires "" !in names && j < |fed|
    requires HitsFor(fed, dst, names)[j].Some? && now <= HitsFor(fed, dst, names)[j].value.until
    ensures NormalizeDomain(fed[j].name) in names && NormalizeDomain(fed[j].name) in Normals(LiveNames(fed, dst, now))
  {
    assert fed[j].name in LiveNames(fed, dst, now);
  }

  lemma {:induction false} ExtendNamesLive(fed: seq<Fact>, dst: IP, names: set<string>, now: Time)
    requires "" !in names
    ensures NamesLive(Extend, fed, dst, names, now) <==> exists x | x in names :: x in Normals(LiveNames(fed, dst, now))
  {
    var hits := HitsFor(fed, dst, names);
    ExtendSettled(hits, now);
    if j :| 0 <= j < |hits| && hits[j].Some? && now <= hits[j].value.until {
      HitLiveName(fed, dst, names, now, j);
    }
    if x :| x in names && x in Normals(LiveNames(fed, dst, now)) {
      LiveNameHit(fed, dst, names, now, x);
    }
  }

  /** There, an address goes by one name only exactly when that is, in normal form, the only
      name of an answer that has not run out. */
  lemma {:induction false} ExtendGoesByOnlyIff(fed: seq<Fact>, dst: IP, n: string, now: Time)
    ensures GoesByOnly(Extend, fed, dst, n, now) <==> Normals(LiveNames(fed, dst, now)) == Normals({n})
  {
    var live := Normals(LiveNames(fed, dst, now));
    assert n in {n};
    assert forall x :: x in Normals({n}) <==> x != "" && x == NormalizeDomain(n);
    if GoesByOnly(Extend, fed, dst, n, now) {
      forall x: string | x != "" ensures x in live <==> x == NormalizeDomain(n) {
        ExtendNamesLive(fed, dst, {x}, now);
        assert NamesLive(Extend, fed, dst, {x}, now) <==> NormalizeDomain(n) in {x};
      }
    }
    if live == Normals({n}) {
      forall names: set<string> | "" !in names
        ensures NamesLive(Extend, fed, dst, names, now) <==> NormalizeDomain(n) in names
      {
        ExtendNamesLive(fed, dst, names, now);
      }
    }
  }
}
