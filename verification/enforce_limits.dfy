/** Where coverage ends: a reload, a mapped record on kernels that replace deadlines, any
    second answer on kernels that keep them; and a cgroup made anew. */
module EnforceLimits {
  import opened Clock
  import opened Wrappers
  import opened Bytes
  import opened Text
  import opened Netip
  import opened Seqs
  import opened Policy
  import opened PolicyLaws
  import opened Plan
  import opened PlanCorrect
  import opened Kernel
  import opened Codegen
  import opened Apply
  import opened TableCorrect
  import opened SetNames
  import opened Dnswatch
  import opened Enforce
  import opened EnforceSafety
  import opened EnforceCoverage
  import opened EnforceExact
  import opened EnforceReport
  import opened EnforceReload
  import opened ReportRuns

  // ---- where coverage ends ----

  /** A reload keeps every cached name. */
  lemma {:induction false} ReloadKeepsNames(w: World, t: Table, fs: CgroupFs, ip: IP, now: Time)
    ensures LookupIn(Reloaded(w, t, fs).cache, ip, now) == LookupIn(w.cache, ip, now)
  {
  }

  /** But an address that no answer was for since the last load is in no set, however
      long ago the load was: until its name is looked up again or seeded it is refused. */
  lemma {:induction false} ReloadForgets(s: PolicySet, p: Plan, w: World, ip: IP, now: Time, i: nat)
    requires Safe(s, p, w) && i < |s.rules|
    requires forall j | w.loaded <= j < |w.log| :: w.log[j].ip.Unmap() != ip.Unmap()
    ensures !HasKey(LiveSets(w.elems, w.table.anon, now), SetFor(i, ip), ip.Unmap().AsSlice())
  {
    if HasKey(LiveSets(w.elems, w.table.anon, now), SetFor(i, ip), ip.Unmap().AsSlice()) {
      LiveKeyAnswered(s, w, i, ip.Unmap(), now);
    }
  }

  lemma {:induction false} AddAllReplaces(elems: Elements, adds: seq<Add>, now: Time, a: Add)
    requires a in adds && a.set_ in elems && forall b | b in adds :: b.ttl == a.ttl
    ensures var r := AddAll(Replace, elems, adds, now);
            a.set_ in r && a.Key() in r[a.set_] && r[a.set_][a.Key()] == now + a.ttl
  {
    var m := |adds| - 1;
    AddAllBySet(Replace, elems, adds[..m], now, "");
    assert forall b | b in adds[..m] :: b in adds;
    assert adds[m] in adds;
    if adds[m] != a {
      assert a in adds[..m];
      AddAllReplaces(elems, adds[..m], now, a);
    }
  }

  /** Where deadlines are replaced, the last answer for an address sets its own. */
  lemma {:induction false} LearnSetsDeadline(s: PolicySet, w: World, fact: Fact, i: nat)
    requires w.elems.Keys == SetsOf(PlanOf(s).sets).Keys && i < |s.rules| && InDomainRules(s, fact.name, i)
    ensures var r := LearnFact(Replace, s, w, fact).elems;
            var n, k := SetFor(i, fact.ip), fact.ip.Unmap().AsSlice();
            n in r && k in r[n] && r[n][k] == fact.Deadline(MIN_TTL)
  {
    var adds, rules := FactAdds(s, fact), DomainRuleList(s, fact.name, |s.rules|);
    assert i in rules;
    var m :| 0 <= m < |rules| && rules[m] == i;
    assert adds[m] in adds;
    FeedNeverMisses(s, fact, adds[m]);
    AddAllReplaces(w.elems, adds, fact.at, adds[m]);
  }

  lemma {:induction false} LearnedIsDead(s: PolicySet, w: World, fact: Fact, i: nat, now: Time)
    requires w.elems.Keys == SetsOf(PlanOf(s).sets).Keys && i < |s.rules| && InDomainRules(s, fact.name, i)
    requires fact.Deadline(MIN_TTL) < now
    ensures var w1 := LearnFact(Replace, s, w, fact);
            !HasKey(LiveSets(w1.elems, w1.table.anon, now), SetFor(i, fact.ip), fact.ip.Unmap().AsSlice())
  {
    var w1 := LearnFact(Replace, s, w, fact);
    LearnSetsDeadline(s, w, fact, i);
    var ip := fact.ip.Unmap();
    LiveSetsNamed(s, w1.elems, w1.table.anon, now, i, if ip.IPv4? then V4 else V6, ip.AsSlice());
  }

  lemma {:induction false} MappedLeavesName(s: PolicySet, w: World, plain: Fact, mapped: Fact, now: Time)
    requires mapped.ip.Is4In6() && plain.ip == mapped.ip.Unmap() && now <= plain.Deadline(MIN_TTL)
    ensures var w2 := LearnFact(Replace, s, LearnFact(Replace, s, w, plain), mapped);
            LookupIn(w2.cache, plain.ip, now) == Some(plain.name)
  {
  }

  /** On kernels that replace deadlines, a mapped record for an address already
      known cuts its stay in the sets short while the cache still names it. */
  lemma {:induction false} MappedRecordShortens(s: PolicySet, w: World, plain: Fact, mapped: Fact, i: nat, now: Time)
    requires w.elems.Keys == SetsOf(PlanOf(s).sets).Keys
    requires i < |s.rules| && InDomainRules(s, plain.name, i) && mapped.name == plain.name
    requires mapped.ip.Is4In6() && plain.ip == mapped.ip.Unmap()
    requires mapped.Deadline(MIN_TTL) < now <= plain.Deadline(MIN_TTL)
    ensures var w2 := LearnFact(Replace, s, LearnFact(Replace, s, w, plain), mapped);
            && LookupIn(w2.cache, plain.ip, now) == Some(plain.name)
            && !HasKey(LiveSets(w2.elems, w2.table.anon, now), SetFor(i, plain.ip), plain.ip.AsSlice())
  {
    var w1 := LearnFact(Replace, s, w, plain);
    AddAllBySet(Replace, w.elems, FactAdds(s, plain), plain.at, "");
    LearnedIsDead(s, w1, mapped, i, now);
    MappedLeavesName(s, w, plain, mapped, now);
  }

  // ---- kernels that keep deadlines ----

  /** On kernels that keep the old deadline, an address answered for a second time while it
      is in a set leaves it when the first answer runs out, although the cache goes on naming
      it: a run that ends so, for every policy that covers the name. */
  lemma {:induction false} KeepForgets(s: PolicySet, p: Plan, t: Table, fs: CgroupFs, start: Time, name: string,
          ip: IP, first: Time, second: Time, i: nat, now: Time)
    requires p.sets == PlanOf(s).sets && TableOf(p, fs) == Ok(t)
    requires name != "" && !ip.Is4In6() && i < |s.rules| && InDomainRules(s, name, i)
    requires first <= second <= first + MIN_TTL < now <= second + MIN_TTL
    ensures var es := [OneAnswer(name, ip, first), OneAnswer(name, ip, second)];
            var w := RunWorld(Keep, s, p, StartWorld(t, fs, start), es);
            && LookupIn(w.cache, ip, now) == Some(name)
            && !HasKey(LiveSets(w.elems, w.table.anon, now), SetFor(i, ip), ip.AsSlice())
  {
    var w0, es := StartWorld(t, fs, start), [OneAnswer(name, ip, first), OneAnswer(name, ip, second)];
    var w := RunWorld(Keep, s, p, w0, es);
    AnsweredTwice(Keep, s, p, w0, name, ip, first, second);
    assert Seeded(Keep, s, w0, []) == w0;
    RunFed(Keep, s, p, t, fs, start, [], es);
    LiveRulesHold(Keep, s, w, ip, now);
    TwiceAnswered(s, w.fed, name, ip, first, second, i, now);
  }

  lemma {:induction false} AnsweredTwice(mode: Readd, s: PolicySet, p: Plan, w: World, name: string, ip: IP,
          first: Time, second: Time)
    requires name != "" && !ip.Is4In6() && w.fed == []
    ensures var w2 := RunWorld(mode, s, p, w, [OneAnswer(name, ip, first), OneAnswer(name, ip, second)]);
            && w2.fed == [Fact(name, ip, 0, first), Fact(name, ip, 0, second)]
            && forall t :: LookupIn(w2.cache, ip, t) == if t <= second + MIN_TTL then Some(name) else None
  {
    var a, b := OneAnswer(name, ip, first), OneAnswer(name, ip, second);
    RunOneMore(mode, s, p, w, [], a);
    RunOneMore(mode, s, p, w, [a], b);
    assert [] + [a] == [a] && [a] + [b] == [a, b];
    OneAnswerStep(mode, s, p, w, name, ip, first);
    OneAnswerStep(mode, s, p, RunWorld(mode, s, p, w, [a]), name, ip, second);
  }

  lemma {:induction false} TwiceAnswered(s: PolicySet, fed: seq<Fact>, name: string, ip: IP, first: Time,
          second: Time, i: nat, now: Time)
    requires fed == [Fact(name, ip, 0, first), Fact(name, ip, 0, second)]
    requires !ip.Is4In6() && i < |s.rules| && InDomainRules(s, name, i)
    requires first <= second <= first + MIN_TTL < now
    ensures HasDomains(s.rules[i]) && i !in LiveRules(Keep, s, fed, ip, now)
  {
    assert ip.Unmap() == ip;
    SecondIsIgnored(s, fed, i, ip);
  }

  lemma {:induction false} SecondIsIgnored(s: PolicySet, fed: seq<Fact>, i: nat, ip: IP)
    requires |fed| == 2 && Reaches(s, fed[0], i, ip) && Reaches(s, fed[1], i, ip)
    requires fed[1].at <= fed[0].Deadline(MIN_TTL)
    ensures DeadlineOf(Keep, s, fed, i, ip) == Some(fed[0].Deadline(MIN_TTL))
  {
    var h0, h1 := Some(HitOf(fed[0])), Some(HitOf(fed[1]));
    assert Hits(s, fed, i, ip) == [h0, h1];
    assert [] + [h0] == [h0] && [h0] + [h1] == [h0, h1];
    SettledOneMore(Keep, [], h0);
    SettledOneMore(Keep, [h0], h1);
  }

  // ---- a cgroup made anew ----

  /** A default-allow policy that denies everything to one cgroup. */
  function DenyCgroup(path: string): PolicySet {
    PolicySet([CompiledRule("shut in", Deny, {}, [], [], [], "", path, true)], Allow)
  }

  lemma {:induction false} DenyCgroupShape(path: string)
    requires path != "" && GoodCgroup(path)
    ensures WellFormedSet(DenyCgroup(path)) && RuleCgroups(DenyCgroup(path)) == {path}
  {
    var s := DenyCgroup(path);
    assert s.rules[0] in s.rules;
  }

  lemma {:induction false} DenyCgroupDecides(path: string, d: Dest)
    requires path != "" && CgroupWithin(TrimSlashes(d.cgroup), path)
    ensures Decide(DenyCgroup(path), d).verdict == Deny
  {
    var s := DenyCgroup(path);
    assert RuleApplies(s.rules[0], d);
    FirstIndexAt(s.rules, r => RuleApplies(r, d), 0);
  }

  lemma {:induction false} DenyCgroupAmong(path: string, d: Dest, live: set<nat>, inside: set<string>)
    requires path != "" && path !in inside
    ensures DecideAmong(DenyCgroup(path), 0, d, live, inside) == Decision(Allow, "")
  {
    var s := DenyCgroup(path);
    assert !RuleAppliesAmong(s, 0, d, live, inside);
    assert DecideAmong(s, 1, d, live, inside) == Decision(Allow, "");
  }

  /** The table of such a policy misses nothing when the cgroup exists. */
  lemma {:induction false} DenyCgroupLoads(path: string, fs: CgroupFs)
    requires path != "" && GoodCgroup(path) && fs(path).Found?
    ensures TableOf(PlanOf(DenyCgroup(path)), fs).Ok? && TableOf(PlanOf(DenyCgroup(path)), fs).value.missing == {}
  {
    var s := DenyCgroup(path);
    DenyCgroupShape(path);
    PlanCgroups(s, 0);
    PlanLoadsIff(s, PlanOf(s), fs);
    var t := TableOf(PlanOf(s), fs).value;
    TableMissing(PlanOf(s), fs);
    forall c | c in t.missing ensures false {
      MissingIsRuled(PlanOf(s).atoms, false, fs, SetsOf(PlanOf(s).sets).Keys, 0, c);
    }
  }

  lemma {:induction false} MissingIsRuled(atoms: seq<Atom>, forward: bool, fs: CgroupFs, known: set<string>,
          anon: nat, c: string)
    requires var b := AtomsBody(atoms, forward, fs, known, anon); b.Ok? && c in b.value.missing
    ensures exists a :: a in atoms && a.cgroup == c
  {
    var one := AtomBody(atoms[0], forward, fs, known, anon).value;
    assert atoms[0] in atoms;
    if c !in one.missing {
      MissingIsRuled(atoms[1..], forward, fs, known, one.anon, c);
      var a :| a in atoms[1..] && a.cgroup == c;
      assert a in atoms;
    }
  }

  /** Making a cgroup anew lifts its deny rules: a socket in a cgroup of the same path but
      another id than at the load is let out, in every state of every run, although the
      policy denies it. */
  lemma {:induction false} RemadeCgroupIsLetOut(mode: Readd, path: string, fs: CgroupFs, start: Time,
          seeds: seq<Seeding>, es: seq<Event>, pkt: Packet, f: Flow, d: Dest, now: Time)
    requires path != "" && GoodCgroup(path) && fs(path).Found? && CgroupWithin(TrimSlashes(d.cgroup), path)
    requires CgroupLevel(path) <= |pkt.ancestors| && pkt.ancestors[CgroupLevel(path) - 1] != fs(path).id
    requires Carries(pkt, f) && |pkt.ctstate| == 4 && Describes(d, f) && f.inside == {}
    requires !f.dst.Is4In6() && !PassesEarly(false, pkt, f)
    ensures TableOf(PlanOf(DenyCgroup(path)), fs).Ok?
    ensures var s := DenyCgroup(path);
            && ChainVerdict(false, RunOf(mode, s, fs, start, seeds, es), pkt, now) == Accepted
            && Decide(s, d).verdict == Deny
  {
    var s := DenyCgroup(path);
    DenyCgroupShape(path);
    DenyCgroupLoads(path, fs);
    DenyCgroupDecides(path, d);
    var t := TableOf(PlanOf(s), fs).value;
    var w0 := Seeded(mode, s, StartWorld(t, fs, start), seeds);
    LearnedKeepsTable(mode, s, StartWorld(t, fs, start), seeds);
    NothingMissingNoReload(mode, s, PlanOf(s), w0, es);
    var w := RunOf(mode, s, fs, start, seeds, es);
    assert CgroupsById(s, false, fs, pkt) == {};
    RunDecidesExactly(mode, s, PlanOf(s), t, fs, start, seeds, es, false, pkt, f, d, now);
    DenyCgroupAmong(path, d, LiveRules(mode, s, w.fed, f.dst, now), {});
  }

  /** That can happen without any id being taken for another's. */
  lemma {:induction false} RemadeCgroupExample(dst: IP) returns (fs: CgroupFs, pkt: Packet, f: Flow, d: Dest)
    requires !IsHousekeeping(dst)
    ensures GoodCgroup("a") && fs("a").Found? && CgroupWithin(TrimSlashes(d.cgroup), "a")
    ensures CgroupLevel("a") <= |pkt.ancestors| && pkt.ancestors[CgroupLevel("a") - 1] != fs("a").id
    ensures Carries(pkt, f) && |pkt.ctstate| == 4 && Describes(d, f) && f.inside == {} && f.dst == dst
    ensures !PassesEarly(false, pkt, f) && IdsFaithful(fs, TrimSlashes(d.cgroup), pkt.ancestors)
  {
    var old_, new_: CgroupId := [0, 0, 0, 0, 0, 0, 0, 1], [0, 0, 0, 0, 0, 0, 0, 2];
    fs := path => if path == "a" then Found(old_) else Absent;
    f := Flow(dst, TCP, 443, {});
    pkt := PacketOf(f).(ancestors := [new_]);
    d := Dest("", dst, 443, "tcp", "a");
    PacketCarries(f);
    ZerosNotEstablished(pkt);
    assert ToLower("tcp") == "tcp" && TrimSlashes("a") == "a";
    SplitCons('a', "", '/');
    assert Split("", '/') == [""] && ['a'] + "" == "a" && PartsCons('a', [""], '/') == ["a"];
    assert old_[7] != new_[7];
  }
}
