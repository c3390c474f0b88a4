/** Nothing gets out without a reason: safety of enforcing runs, reloads and
    failed batches included. */
module EnforceSafety {
  import opened Clock
  import opened Wrappers
  import opened Bytes
  import opened Text
  import opened Netip
  import opened Policy
  import opened PolicyLaws
  import opened Plan
  import opened PlanCorrect
  import opened Kernel
  import opened Codegen
  import opened Apply
  import opened TableCorrect
  import opened SetNames
  import opened Dnswatch
  import opened Enforce

  /** The anonymous sets are always there. */
  lemma {:induction false} LiveSetsAnonymous(elems: Elements, anon: nat, now: Time)
    ensures AnonymousLoaded(0, anon, LiveSets(elems, anon, now))
  {
  }

  /** An address set holds the keys that are still live. */
  lemma {:induction false} LiveSetsNamed(s: PolicySet, elems: Elements, anon: nat, now: Time, i: nat, f: Family,
          key: seq<byte>)
    requires f != AnyFamily
    ensures HasKey(LiveSets(elems, anon, now), SetName(i, f), key) <==>
              SetName(i, f) in elems && key in elems[SetName(i, f)] && now <= elems[SetName(i, f)][key]
  {
    forall k: nat | 1 <= k <= anon ensures AnonymousName(k) != SetName(i, f) {
      AnonymousDistinct(k, i, f);
    }
  }

  /** What a default-deny rule list allows, an allow rule allows. */
  lemma {:induction false} AllowedByRule(s: PolicySet, i: nat, f: Flow, sets: SetTable) returns (j: nat)
    requires i <= |s.rules| && s.def == Deny && RuleDecision(s, i, f, sets).verdict == Allow
    ensures j < |s.rules| && s.rules[j].verdict == Allow && KernelRule(j, s.rules[j], f, sets)
    decreases |s.rules| - i
  {
    if KernelRule(i, s.rules[i], f, sets) {
      j := i;
    } else {
      j := AllowedByRule(s, i + 1, f, sets);
    }
  }

  /** An answer that lets `dst` in under rule `i` at an instant: taken in since the
      table was loaded, for a covered name, and not older than its stretched TTL. */
  predicate Answers(s: PolicySet, w: World, i: nat, dst: IP, now: Time, j: int) {
    w.loaded <= j < |w.log| && w.log[j].ip.Unmap() == dst && InDomainRules(s, w.log[j].name, i)
    && now <= w.log[j].Deadline(MIN_TTL)
  }

  /** Why a packet may leave under rule `i`. */
  predicate Permits(s: PolicySet, w: World, i: nat, d: Dest, dst: IP, now: Time)
    requires i < |s.rules|
  {
    var r := s.rules[i];
    && r.verdict == Allow
    && ProtoFits(r, ToLower(d.proto)) && PortFits(r, d.port) && CgroupFits(r, TrimSlashes(d.cgroup))
    && (r.anyHost || (exists p | p in r.prefixes :: p.Contains(dst))
        || exists j | w.loaded <= j < |w.log| :: Answers(s, w, i, dst, now, j))
  }

  lemma {:induction false} SameFamilyBytes(a: IP, b: IP)
    requires a.AsSlice() == b.AsSlice()
    ensures a == b
  {
  }

  /** The set of a rule is fed only by names it covers, with their own addresses. */
  lemma {:induction false} FeedsOnlyItsRule(s: PolicySet, fact: Fact, i: nat, dst: IP)
    requires Feeds(s, fact, SetName(i, if dst.IPv4? then V4 else V6), dst.AsSlice())
    ensures fact.ip.Unmap() == dst && InDomainRules(s, fact.name, i)
  {
    var f := if dst.IPv4? then V4 else V6;
    var i2: nat :| i2 < |s.rules| && InDomainRules(s, fact.name, i2) && SetName(i, f) == SetFor(i2, fact.ip);
    SetNameInjective(i, f, i2, if fact.ip.Unmap().IPv4? then V4 else V6);
    SameFamilyBytes(fact.ip.Unmap(), dst);
  }

  lemma {:induction false} ReasonOf(s: PolicySet, w: World, n: string, k: seq<byte>) returns (j: nat)
    requires Justified(s, w.elems, w.log, w.loaded) && n in w.elems && k in w.elems[n]
    ensures w.loaded <= j < |w.log| && Feeds(s, w.log[j], n, k) && w.elems[n][k] == w.log[j].Deadline(MIN_TTL)
  {
    assert HasReason(s, w.log, w.loaded, n, k, w.elems[n][k]);
    j :| w.loaded <= j < |w.log| && Feeds(s, w.log[j], n, k) && w.elems[n][k] == w.log[j].Deadline(MIN_TTL);
  }

  /** A live key of a rule's set comes from a covering answer. */
  lemma {:induction false} LiveKeyAnswered(s: PolicySet, w: World, i: nat, dst: IP, now: Time)
    requires Justified(s, w.elems, w.log, w.loaded) && i < |s.rules|
    requires HasKey(LiveSets(w.elems, w.table.anon, now), SetName(i, if dst.IPv4? then V4 else V6), dst.AsSlice())
    ensures exists j | w.loaded <= j < |w.log| :: Answers(s, w, i, dst, now, j)
  {
    var f := if dst.IPv4? then V4 else V6;
    var n, k := SetName(i, f), dst.AsSlice();
    LiveSetsNamed(s, w.elems, w.table.anon, now, i, f, k);
    var j := ReasonOf(s, w, n, k);
    FeedsOnlyItsRule(s, w.log[j], i, dst);
    assert Answers(s, w, i, dst, now, j);
  }

  /** What a chain does to a packet in a state. */
  function ChainVerdict(forward: bool, w: World, pkt: Packet, now: Time): Outcome {
    RunChain(ChainIn(w.table, forward), w.table.policy, pkt, LiveSets(w.elems, w.table.anon, now))
  }

  /** A packet of a flow to a destination, its socket placed by the ids of the last load. */
  predicate AboutPacket(s: PolicySet, w: World, forward: bool, pkt: Packet, f: Flow, d: Dest) {
    Carries(pkt, f) && |pkt.ctstate| == 4 && Describes(d, f) && f.inside == CgroupsById(s, forward, w.fs, pkt)
  }

  /** Safety: in every state of an enforcing run, if under a default-deny policy either
      chain accepts a packet that is not loopback or bridge traffic, established or
      housekeeping, some allow rule fits its port, protocol and cgroup and either takes any
      host, has a prefix with the address in it, or covers the name of an answer for that
      address that has not outlived its stretched TTL. */
  lemma {:induction false} AcceptedIsPermitted(s: PolicySet, p: Plan, w: World, forward: bool, pkt: Packet,
          f: Flow, d: Dest, now: Time)
    requires WellFormedSet(s) && s.def == Deny
    requires p.sets == PlanOf(s).sets && p.atoms == PlanOf(s).atoms && p.defaultDeny && (forward ==> p.forward)
    requires Safe(s, p, w) && AboutPacket(s, w, forward, pkt, f, d)
    requires !forward ==> IdsFaithful(w.fs, TrimSlashes(d.cgroup), pkt.ancestors)
    requires ChainVerdict(forward, w, pkt, now) == Accepted && !PassesEarly(forward, pkt, f)
    ensures exists i: nat :: i < |s.rules| && Permits(s, w, i, d, f.dst, now)
  {
    var sets := LiveSets(w.elems, w.table.anon, now);
    LiveSetsAnonymous(w.elems, w.table.anon, now);
    TableDecidesAsAtoms(s, p, w.fs, forward, pkt, f, sets);
    AtomsDecideAsRules(s, 0, f, sets);
    var i := AllowedByRule(s, 0, f, sets);
    RulePermits(s, p, w, forward, pkt, f, d, now, i);
  }

  lemma {:induction false} RulePermits(s: PolicySet, p: Plan, w: World, forward: bool, pkt: Packet, f: Flow,
          d: Dest, now: Time, i: nat)
    requires WellFormedSet(s) && Safe(s, p, w) && AboutPacket(s, w, forward, pkt, f, d)
    requires !forward ==> IdsFaithful(w.fs, TrimSlashes(d.cgroup), pkt.ancestors)
    requires i < |s.rules| && s.rules[i].verdict == Allow
    requires KernelRule(i, s.rules[i], f, LiveSets(w.elems, w.table.anon, now))
    ensures Permits(s, w, i, d, f.dst, now)
  {
    var r := s.rules[i];
    assert r in s.rules;
    TransportAgrees(r, d, f);
    if r.cgroup != "" {
      TestByIdIff(w.fs, r.cgroup, TrimSlashes(d.cgroup), pkt);
      CgroupWithinIsAncestry(TrimSlashes(d.cgroup), r.cgroup);
    }
    if HasKey(LiveSets(w.elems, w.table.anon, now), SetName(i, if f.dst.IPv4? then V4 else V6), f.dst.AsSlice()) {
      LiveKeyAnswered(s, w, i, f.dst, now);
    }
  }

  /** Safety over whole runs: so it is in every state of every run, on either chain, whatever
      the answers, reloads and failures, on any kind of kernel, and for any cgroups, those
      created since the load included. */
  lemma {:induction false} RunAcceptedIsPermitted(mode: Readd, s: PolicySet, p: Plan, t: Table, fs: CgroupFs,
          start: Time, seeds: seq<Seeding>, es: seq<Event>, forward: bool, pkt: Packet, f: Flow, d: Dest,
          now: Time)
    requires WellFormedSet(s) && s.def == Deny && TableOf(p, fs) == Ok(t)
    requires p.sets == PlanOf(s).sets && p.atoms == PlanOf(s).atoms && p.defaultDeny && (forward ==> p.forward)
    requires var w := RunWorld(mode, s, p, Seeded(mode, s, StartWorld(t, fs, start), seeds), es);
             && AboutPacket(s, w, forward, pkt, f, d)
             && (!forward ==> IdsFaithful(w.fs, TrimSlashes(d.cgroup), pkt.ancestors))
             && ChainVerdict(forward, w, pkt, now) == Accepted
    requires !PassesEarly(forward, pkt, f)
    ensures var w := RunWorld(mode, s, p, Seeded(mode, s, StartWorld(t, fs, start), seeds), es);
            exists i: nat :: i < |s.rules| && Permits(s, w, i, d, f.dst, now)
  {
    var w := RunWorld(mode, s, p, Seeded(mode, s, StartWorld(t, fs, start), seeds), es);
    RunSafe(mode, s, p, t, fs, start, seeds, es);
    AcceptedIsPermitted(s, p, w, forward, pkt, f, d, now);
  }

  // ---- the results are about something ----

  function Zeros(n: nat): (z: seq<byte>)
    ensures |z| == n
  {
    seq(n, k => 0)
  }

  /** A packet of a flow from the root cgroup, on a nameless interface. */
  function PacketOf(f: Flow): Packet {
    Packet(
      if f.dst.IPv4? then NFPROTO_IPV4 else NFPROTO_IPV6,
      Zeros(if f.dst.IPv4? then 16 else 24) + f.dst.AsSlice(),
      f.l4, [0, 0] + BE16(f.port), [], [0, 0, 0, 0], [])
  }

  lemma {:induction false} PacketCarries(f: Flow)
    ensures Carries(PacketOf(f), f)
  {
    var n := PacketOf(f).network;
    assert if f.dst.IPv4? then n[16..20] == f.dst.AsSlice() else n[24..40] == f.dst.AsSlice();
    assert PacketOf(f).transport[2..4] == BE16(f.port);
  }

  function DestOf(f: Flow): Dest {
    Dest("", f.dst, f.port, if f.l4 == TCP then "tcp" else "udp", "")
  }

  lemma {:induction false} DestDescribes(f: Flow)
    requires f.l4 == TCP || f.l4 == UDP
    ensures Describes(DestOf(f), f)
  {
    assert ToLower("tcp") == "tcp" && ToLower("udp") == "udp";
  }

  /** Set elements that put `dst` under exactly `names`. */
  ghost function ElemsFor(s: PolicySet, dst: IP, names: set<string>): Elements {
    map n | n in SetsOf(PlanOf(s).sets) ::
      if exists i: nat | i < |s.rules| :: n == SetFor(i, dst)
          && Named(s, names, i) then map[dst.AsSlice() := 0] else map[]
  }

  lemma {:induction false} ElemsHold(s: PolicySet, dst: IP, names: set<string>, anon: nat)
    requires !dst.Is4In6()
    ensures SetsHold(s, names, dst, LiveSets(ElemsFor(s, dst, names), anon, 0))
  {
    var elems, f := ElemsFor(s, dst, names), if dst.IPv4? then V4 else V6;
    forall i: nat | i < |s.rules| && HasDomains(s.rules[i])
      ensures HasKey(LiveSets(elems, anon, 0), SetFor(i, dst), dst.AsSlice()) <==> Named(s, names, i)
    {
      LiveSetsNamed(s, elems, anon, 0, i, f, dst.AsSlice());
      DeclaredExactly(s, 0, SetName(i, f), f);
      assert Declares(s, 0, SetName(i, f), f);
      forall j: nat | j < |s.rules| && SetFor(i, dst) == SetFor(j, dst) ensures i == j {
        SetNameInjective(i, f, j, f);
      }
    }
  }

  lemma {:induction false} RootIsPlaced(fs: CgroupFs, pkt: Packet)
    requires pkt.ancestors == []
    ensures IdsFaithful(fs, TrimSlashes(""), pkt.ancestors) && CgroupExisted(fs, TrimSlashes(""), pkt.ancestors)
  {
    assert TrimSlashes("") == "";
  }

  lemma {:induction false} NoAncestorsPlaced(s: PolicySet, forward: bool, fs: CgroupFs, pkt: Packet)
    requires pkt.ancestors == []
    ensures CgroupsById(s, forward, fs, pkt) == {}
  {
  }

  lemma {:induction false} FlowIsJudged(s: PolicySet, anon: nat, f: Flow, names: set<string>)
    returns (pkt: Packet, d: Dest, sets: SetTable)
    requires WellFormedSet(s)
    requires !f.dst.Is4In6() && (f.l4 == TCP || f.l4 == UDP) && f.inside == {}
    ensures Judged(s, pkt, f, d, names, sets) && AnonymousLoaded(0, anon, sets)
    ensures pkt == PacketOf(f) && d.cgroup == ""
  {
    pkt, d := PacketOf(f), DestOf(f);
    sets := LiveSets(ElemsFor(s, f.dst, names), anon, 0);
    PacketCarries(f);
    DestDescribes(f);
    ElemsHold(s, f.dst, names, anon);
    LiveSetsAnonymous(ElemsFor(s, f.dst, names), anon, 0);
  }

  /** Every tcp or udp flow of the root cgroup, under any policy that loads and any
      names, has a packet, a destination and set contents the results above speak of. */
  lemma {:induction false} EveryFlowIsJudged(s: PolicySet, fs: CgroupFs, f: Flow, names: set<string>)
    returns (pkt: Packet, d: Dest, sets: SetTable)
    requires WellFormedSet(s) && TableOf(PlanOf(s), fs).Ok?
    requires !f.dst.Is4In6() && (f.l4 == TCP || f.l4 == UDP) && f.inside == {}
    ensures Judged(s, pkt, f, d, names, sets) && AnonymousLoaded(0, TableOf(PlanOf(s), fs).value.anon, sets)
    ensures forall forward :: f.inside == CgroupsById(s, forward, fs, pkt)
    ensures IdsFaithful(fs, TrimSlashes(d.cgroup), pkt.ancestors)
    ensures CgroupExisted(fs, TrimSlashes(d.cgroup), pkt.ancestors)
  {
    pkt, d, sets := FlowIsJudged(s, TableOf(PlanOf(s), fs).value.anon, f, names);
    RootIsPlaced(fs, pkt);
    forall forward ensures CgroupsById(s, forward, fs, pkt) == {} {
      NoAncestorsPlaced(s, forward, fs, pkt);
    }
  }
}
