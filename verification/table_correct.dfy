/** The whole compiler: a packet run through the loaded chains gets the policy's
    answer, although atoms of cgroups that did not exist were left out. */
module TableCorrect {
  import opened Wrappers
  import opened Bytes
  import opened Text
  import opened Netip
  import opened Policy
  import opened PolicyLaws
  import opened Plan
  import opened PlanCorrect
  import opened Kernel
  import opened Codegen
  import opened Apply

  // ---- cgroup ids ----

  function Depth(cgroup: string): nat {
    if cgroup == "" then 0 else |Split(cgroup, '/')|
  }

  /** The ids in a packet still mean the paths they meant at load time. */
  ghost predicate IdsFaithful(fs: CgroupFs, cgroup: string, ancestors: seq<CgroupId>) {
    && |ancestors| == Depth(cgroup)
    && forall path: string, n: nat | 1 <= n <= |ancestors| && GoodCgroup(path) && path != "" ::
         fs(path) == Found(ancestors[n - 1]) ==> Ancestor(cgroup, n) == path
  }

  /** The packet's cgroup and all above it existed at load time. */
  ghost predicate CgroupExisted(fs: CgroupFs, cgroup: string, ancestors: seq<CgroupId>) {
    && |ancestors| == Depth(cgroup)
    && forall n: nat | 1 <= n <= |ancestors| :: fs(Ancestor(cgroup, n)) == Found(ancestors[n - 1])
  }

  /** What the kernel makes of one cgroup path for one packet: nothing on the forward
      chain, and otherwise whether the socket has, at the path's level, the id the path had
      when the table was loaded. */
  predicate PassesCgroup(path: string, forward: bool, fs: CgroupFs, p: Packet) {
    !forward && StatOf(fs, path).Found? && CgroupTest(path, StatOf(fs, path).id, p)
  }

  /** The cgroups of rules that the kernel takes the sending socket to be in. */
  function CgroupsById(s: PolicySet, forward: bool, fs: CgroupFs, p: Packet): set<string> {
    set c | c in RuleCgroups(s) && PassesCgroup(c, forward, fs, p)
  }

  /** `f` says of the cgroups of some atoms what the kernel makes of them. */
  predicate Placed(atoms: seq<Atom>, forward: bool, fs: CgroupFs, p: Packet, f: Flow) {
    forall a | a in atoms && a.cgroup != "" :: a.cgroup in f.inside <==> PassesCgroup(a.cgroup, forward, fs, p)
  }

  /** While ids mean what they meant, the id test lets through no socket outside the
      cgroup, and of those inside the ones whose ancestor has the loaded id. */
  lemma {:induction false} TestByIdIff(fs: CgroupFs, path: string, cgroup: string, p: Packet)
    requires IdsFaithful(fs, cgroup, p.ancestors) && GoodCgroup(path) && path != "" && fs(path).Found?
    ensures PassesCgroup(path, false, fs, p) <==>
              KernelWithin(cgroup, path) && CgroupLevel(path) <= |p.ancestors|
              && p.ancestors[CgroupLevel(path) - 1] == fs(path).id
  {
    if PassesCgroup(path, false, fs, p) {
      assert Ancestor(cgroup, CgroupLevel(path)) == path;
    }
  }

  /** For sockets whose cgroup existed at load time, the id test is the path test, and no
      rule confined to a cgroup that was not there could have matched. */
  lemma {:induction false} TestIsWithin(fs: CgroupFs, path: string, cgroup: string, p: Packet)
    requires IdsFaithful(fs, cgroup, p.ancestors) && CgroupExisted(fs, cgroup, p.ancestors)
    requires GoodCgroup(path) && path != ""
    ensures PassesCgroup(path, false, fs, p) <==> CgroupWithin(cgroup, path)
  {
    CgroupWithinIsAncestry(cgroup, path);
    if cgroup == "" {
      assert Split("", '/') == [""];
      assert CgroupLevel(path) == 1 ==> Ancestor("", 1) == "";
    } else if KernelWithin(cgroup, path) {
      assert fs(Ancestor(cgroup, CgroupLevel(path))) == Found(p.ancestors[CgroupLevel(path) - 1]);
    }
  }

  /** So the kernel places such a socket where its path does. */
  lemma {:induction false} PlacedByPath(s: PolicySet, fs: CgroupFs, cgroup: string, p: Packet)
    requires WellFormedSet(s) && IdsFaithful(fs, cgroup, p.ancestors) && CgroupExisted(fs, cgroup, p.ancestors)
    ensures CgroupsById(s, false, fs, p) == CgroupsAbove(s, cgroup)
  {
    forall c | c in RuleCgroups(s) ensures PassesCgroup(c, false, fs, p) <==> CgroupWithin(cgroup, c) {
      var r :| r in s.rules && r.cgroup == c && c != "";
      TestIsWithin(fs, c, cgroup, p);
    }
  }

  /** Forwarded packets are in no cgroup. */
  lemma {:induction false} ForwardPlaced(s: PolicySet, fs: CgroupFs, p: Packet)
    requires WellFormedSet(s)
    ensures CgroupsById(s, true, fs, p) == {} == CgroupsAbove(s, "")
  {
    forall c | c in RuleCgroups(s) ensures !CgroupWithin("", c) {
    }
  }

  // ---- anonymous sets ----

  /** The anonymous sets numbered `from + 1` to `to` hold tcp and udp. */
  predicate AnonymousLoaded(from: nat, to: nat, sets: SetTable) {
    forall k: nat | from < k <= to :: AnonymousName(k) in sets && sets[AnonymousName(k)] == TCP_UDP
  }

  lemma {:induction false} AnonGrows(atoms: seq<Atom>, forward: bool, fs: CgroupFs, known: set<string>, anon: nat)
    ensures var b := AtomsBody(atoms, forward, fs, known, anon); b.Ok? ==> anon <= b.value.anon
  {
    if atoms != [] {
      var one := AtomBody(atoms[0], forward, fs, known, anon);
      if one.Ok? {
        AnonGrows(atoms[1..], forward, fs, known, one.value.anon);
      }
    }
  }

  // ---- the policy part of a chain ----

  /** First matching atom's outcome, else `policy`. */
  function AtomOutcome(atoms: seq<Atom>, f: Flow, sets: SetTable, policy: Outcome): Outcome {
    if atoms == [] then policy
    else if AtomMatches(atoms[0], f, sets) then VerdictOutcome(atoms[0].verdict, atoms[0].rule)
    else AtomOutcome(atoms[1..], f, sets, policy)
  }

  /** What the rule, or the absence of a rule, for one atom does to a packet. */
  lemma {:induction false} AtomBodyDecides(a: Atom, forward: bool, fs: CgroupFs, known: set<string>, anon: nat,
          p: Packet, f: Flow, sets: SetTable, policy: Outcome)
    requires AtomBody(a, forward, fs, known, anon).Ok? && GoodAtom(a) && Carries(p, f)
    requires AnonymousLoaded(anon, AtomBody(a, forward, fs, known, anon).value.anon, sets)
    requires Placed([a], forward, fs, p, f)
    ensures RunChain(AtomBody(a, forward, fs, known, anon).value.code, policy, p, sets)
         == if AtomMatches(a, f, sets) then VerdictOutcome(a.verdict, a.rule) else policy
  {
    assert a in [a];
    if a.InChain(forward) && StatOf(fs, a.cgroup).Found? {
      var id := StatOf(fs, a.cgroup).id;
      assert NeedsAnonymous(a) ==> AnonymousName(anon + 1) in sets;
      AtomCodeCorrect(a, id, AnonymousName(anon + 1), p, f, sets);
      var code := AtomCode(a, id, AnonymousName(anon + 1));
      assert [code][1..] == [];
    }
  }

  /** The policy part of either chain, for every packet: first match over the atoms, with
      each cgroup tested by the id it had at the load, if it had one. */
  lemma {:induction false} AtomsBodyDecides(atoms: seq<Atom>, forward: bool, fs: CgroupFs, known: set<string>,
          anon: nat, p: Packet, f: Flow, sets: SetTable, policy: Outcome)
    requires AtomsBody(atoms, forward, fs, known, anon).Ok? && Carries(p, f)
    requires forall a | a in atoms :: GoodAtom(a)
    requires AnonymousLoaded(anon, AtomsBody(atoms, forward, fs, known, anon).value.anon, sets)
    requires Placed(atoms, forward, fs, p, f)
    ensures RunChain(AtomsBody(atoms, forward, fs, known, anon).value.code, policy, p, sets)
         == AtomOutcome(atoms, f, sets, policy)
  {
    if atoms != [] {
      var one := AtomBody(atoms[0], forward, fs, known, anon).value;
      var rest := AtomsBody(atoms[1..], forward, fs, known, one.anon).value;
      AnonGrows(atoms[1..], forward, fs, known, one.anon);
      assert forall a | a in atoms[1..] :: a in atoms;
      assert atoms[0] in atoms;
      RunChainConcat(one.code, rest.code, policy, p, sets);
      AtomBodyDecides(atoms[0], forward, fs, known, anon, p, f, sets, RunChain(rest.code, policy, p, sets));
      AtomsBodyDecides(atoms[1..], forward, fs, known, one.anon, p, f, sets, policy);
    }
  }

  // ---- the fixed rules ----

  predicate Established(p: Packet) {
    |p.ctstate| == 4 && And(p.ctstate, ESTABLISHED_MASK) != [0, 0, 0, 0]
  }

  predicate IsHousekeeping(dst: IP) {
    exists h | h in HOUSEKEEPING :: h.Contains(dst)
  }

  lemma {:induction false} EstablishedLoad(p: Packet, sets: SetTable)
    requires |p.ctstate| == 4
    ensures Exec([CtState, Bitwise(ESTABLISHED_MASK)], Running([], ""), p, sets)
            == Running(And(p.ctstate, ESTABLISHED_MASK), "")
  {
    Exec2(CtState, Bitwise(ESTABLISHED_MASK), Running([], ""), p, sets);
  }

  lemma {:induction false} NonzeroTest(reg: seq<byte>, p: Packet, sets: SetTable)
    requires |reg| == 4
    ensures Exec([Cmp(Neq, [0, 0, 0, 0]), AcceptVerdict], Running(reg, ""), p, sets)
         == if reg != [0, 0, 0, 0] then Ended(Accepted) else Ended(Continue)
  {
    Exec2(Cmp(Neq, [0, 0, 0, 0]), AcceptVerdict, Running(reg, ""), p, sets);
    SameLengthPrefix([0, 0, 0, 0], reg);
  }

  lemma {:induction false} EstablishedRule(p: Packet, sets: SetTable)
    requires |p.ctstate| == 4
    ensures RunRule(ESTABLISHED_ACCEPT, p, sets) == if Established(p) then Accepted else Continue
  {
    var load, test := [CtState, Bitwise(ESTABLISHED_MASK)], [Cmp(Neq, [0, 0, 0, 0]), AcceptVerdict];
    assert ESTABLISHED_ACCEPT == load + test;
    ExecConcat(load, test, Running([], ""), p, sets);
    EstablishedLoad(p, sets);
    NonzeroTest(And(p.ctstate, ESTABLISHED_MASK), p, sets);
  }

  lemma {:induction false} OifRule(name: seq<byte>, p: Packet, sets: SetTable)
    ensures RunRule([Meta(OifName), Cmp(Eq, name), AcceptVerdict], p, sets)
         == if name <= p.oifname then Accepted else Continue
  {
    var a, b := [Meta(OifName), Cmp(Eq, name)], [AcceptVerdict];
    assert [Meta(OifName), Cmp(Eq, name), AcceptVerdict] == a + b;
    var s0 := Running([], "");
    ExecConcat(a, b, s0, p, sets);
    Exec2(a[0], a[1], s0, p, sets);
    var s1 := Exec(a, s0, p, sets);
    if s1.Running? {
      Exec1(AcceptVerdict, s1, p, sets);
    }
  }

  lemma {:induction false} HousekeepingRule(h: Prefix, p: Packet, f: Flow, sets: SetTable)
    requires Carries(p, f)
    ensures RunRule(AtomCode(HousekeepingAtom(h), NO_ID, AnonymousName(0)), p, sets)
         == if h.Contains(f.dst) then Accepted else Continue
  {
    AtomCodeCorrect(HousekeepingAtom(h), NO_ID, AnonymousName(0), p, f, sets);
  }

  lemma {:induction false} SomeContains(hs: seq<Prefix>, dst: IP)
    requires hs != []
    ensures (exists h | h in hs :: h.Contains(dst)) <==>
            hs[0].Contains(dst) || exists h | h in hs[1..] :: h.Contains(dst)
  {
    assert forall h :: h in hs <==> h == hs[0] || h in hs[1..];
  }

  lemma {:induction false} HousekeepingCons(hs: seq<Prefix>, rest: Outcome, p: Packet, sets: SetTable)
    requires hs != []
    ensures var first := RunRule(AtomCode(HousekeepingAtom(hs[0]), NO_ID, AnonymousName(0)), p, sets);
            RunChain(HousekeepingCode(hs), rest, p, sets) ==
              if first != Continue then first else RunChain(HousekeepingCode(hs[1..]), rest, p, sets)
  {
    assert HousekeepingCode(hs)[1..] == HousekeepingCode(hs[1..]);
  }

  lemma {:induction false} HousekeepingRulesRun(hs: seq<Prefix>, rest: Outcome, p: Packet, f: Flow, sets: SetTable)
    requires Carries(p, f)
    ensures RunChain(HousekeepingCode(hs), rest, p, sets)
         == if exists h | h in hs :: h.Contains(f.dst) then Accepted else rest
  {
    if hs != [] {
      HousekeepingRule(hs[0], p, f, sets);
      HousekeepingRulesRun(hs[1..], rest, p, f, sets);
      HousekeepingCons(hs, rest, p, sets);
      SomeContains(hs, f.dst);
    }
  }

  /** Established traffic and housekeeping destinations are accepted before the
      policy is asked; everything else goes on to it. */
  lemma {:induction false} PreambleRuns(rest: Outcome, p: Packet, f: Flow, sets: SetTable)
    requires Carries(p, f) && |p.ctstate| == 4
    ensures RunChain(PREAMBLE, rest, p, sets)
         == if Established(p) || IsHousekeeping(f.dst) then Accepted else rest
  {
    EstablishedRule(p, sets);
    HousekeepingRulesRun(HOUSEKEEPING, rest, p, f, sets);
    assert PREAMBLE[0] == ESTABLISHED_ACCEPT && PREAMBLE[1..] == HousekeepingCode(HOUSEKEEPING);
  }

  lemma {:induction false} ClosingRuns(p: Plan, pkt: Packet, sets: SetTable)
    ensures RunChain(Closing(p), PolicyOutcome(p), pkt, sets)
         == VerdictOutcome(if p.defaultDeny then Deny else Allow, "")
  {
    if p.defaultDeny {
      VerdictPiece(Deny, "", Running([], ""), pkt, sets);
      assert [RefuseCode("")][1..] == [];
    }
  }

  // ---- chains ----

  function DecisionOutcome(d: Decision): Outcome {
    VerdictOutcome(d.verdict, d.rule)
  }

  lemma {:induction false} OutcomeOfDecision(atoms: seq<Atom>, f: Flow, sets: SetTable, def: Verdict)
    ensures AtomOutcome(atoms, f, sets, VerdictOutcome(def, "")) == DecisionOutcome(AtomDecision(atoms, f, sets, def))
  {
    if atoms != [] {
      OutcomeOfDecision(atoms[1..], f, sets, def);
    }
  }

  lemma {:induction false} PlanCgroups(s: PolicySet, i: nat)
    requires i <= |s.rules| && WellFormedSet(s)
    ensures forall a | a in AtomsFrom(s, i) && a.cgroup != "" :: a.cgroup in RuleCgroups(s)
    decreases |s.rules| - i
  {
    if i < |s.rules| {
      var r := s.rules[i];
      assert r in s.rules;
      RuleAtomsMatch(i, r, Flow(IPv4([0, 0, 0, 0]), 0, 0, {}), map[]);
      assert forall a | a in RuleAtoms(i, r) :: a.cgroup == r.cgroup;
      PlanCgroups(s, i + 1);
      assert AtomsFrom(s, i) == RuleAtoms(i, r) + AtomsFrom(s, i + 1);
    }
  }

  /** A chain body decides every packet as its atoms do. */
  lemma {:induction false} ChainDecides(s: PolicySet, p: Plan, forward: bool, fs: CgroupFs, known: set<string>,
          anon: nat, pkt: Packet, f: Flow, sets: SetTable)
    requires WellFormedSet(s) && p.atoms == PlanOf(s).atoms && p.defaultDeny == PlanOf(s).defaultDeny
    requires ChainOf(p, forward, fs, known, anon).Ok? && Carries(pkt, f) && |pkt.ctstate| == 4
    requires AnonymousLoaded(anon, ChainOf(p, forward, fs, known, anon).value.anon, sets)
    requires f.inside == CgroupsById(s, forward, fs, pkt)
    ensures RunChain(ChainOf(p, forward, fs, known, anon).value.code, PolicyOutcome(p), pkt, sets)
         == if Established(pkt) || IsHousekeeping(f.dst) then Accepted
            else DecisionOutcome(AtomDecision(p.atoms, f, sets, s.def))
  {
    var b := AtomsBody(p.atoms, forward, fs, known, anon).value;
    var closing := RunChain(Closing(p), PolicyOutcome(p), pkt, sets);
    ClosingRuns(p, pkt, sets);
    PlanAtomsGood(s, 0);
    PlanCgroups(s, 0);
    AtomsBodyDecides(p.atoms, forward, fs, known, anon, pkt, f, sets, closing);
    OutcomeOfDecision(p.atoms, f, sets, s.def);
    PreambleRuns(RunChain(b.code, closing, pkt, sets), pkt, f, sets);
    RunChainConcat(PREAMBLE + b.code, Closing(p), PolicyOutcome(p), pkt, sets);
    RunChainConcat(PREAMBLE, b.code, closing, pkt, sets);
  }

  lemma {:induction false} BridgesRun(rest: Outcome, pkt: Packet, sets: SetTable)
    ensures RunChain(BridgeRules(), rest, pkt, sets)
         == if BRIDGE_PREFIXES[0] <= pkt.oifname || BRIDGE_PREFIXES[1] <= pkt.oifname then Accepted else rest
  {
    var rules := BridgeRules();
    OifRule(BRIDGE_PREFIXES[0], pkt, sets);
    OifRule(BRIDGE_PREFIXES[1], pkt, sets);
    assert rules == [rules[0]] + [rules[1]];
    assert [rules[1]][1..] == [] && [rules[0]][1..] == [];
    RunChainConcat([rules[0]], [rules[1]], rest, pkt, sets);
  }

  /** The packet is about destination `d`, in every way the policy looks at. */
  predicate Judged(s: PolicySet, pkt: Packet, f: Flow, d: Dest, names: set<string>, sets: SetTable) {
    Carries(pkt, f) && |pkt.ctstate| == 4 && Describes(d, f) && !f.dst.Is4In6() && SetsHold(s, names, f.dst, sets)
  }

  /** What a chain accepts before the policy is asked. */
  predicate PassesEarly(forward: bool, pkt: Packet, f: Flow) {
    (if forward then BRIDGE_PREFIXES[0] <= pkt.oifname || BRIDGE_PREFIXES[1] <= pkt.oifname
     else LOOPBACK_NAME <= pkt.oifname)
    || Established(pkt) || IsHousekeeping(f.dst)
  }

  function ChainIn(t: Table, forward: bool): seq<Code> {
    if forward then t.forward else t.output
  }

  /** The whole table, either chain: for every policy, every cgroup snapshot and every
      packet, traffic that stays on the host or on a bridge, established traffic and
      housekeeping are accepted, and every other packet gets the verdict of the atoms, its
      socket placed by the ids cgroups had when the table was loaded. */
  lemma {:induction false} TableDecidesAsAtoms(s: PolicySet, p: Plan, fs: CgroupFs, forward: bool, pkt: Packet,
          f: Flow, sets: SetTable)
    requires WellFormedSet(s) && p.sets == PlanOf(s).sets && p.atoms == PlanOf(s).atoms
    requires p.defaultDeny == PlanOf(s).defaultDeny && (forward ==> p.forward) && TableOf(p, fs).Ok?
    requires Carries(pkt, f) && |pkt.ctstate| == 4 && AnonymousLoaded(0, TableOf(p, fs).value.anon, sets)
    requires f.inside == CgroupsById(s, forward, fs, pkt)
    ensures var t := TableOf(p, fs).value;
            RunChain(ChainIn(t, forward), t.policy, pkt, sets) ==
              if PassesEarly(forward, pkt, f) then Accepted
              else DecisionOutcome(AtomDecision(p.atoms, f, sets, s.def))
  {
    var t := TableOf(p, fs).value;
    var known := SetsOf(p.sets).Keys;
    var out := ChainOf(p, false, fs, known, 0).value;
    AnonGrows(p.atoms, false, fs, known, 0);
    if forward {
      var fwd := ChainOf(p, true, fs, known, out.anon).value;
      ChainDecides(s, p, true, fs, known, out.anon, pkt, f, sets);
      RunChainConcat(BridgeRules(), fwd.code, t.policy, pkt, sets);
      BridgesRun(RunChain(fwd.code, t.policy, pkt, sets), pkt, sets);
    } else {
      if p.forward {
        AnonGrows(p.atoms, true, fs, known, out.anon);
      }
      ChainDecides(s, p, false, fs, known, 0, pkt, f, sets);
      OifRule(LOOPBACK_NAME, pkt, sets);
      assert t.output[0] == LOOPBACK_ACCEPT && t.output[1..] == out.code;
    }
  }

  /** The whole compiler, output chain: for every policy, every cgroup snapshot
      and every packet from a cgroup that existed when the table was loaded, the
      chain accepts loopback, established and housekeeping traffic, and gives
      every other packet the verdict, and on refusal the rule name, that the
      policy gives its destination. */
  lemma {:induction false} OutputDecidesAsPolicy(s: PolicySet, p: Plan, fs: CgroupFs, pkt: Packet, f: Flow,
          d: Dest, names: set<string>, sets: SetTable)
    requires WellFormedSet(s) && p.sets == PlanOf(s).sets && p.atoms == PlanOf(s).atoms
    requires p.defaultDeny == PlanOf(s).defaultDeny && TableOf(p, fs).Ok?
    requires Judged(s, pkt, f, d, names, sets) && AnonymousLoaded(0, TableOf(p, fs).value.anon, sets)
    requires f.inside == CgroupsById(s, false, fs, pkt)
    requires IdsFaithful(fs, TrimSlashes(d.cgroup), pkt.ancestors)
    requires CgroupExisted(fs, TrimSlashes(d.cgroup), pkt.ancestors)
    ensures var t := TableOf(p, fs).value;
            RunChain(t.output, t.policy, pkt, sets) ==
              if PassesEarly(false, pkt, f) then Accepted else DecisionOutcome(DecideNamed(s, d, names))
    ensures names == {d.domain} ==> DecideNamed(s, d, names) == Decide(s, d)
  {
    TableDecidesAsAtoms(s, p, fs, false, pkt, f, sets);
    PlacedByPath(s, fs, TrimSlashes(d.cgroup), pkt);
    PlanDecidesAsPolicy(s, d, f, names, sets);
  }

  /** The whole compiler, forward chain: traffic that stays on a docker bridge is
      accepted, and the rest is judged as coming from no cgroup. */
  lemma {:induction false} ForwardDecidesAsPolicy(s: PolicySet, p: Plan, fs: CgroupFs, pkt: Packet, f: Flow,
          d: Dest, names: set<string>, sets: SetTable)
    requires WellFormedSet(s) && p.sets == PlanOf(s).sets && p.atoms == PlanOf(s).atoms
    requires p.defaultDeny == PlanOf(s).defaultDeny && p.forward && TableOf(p, fs).Ok?
    requires Judged(s, pkt, f, d, names, sets) && AnonymousLoaded(0, TableOf(p, fs).value.anon, sets)
    requires f.inside == {} && TrimSlashes(d.cgroup) == ""
    ensures var t := TableOf(p, fs).value;
            RunChain(t.forward, t.policy, pkt, sets) ==
              if PassesEarly(true, pkt, f) then Accepted else DecisionOutcome(DecideNamed(s, d, names))
  {
    ForwardPlaced(s, fs, pkt);
    TableDecidesAsAtoms(s, p, fs, true, pkt, f, sets);
    PlanDecidesAsPolicy(s, d, f, names, sets);
  }
}
