/** The first stage of the compiler: deciding a packet by the plan's atoms, first
    match wins, is deciding its destination by the policy. */
module PlanCorrect {
  import opened Wrappers
  import opened Bytes
  import opened Text
  import opened Netip
  import opened Seqs
  import opened Policy
  import opened PolicyLaws
  import opened Plan

  // ---- one packet, as far as rules can see it ----

  const TCP: byte := 6
  const UDP: byte := 17

  /** `port` is the destination port, for a protocol that has one; `inside` are the
      cgroups, by path, that the sending socket counts as being in. */
  datatype Flow = Flow(dst: IP, l4: byte, port: uint16, inside: set<string>)

  predicate HasKey(sets: SetTable, name: string, key: seq<byte>) {
    name in sets && key in sets[name]
  }

  predicate HasPorts(l4: byte) {
    l4 == TCP || l4 == UDP
  }

  // ---- what an atom means ----

  predicate FamilyMatches(a: Atom, dst: IP) {
    match a.family
    case AnyFamily => true
    case V4 => dst.IPv4?
    case V6 => dst.IPv6?
  }

  predicate DaddrMatches(a: Atom, dst: IP, sets: SetTable) {
    match a.prefix
    case Some(p) => p.Contains(dst)
    case None => a.set_ != "" ==> HasKey(sets, a.set_, dst.AsSlice())
  }

  predicate ProtoMatches(proto: string, l4: byte) {
    if proto == "udp" then l4 == UDP else l4 == TCP
  }

  /** A port with no protocol means tcp or udp. */
  predicate TransportMatches(proto: string, pr: PortRange, f: Flow) {
    (if proto != "" then ProtoMatches(proto, f.l4) else pr.hi != 0 ==> HasPorts(f.l4))
    && (pr.hi != 0 ==> InRange(pr, f.port))
  }

  predicate CgroupMatches(cgroup: string, f: Flow) {
    cgroup == "" || cgroup in f.inside
  }

  predicate AtomMatches(a: Atom, f: Flow, sets: SetTable) {
    CgroupMatches(a.cgroup, f) && FamilyMatches(a, f.dst) && DaddrMatches(a, f.dst, sets)
    && TransportMatches(a.proto, a.port, f)
  }

  /** First match over a list of atoms, `def` when none matches. */
  function AtomDecision(atoms: seq<Atom>, f: Flow, sets: SetTable, def: Verdict): Decision {
    if atoms == [] then Decision(def, "")
    else if AtomMatches(atoms[0], f, sets) then Decision(atoms[0].verdict, atoms[0].rule)
    else AtomDecision(atoms[1..], f, sets, def)
  }

  predicate AnyMatch(atoms: seq<Atom>, f: Flow, sets: SetTable) {
    exists a | a in atoms :: AtomMatches(a, f, sets)
  }

  // ---- what a rule means to the kernel ----

  predicate TransportFits(r: CompiledRule, f: Flow) {
    exists pr | pr in Ports(r) :: TransportMatches(r.proto, pr, f)
  }

  predicate HostMatches(i: nat, r: CompiledRule, dst: IP, sets: SetTable) {
    r.anyHost
    || (exists p | p in r.prefixes :: p.Contains(dst))
    || (HasDomains(r) && HasKey(sets, SetName(i, if dst.IPv4? then V4 else V6), dst.AsSlice()))
  }

  predicate KernelRule(i: nat, r: CompiledRule, f: Flow, sets: SetTable) {
    CgroupMatches(r.cgroup, f) && TransportFits(r, f) && HostMatches(i, r, f.dst, sets)
  }

  lemma {:induction false} EmittedMatch(base: Atom, r: CompiledRule, f: Flow, sets: SetTable)
    ensures AnyMatch(Emitted(base, r), f, sets) <==>
              CgroupMatches(r.cgroup, f) && FamilyMatches(base, f.dst) && DaddrMatches(base, f.dst, sets)
              && TransportFits(r, f)
    ensures forall a | a in Emitted(base, r) :: a.verdict == r.verdict && a.rule == r.name && a.cgroup == r.cgroup
  {
    var es := Emitted(base, r);
    forall k | 0 <= k < |es|
      ensures AtomMatches(es[k], f, sets) <==>
                CgroupMatches(r.cgroup, f) && FamilyMatches(base, f.dst) && DaddrMatches(base, f.dst, sets)
                && TransportMatches(r.proto, Ports(r)[k], f)
    {
    }
    if TransportFits(r, f) {
      var pr :| pr in Ports(r) && TransportMatches(r.proto, pr, f);
      var k :| 0 <= k < |Ports(r)| && Ports(r)[k] == pr;
      assert es[k] in es;
    }
  }

  lemma {:induction false} AnyMatchConcat(a: seq<Atom>, b: seq<Atom>, f: Flow, sets: SetTable)
    ensures AnyMatch(a + b, f, sets) <==> AnyMatch(a, f, sets) || AnyMatch(b, f, sets)
  {
    assert forall x :: x in a + b <==> x in a || x in b;
  }

  lemma {:induction false} PrefixAtomsMatch(r: CompiledRule, prefixes: seq<Prefix>, f: Flow, sets: SetTable)
    ensures AnyMatch(PrefixAtoms(r, prefixes), f, sets) <==>
              CgroupMatches(r.cgroup, f) && TransportFits(r, f) && exists p | p in prefixes :: p.Contains(f.dst)
    ensures forall a | a in PrefixAtoms(r, prefixes) ::
              a.verdict == r.verdict && a.rule == r.name && a.cgroup == r.cgroup
  {
    if prefixes != [] {
      var base := Base(FamilyOf(prefixes[0]), Some(prefixes[0]), "");
      EmittedMatch(base, r, f, sets);
      PrefixAtomsMatch(r, prefixes[1..], f, sets);
      AnyMatchConcat(Emitted(base, r), PrefixAtoms(r, prefixes[1..]), f, sets);
      assert forall p :: p in prefixes <==> p == prefixes[0] || p in prefixes[1..];
    }
  }

  lemma {:induction false} DomainAtomsMatch(i: nat, r: CompiledRule, f: Flow, sets: SetTable)
    ensures AnyMatch(DomainAtoms(i, r), f, sets) <==>
              CgroupMatches(r.cgroup, f) && TransportFits(r, f) && HasDomains(r)
              && HasKey(sets, SetName(i, if f.dst.IPv4? then V4 else V6), f.dst.AsSlice())
    ensures forall a | a in DomainAtoms(i, r) :: a.verdict == r.verdict && a.rule == r.name && a.cgroup == r.cgroup
  {
    if HasDomains(r) {
      var b4, b6 := Base(V4, None, SetName(i, V4)), Base(V6, None, SetName(i, V6));
      EmittedMatch(b4, r, f, sets);
      EmittedMatch(b6, r, f, sets);
      AnyMatchConcat(Emitted(b4, r), Emitted(b6, r), f, sets);
    }
  }

  /** The atoms of a rule together match what the rule matches. */
  lemma {:induction false} RuleAtomsMatch(i: nat, r: CompiledRule, f: Flow, sets: SetTable)
    requires WellFormed(r)
    ensures AnyMatch(RuleAtoms(i, r), f, sets) <==> KernelRule(i, r, f, sets)
    ensures forall a | a in RuleAtoms(i, r) :: a.verdict == r.verdict && a.rule == r.name && a.cgroup == r.cgroup
  {
    if r.anyHost {
      EmittedMatch(Base(AnyFamily, None, ""), r, f, sets);
    } else {
      PrefixAtomsMatch(r, r.prefixes, f, sets);
      DomainAtomsMatch(i, r, f, sets);
      AnyMatchConcat(PrefixAtoms(r, r.prefixes), DomainAtoms(i, r), f, sets);
    }
  }

  // ---- first match over rules, and over their atoms ----

  /** First rule, from `i` on, that the kernel would match. */
  function RuleDecision(s: PolicySet, i: nat, f: Flow, sets: SetTable): Decision
    requires i <= |s.rules|
    decreases |s.rules| - i
  {
    if i == |s.rules| then Decision(s.def, "")
    else if KernelRule(i, s.rules[i], f, sets) then Decision(s.rules[i].verdict, s.rules[i].name)
    else RuleDecision(s, i + 1, f, sets)
  }

  lemma {:induction false} DecisionConcat(a: seq<Atom>, b: seq<Atom>, f: Flow, sets: SetTable, def: Verdict)
    ensures AtomDecision(a + b, f, sets, def) ==
              if AnyMatch(a, f, sets) then AtomDecision(a, f, sets, def) else AtomDecision(b, f, sets, def)
  {
    if a == [] {
      assert a + b == b;
    } else {
      DecisionConcat(a[1..], b, f, sets, def);
      assert (a + b)[1..] == a[1..] + b;
      assert forall x :: x in a <==> x == a[0] || x in a[1..];
    }
  }

  lemma {:induction false} DecisionUniform(atoms: seq<Atom>, v: Verdict, rule: string, f: Flow, sets: SetTable,
          def: Verdict)
    requires AnyMatch(atoms, f, sets) && forall a | a in atoms :: a.verdict == v && a.rule == rule
    ensures AtomDecision(atoms, f, sets, def) == Decision(v, rule)
  {
    assert atoms[0] in atoms;
    if !AtomMatches(atoms[0], f, sets) {
      assert forall x :: x in atoms <==> x == atoms[0] || x in atoms[1..];
      DecisionUniform(atoms[1..], v, rule, f, sets, def);
    }
  }

  /** Flattening keeps first-match: the atom list decides as the rule list does,
      for every packet and every content of the sets. */
  lemma {:induction false} AtomsDecideAsRules(s: PolicySet, i: nat, f: Flow, sets: SetTable)
    requires i <= |s.rules| && WellFormedSet(s)
    ensures AtomDecision(AtomsFrom(s, i), f, sets, s.def) == RuleDecision(s, i, f, sets)
    decreases |s.rules| - i
  {
    if i < |s.rules| {
      var r := s.rules[i];
      assert r in s.rules;
      AtomsDecideAsRules(s, i + 1, f, sets);
      RuleAtomsMatch(i, r, f, sets);
      DecisionConcat(RuleAtoms(i, r), AtomsFrom(s, i + 1), f, sets, s.def);
      if KernelRule(i, r, f, sets) {
        DecisionUniform(RuleAtoms(i, r), r.verdict, r.name, f, sets, s.def);
      }
    }
  }

  // ---- from the kernel's rule test to the policy's ----

  /** The destination a packet is judged as. A protocol without ports is
      judged with port 0, which no compiled range contains. */
  predicate Describes(d: Dest, f: Flow) {
    d.ip == f.dst
    && (if f.l4 == TCP then ToLower(d.proto) == "tcp" && d.port == f.port
        else if f.l4 == UDP then ToLower(d.proto) == "udp" && d.port == f.port
        else ToLower(d.proto) !in {"", "tcp", "udp"} && d.port == 0)
  }

  /** The rules some name of `names` falls under. */
  predicate Named(s: PolicySet, names: set<string>, i: nat) {
    exists n | n in names :: InDomainRules(s, n, i)
  }

  function NamedRules(s: PolicySet, names: set<string>): set<nat> {
    set i: nat | i < |s.rules| && Named(s, names, i)
  }

  /** `dst` sits in the sets of exactly the rules `live`, among those that have sets. */
  predicate SetsHoldFor(s: PolicySet, live: set<nat>, dst: IP, sets: SetTable) {
    forall i: nat | i < |s.rules| && HasDomains(s.rules[i]) ::
      HasKey(sets, SetFor(i, dst), dst.AsSlice()) <==> i in live
  }

  /** `dst` sits in the sets of exactly the rules that `names` falls under. */
  predicate SetsHold(s: PolicySet, names: set<string>, dst: IP, sets: SetTable) {
    SetsHoldFor(s, NamedRules(s, names), dst, sets)
  }

  /** RuleApplies for a destination whose name is taken to fall under the rules `live`,
      and whose socket is taken to be in the cgroups `inside`. */
  predicate RuleAppliesAmong(s: PolicySet, i: nat, d: Dest, live: set<nat>, inside: set<string>)
    requires i < |s.rules|
  {
    var r := s.rules[i];
    (r.cgroup == "" || r.cgroup in inside) && ProtoFits(r, ToLower(d.proto)) && PortFits(r, d.port)
    && (r.anyHost || (HasDomains(r) && i in live) || PrefixHit(r, d.ip))
  }

  function DecideAmong(s: PolicySet, i: nat, d: Dest, live: set<nat>, inside: set<string>): Decision
    requires i <= |s.rules|
    decreases |s.rules| - i
  {
    if i == |s.rules| then Decision(s.def, "")
    else if RuleAppliesAmong(s, i, d, live, inside) then Decision(s.rules[i].verdict, s.rules[i].name)
    else DecideAmong(s, i + 1, d, live, inside)
  }

  /** The cgroups rules are confined to. */
  function RuleCgroups(s: PolicySet): set<string> {
    set r | r in s.rules && r.cgroup != "" :: r.cgroup
  }

  /** Those a path is in. */
  function CgroupsAbove(s: PolicySet, path: string): set<string> {
    set c | c in RuleCgroups(s) && CgroupWithin(path, c)
  }

  /** The decision when the destination's own cgroup path is believed. */
  function DecideWhere(s: PolicySet, d: Dest, live: set<nat>): Decision {
    DecideAmong(s, 0, d, live, CgroupsAbove(s, TrimSlashes(d.cgroup)))
  }

  /** The decision on a destination known under any of `names`. */
  function DecideNamed(s: PolicySet, d: Dest, names: set<string>): Decision {
    DecideWhere(s, d, NamedRules(s, names))
  }

  /** A rule's protocol and ports, tested by atoms and tested by the matcher. */
  lemma {:induction false} TransportAgrees(r: CompiledRule, d: Dest, f: Flow)
    requires WellFormed(r) && Describes(d, f)
    ensures TransportFits(r, f) <==> ProtoFits(r, ToLower(d.proto)) && PortFits(r, d.port)
  {
    if r.ports == [] {
      assert Ports(r) == [ANY_PORT];
      assert TransportFits(r, f) <==> TransportMatches(r.proto, ANY_PORT, f) by {
        assert ANY_PORT in Ports(r);
      }
    } else {
      forall pr | pr in r.ports
        ensures TransportMatches(r.proto, pr, f) <==> ProtoFits(r, ToLower(d.proto)) && InRange(pr, d.port)
      {
      }
    }
  }

  lemma {:induction false} RuleAgrees(s: PolicySet, i: nat, d: Dest, f: Flow, live: set<nat>, sets: SetTable)
    requires i < |s.rules| && WellFormed(s.rules[i]) && Describes(d, f)
    requires !f.dst.Is4In6() && SetsHoldFor(s, live, f.dst, sets)
    ensures KernelRule(i, s.rules[i], f, sets) <==> RuleAppliesAmong(s, i, d, live, f.inside)
  {
    TransportAgrees(s.rules[i], d, f);
  }

  /** Tests on bytes and sets decide as the policy does, whatever rules the sets put the
      destination under and whatever cgroups the socket passes for. */
  lemma {:induction false} RulesDecideAmong(s: PolicySet, i: nat, d: Dest, f: Flow, live: set<nat>, sets: SetTable)
    requires i <= |s.rules| && WellFormedSet(s) && Describes(d, f)
    requires !f.dst.Is4In6() && SetsHoldFor(s, live, f.dst, sets)
    ensures RuleDecision(s, i, f, sets) == DecideAmong(s, i, d, live, f.inside)
    decreases |s.rules| - i
  {
    if i < |s.rules| {
      assert s.rules[i] in s.rules;
      RuleAgrees(s, i, d, f, live, sets);
      RulesDecideAmong(s, i + 1, d, f, live, sets);
    }
  }

  /** Only the cgroups rules are confined to matter. */
  lemma {:induction false} SameCgroupsDecide(s: PolicySet, i: nat, d: Dest, live: set<nat>, a: set<string>,
          b: set<string>)
    requires i <= |s.rules| && forall c | c in RuleCgroups(s) :: c in a <==> c in b
    ensures DecideAmong(s, i, d, live, a) == DecideAmong(s, i, d, live, b)
    decreases |s.rules| - i
  {
    if i < |s.rules| {
      assert s.rules[i] in s.rules;
      SameCgroupsDecide(s, i + 1, d, live, a, b);
    }
  }

  /** With one name, that is Evaluate. */
  lemma {:induction false} NamedIsDecide(s: PolicySet, d: Dest)
    requires WellFormedSet(s)
    ensures DecideNamed(s, d, {d.domain}) == Decide(s, d)
  {
    LiveIsDecideFrom(s, 0, d, NamedRules(s, {d.domain}));
  }

  /** It is enough that the rules taken for those of the name are. */
  lemma {:induction false} LiveIsDecideFrom(s: PolicySet, i: nat, d: Dest, live: set<nat>)
    requires i <= |s.rules| && WellFormedSet(s)
    requires forall k: nat | k < |s.rules| && HasDomains(s.rules[k]) :: k in live <==> InDomainRules(s, d.domain, k)
    requires forall k | 0 <= k < i :: !RuleApplies(s.rules[k], d)
    ensures DecideAmong(s, i, d, live, CgroupsAbove(s, TrimSlashes(d.cgroup))) == Decide(s, d)
    decreases |s.rules| - i
  {
    if i < |s.rules| {
      assert s.rules[i] in s.rules;
      OneNameApplies(s, i, d, live);
      if RuleApplies(s.rules[i], d) {
        FirstIndexAt(s.rules, r => RuleApplies(r, d), i);
      } else {
        LiveIsDecideFrom(s, i + 1, d, live);
      }
    }
  }

  lemma {:induction false} OneNameApplies(s: PolicySet, i: nat, d: Dest, live: set<nat>)
    requires i < |s.rules| && WellFormed(s.rules[i])
    requires HasDomains(s.rules[i]) ==> (i in live <==> InDomainRules(s, d.domain, i))
    ensures RuleAppliesAmong(s, i, d, live, CgroupsAbove(s, TrimSlashes(d.cgroup))) <==> RuleApplies(s.rules[i], d)
  {
    var r, path := s.rules[i], TrimSlashes(d.cgroup);
    EmptyNameUncovered(r);
    assert r in s.rules;
    assert r.cgroup == "" || (r.cgroup in CgroupsAbove(s, path) <==> CgroupFits(r, path));
  }

  lemma {:induction false} EmptyNameUncovered(r: CompiledRule)
    requires WellFormed(r)
    ensures !Covers(r, "")
  {
  }

  /** Build is correct: for every compiled policy and every packet to an address
      that is not IPv4-mapped, if the destination sits in the sets of exactly the
      rules its names fall under, first match over the atoms gives the verdict
      and the rule the policy gives. */
  lemma {:induction false} PlanDecidesAsPolicy(s: PolicySet, d: Dest, f: Flow, names: set<string>, sets: SetTable)
    requires WellFormedSet(s) && Describes(d, f)
    requires !f.dst.Is4In6() && SetsHold(s, names, f.dst, sets)
    requires f.inside == CgroupsAbove(s, TrimSlashes(d.cgroup))
    ensures AtomDecision(PlanOf(s).atoms, f, sets, s.def) == DecideNamed(s, d, names)
    ensures names == {d.domain} ==> AtomDecision(PlanOf(s).atoms, f, sets, s.def) == Decide(s, d)
  {
    AtomsDecideAsRules(s, 0, f, sets);
    RulesDecideAmong(s, 0, d, f, NamedRules(s, names), sets);
    if names == {d.domain} {
      NamedIsDecide(s, d);
    }
  }

  // ---- why the address must not be IPv4-mapped ----

  /** A default-deny policy that allows one address. */
  function AllowOnly(a: IP): PolicySet {
    PolicySet(
      [CompiledRule("only", Allow, {}, [], [RawPrefix(a, a.BitLen())], [], "", "", false)],
      Deny)
  }

  lemma {:induction false} OnePrefixHit(a: IP, ip: Addr)
    ensures (exists p | p in [RawPrefix(a, a.BitLen())] :: p.Contains(ip)) <==> ip == a
  {
    FullPrefixContains(a, ip);
    assert RawPrefix(a, a.BitLen()) in [RawPrefix(a, a.BitLen())];
  }

  lemma {:induction false} AllowOnlyDecides(a: IP, d: Dest)
    ensures Decide(AllowOnly(a), d).verdict == if d.ip.Unmap() == a then Allow else Deny
  {
    OnePrefixHit(a, d.ip.Unmap());
    var rules := AllowOnly(a).rules;
    assert RuleApplies(rules[0], d) <==> PrefixHit(rules[0], d.ip);
    if RuleApplies(rules[0], d) {
      FirstIndexAt(rules, r => RuleApplies(r, d), 0);
    }
  }

  lemma {:induction false} AllowOnlyKernelRule(r: CompiledRule, a: IP, f: Flow, sets: SetTable)
    requires r == AllowOnly(a).rules[0]
    ensures KernelRule(0, r, f, sets) <==> f.dst == a
  {
    OnePrefixHit(a, f.dst);
    assert Ports(r) == [ANY_PORT];
    assert ANY_PORT in Ports(r) && TransportMatches(r.proto, ANY_PORT, f);
    assert !HasDomains(r);
  }

  lemma {:induction false} AllowOnlyWellFormed(a: IP)
    ensures WellFormedSet(AllowOnly(a))
  {
    FullPrefixContains(a, a);
  }

  lemma {:induction false} AllowOnlyAtoms(a: IP, f: Flow, sets: SetTable)
    ensures WellFormedSet(AllowOnly(a))
    ensures var s := AllowOnly(a);
            AtomDecision(PlanOf(s).atoms, f, sets, s.def).verdict == if f.dst == a then Allow else Deny
  {
    var s := AllowOnly(a);
    AllowOnlyWellFormed(a);
    AllowOnlyKernelRule(s.rules[0], a, f, sets);
    AtomsDecideAsRules(s, 0, f, sets);
    assert RuleDecision(s, 1, f, sets) == Decision(Deny, "");
  }

  /** The matcher unmaps an address before testing prefixes, the atoms test the
      bytes on the wire: every mapped address has a policy on which they differ.
      With PlanDecidesAsPolicy, the two agree on all policies exactly for the
      addresses that are not mapped. */
  lemma {:induction false} MappedAddressesDiffer(f: Flow, d: Dest, sets: SetTable)
    requires f.dst.Is4In6() && Describes(d, f)
    ensures var s := AllowOnly(f.dst.Unmap());
            && WellFormedSet(s)
            && Decide(s, d).verdict == Allow
            && AtomDecision(PlanOf(s).atoms, f, sets, s.def).verdict == Deny
  {
    AllowOnlyDecides(f.dst.Unmap(), d);
    AllowOnlyAtoms(f.dst.Unmap(), f, sets);
  }
}
