/** internal/nft/plan.go: a policy flattened into nftables rules ("atoms") and
    the address sets they look into. */
module Plan {
  import opened Wrappers
  import opened Bytes
  import opened Text
  import opened Netip
  import opened Seqs
  import opened Policy

  datatype Family = AnyFamily | V4 | V6

  /** `port.hi == 0` means any port, `set == ""` means no set. */
  datatype Atom = Atom(
    family: Family,
    proto: string,
    port: PortRange,
    prefix: Option<Prefix>,
    set_: string,
    cgroup: string,
    verdict: Verdict,
    rule: string)
  {
    /** Forwarded packets have no socket, so cgroup atoms stay out of that chain. */
    predicate InChain(forward: bool) {
      !(forward && cgroup != "")
    }
  }

  datatype SetDef = SetDef(name: string, family: Family, rule: nat)

  datatype Plan = Plan(sets: seq<SetDef>, atoms: seq<Atom>, defaultDeny: bool, forward: bool)

  function SetName(rule: nat, f: Family): string {
    "r" + Itoa(rule) + (if f == V6 then "_v6" else "_v4")
  }

  /** The set a resolved address of rule `rule` belongs in. */
  function SetFor(rule: nat, ip: Addr): string {
    if ip.Unmap().IPv4? then SetName(rule, V4) else SetName(rule, V6)
  }

  predicate HasDomains(r: CompiledRule) {
    r.exact != {} || r.suffixes != []
  }

  const ANY_PORT := PortRange(0, 0)

  function Ports(r: CompiledRule): seq<PortRange> {
    if r.ports == [] then [ANY_PORT] else r.ports
  }

  function FamilyOf(p: Prefix): Family {
    if p.addr.IPv4? then V4 else V6
  }

  /** An atom that tests the destination address only. */
  function Base(f: Family, prefix: Option<Prefix>, set_: string): Atom {
    Atom(f, "", ANY_PORT, prefix, set_, "", Deny, "")
  }

  /** One atom for each port range of the rule. */
  function Emitted(base: Atom, r: CompiledRule): seq<Atom> {
    seq(|Ports(r)|, k requires 0 <= k < |Ports(r)| =>
      base.(proto := r.proto, port := Ports(r)[k], verdict := r.verdict, rule := r.name, cgroup := r.cgroup))
  }

  function PrefixAtoms(r: CompiledRule, prefixes: seq<Prefix>): seq<Atom> {
    if prefixes == [] then []
    else Emitted(Base(FamilyOf(prefixes[0]), Some(prefixes[0]), ""), r) + PrefixAtoms(r, prefixes[1..])
  }

  function DomainAtoms(i: nat, r: CompiledRule): seq<Atom> {
    if HasDomains(r) then
      Emitted(Base(V4, None, SetName(i, V4)), r) + Emitted(Base(V6, None, SetName(i, V6)), r)
    else []
  }

  function RuleAtoms(i: nat, r: CompiledRule): seq<Atom> {
    if r.anyHost then Emitted(Base(AnyFamily, None, ""), r)
    else PrefixAtoms(r, r.prefixes) + DomainAtoms(i, r)
  }

  function RuleSets(i: nat, r: CompiledRule): seq<SetDef> {
    if HasDomains(r) then [SetDef(SetName(i, V4), V4, i), SetDef(SetName(i, V6), V6, i)] else []
  }

  /** The atoms, and the sets, of rules `i` onwards. */
  function AtomsFrom(s: PolicySet, i: nat): seq<Atom>
    requires i <= |s.rules|
    decreases |s.rules| - i
  {
    if i == |s.rules| then [] else RuleAtoms(i, s.rules[i]) + AtomsFrom(s, i + 1)
  }

  function SetsFrom(s: PolicySet, i: nat): seq<SetDef>
    requires i <= |s.rules|
    decreases |s.rules| - i
  {
    if i == |s.rules| then [] else RuleSets(i, s.rules[i]) + SetsFrom(s, i + 1)
  }

  function PlanOf(s: PolicySet): Plan {
    Plan(SetsFrom(s, 0), AtomsFrom(s, 0), s.def == Deny, false)
  }

  method Emit(base: Atom, r: CompiledRule, atoms: seq<Atom>) returns (out: seq<Atom>)
    ensures out == atoms + Emitted(base, r)
  {
    var ports := r.ports;
    if |ports| == 0 {
      ports := [ANY_PORT];
    }
    out := atoms;
    for k := 0 to |ports|
      invariant out == atoms + Emitted(base, r)[..k]
    {
      var a := base;
      a := a.(proto := r.proto, port := ports[k], verdict := r.verdict, rule := r.name, cgroup := r.cgroup);
      out := out + [a];
      assert Emitted(base, r)[..k + 1] == Emitted(base, r)[..k] + [a];
    }
    assert Emitted(base, r)[..|ports|] == Emitted(base, r);
  }

  method EmitPrefixes(r: CompiledRule, atoms: seq<Atom>) returns (out: seq<Atom>)
    ensures out == atoms + PrefixAtoms(r, r.prefixes)
  {
    out := atoms;
    for k := 0 to |r.prefixes|
      invariant out + PrefixAtoms(r, r.prefixes[k..]) == atoms + PrefixAtoms(r, r.prefixes)
    {
      var f := V6;
      if r.prefixes[k].addr.IPv4? {
        f := V4;
      }
      ghost var rest := PrefixAtoms(r, r.prefixes[k + 1..]);
      ghost var added := Emitted(Base(f, Some(r.prefixes[k]), ""), r);
      assert r.prefixes[k..][1..] == r.prefixes[k + 1..];
      assert out + (added + rest) == (out + added) + rest;
      out := Emit(Base(f, Some(r.prefixes[k]), ""), r, out);
    }
  }

  /** What Build appends for one rule. */
  method EmitRule(i: nat, r: CompiledRule, atoms: seq<Atom>) returns (out: seq<Atom>)
    ensures out == atoms + RuleAtoms(i, r)
  {
    if r.anyHost {
      out := Emit(Base(AnyFamily, None, ""), r, atoms);
      return;
    }
    out := EmitPrefixes(r, atoms);
    ghost var before := out;
    if r.exact != {} || |r.suffixes| > 0 {
      out := Emit(Base(V4, None, SetName(i, V4)), r, out);
      out := Emit(Base(V6, None, SetName(i, V6)), r, out);
    }
    assert out == before + DomainAtoms(i, r);
  }

  /** The set declarations Build appends for one rule. */
  method EmitSets(i: nat, r: CompiledRule, sets: seq<SetDef>) returns (out: seq<SetDef>)
    ensures out == sets + RuleSets(i, r)
  {
    out := sets;
    if r.exact != {} || |r.suffixes| > 0 {
      out := out + [SetDef(SetName(i, V4), V4, i), SetDef(SetName(i, V6), V6, i)];
    }
  }

  lemma {:induction false} AtomsStep(s: PolicySet, i: nat, atoms: seq<Atom>)
    requires i < |s.rules| && atoms + AtomsFrom(s, i) == AtomsFrom(s, 0)
    ensures (atoms + RuleAtoms(i, s.rules[i])) + AtomsFrom(s, i + 1) == AtomsFrom(s, 0)
  {
    Regroup(atoms, RuleAtoms(i, s.rules[i]), AtomsFrom(s, i + 1));
  }

  lemma {:induction false} SetsStep(s: PolicySet, i: nat, sets: seq<SetDef>)
    requires i < |s.rules| && sets + SetsFrom(s, i) == SetsFrom(s, 0)
    ensures (sets + RuleSets(i, s.rules[i])) + SetsFrom(s, i + 1) == SetsFrom(s, 0)
  {
    Regroup(sets, RuleSets(i, s.rules[i]), SetsFrom(s, i + 1));
  }

  method Build(s: PolicySet) returns (p: Plan)
    ensures p == PlanOf(s)
  {
    var sets: seq<SetDef>, atoms: seq<Atom> := [], [];
    for i := 0 to |s.rules|
      invariant atoms + AtomsFrom(s, i) == AtomsFrom(s, 0)
      invariant sets + SetsFrom(s, i) == SetsFrom(s, 0)
    {
      AtomsStep(s, i, atoms);
      SetsStep(s, i, sets);
      sets := EmitSets(i, s.rules[i], sets);
      atoms := EmitRule(i, s.rules[i], atoms);
    }
    assert atoms + [] == atoms && sets + [] == sets;
    return Plan(sets, atoms, s.def == Deny, false);
  }

  // ---- names in the kernel log ----

  const MAX_PREFIX := 120

  const DEFAULT_DENY_PREFIX := "egresswall default-deny: "

  const DENY_PREFIX := "egresswall deny["

  /** The text a refusal is logged with, cut off when too long. */
  function LogPrefix(rule: string): string {
    var p := if rule == "" then DEFAULT_DENY_PREFIX else DENY_PREFIX + rule + "]: ";
    if |p| > MAX_PREFIX then p[..MAX_PREFIX - 3] + "..: " else p
  }
}
