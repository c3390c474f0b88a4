/** The address sets of a plan: their names, their declaration, and why loading
    a plan that Build made only fails on the cgroup tree. */
module SetNames {
  import opened Wrappers
  import opened Bytes
  import opened Text
  import opened Netip
  import opened Policy
  import opened PolicyLaws
  import opened Plan
  import opened PlanCorrect
  import opened Kernel
  import opened Codegen
  import opened Apply

  /** A set name tells the rule and the family it was made for. */
  lemma {:induction false} SetNameInjective(i: nat, f: Family, j: nat, g: Family)
    requires f != AnyFamily && g != AnyFamily && SetName(i, f) == SetName(j, g)
    ensures i == j && f == g
  {
    var a, b := SetName(i, f), SetName(j, g);
    assert a[|a| - 1] == if f == V6 then '6' else '4';
    assert b[|b| - 1] == if g == V6 then '6' else '4';
    assert a[1..|a| - 3] == Itoa(i) && b[1..|b| - 3] == Itoa(j);
    ItoaInjective(i, j);
  }

  lemma {:induction false} AnonymousDistinct(k: nat, i: nat, f: Family)
    ensures AnonymousName(k) != SetName(i, f)
  {
    assert AnonymousName(k)[0] == '_' && SetName(i, f)[0] == 'r';
  }

  /** `name` is a set rule `i` onwards declares, for family `f`. */
  predicate Declares(s: PolicySet, i: nat, name: string, f: Family) {
    f != AnyFamily && exists k: nat | i <= k < |s.rules| :: HasDomains(s.rules[k]) && name == SetName(k, f)
  }

  lemma {:induction false} SetsOfConcat(a: seq<SetDef>, b: seq<SetDef>)
    ensures SetsOf(a + b) == SetsOf(a) + SetsOf(b)
  {
    if b == [] {
      assert a + b == a;
    } else {
      var n := |b| - 1;
      SetsOfConcat(a, b[..n]);
      assert (a + b)[..|a + b| - 1] == a + b[..n];
    }
  }

  lemma {:induction false} RuleSetsDeclared(i: nat, r: CompiledRule)
    ensures SetsOf(RuleSets(i, r)) ==
              if HasDomains(r) then map[SetName(i, V4) := V4][SetName(i, V6) := V6] else map[]
  {
    if HasDomains(r) {
      var d4, d6 := SetDef(SetName(i, V4), V4, i), SetDef(SetName(i, V6), V6, i);
      assert [d4, d6][..1] == [d4] && [d4][..0] == [];
      assert SetsOf([d4]) == map[SetName(i, V4) := V4];
    }
  }

  /** A plan declares exactly two sets per rule with domains, one per family. */
  lemma {:induction false} DeclaredExactly(s: PolicySet, i: nat, name: string, f: Family)
    requires i <= |s.rules|
    ensures name in SetsOf(SetsFrom(s, i)) && SetsOf(SetsFrom(s, i))[name] == f <==> Declares(s, i, name, f)
    decreases |s.rules| - i
  {
    if i < |s.rules| {
      var r := s.rules[i];
      DeclaredExactly(s, i + 1, name, f);
      RuleSetsDeclared(i, r);
      SetsOfConcat(RuleSets(i, r), SetsFrom(s, i + 1));
      if HasDomains(r) && f != AnyFamily && name == SetName(i, f) {
        var later := SetsOf(SetsFrom(s, i + 1));
        if name in later {
          var g := later[name];
          DeclaredExactly(s, i + 1, name, g);
          var k: nat :| i + 1 <= k < |s.rules| && name == SetName(k, g);
          SetNameInjective(i, f, k, g);
        }
        if SetName(i, V4) == SetName(i, V6) { SetNameInjective(i, V4, i, V6); }
      }
      if Declares(s, i, name, f) && !Declares(s, i + 1, name, f) {
        assert HasDomains(r) && name == SetName(i, f);
      }
    }
  }

  // ---- loading what Build made ----

  lemma {:induction false} RuleAtomSets(s: PolicySet, i: nat, a: Atom)
    requires i < |s.rules| && a in RuleAtoms(i, s.rules[i]) && a.set_ != ""
    ensures a.set_ in SetsOf(SetsFrom(s, i))
  {
    var r := s.rules[i];
    if !r.anyHost && a in PrefixAtoms(r, r.prefixes) {
      PrefixAtomsSetless(r, r.prefixes);
    }
    assert HasDomains(r) && (a.set_ == SetName(i, V4) || a.set_ == SetName(i, V6));
    DeclaredExactly(s, i, a.set_, if a.set_ == SetName(i, V4) then V4 else V6);
  }

  lemma {:induction false} PrefixAtomsSetless(r: CompiledRule, prefixes: seq<Prefix>)
    ensures forall a | a in PrefixAtoms(r, prefixes) :: a.set_ == ""
  {
    if prefixes != [] {
      PrefixAtomsSetless(r, prefixes[1..]);
    }
  }

  lemma {:induction false} PlanSetsKnown(s: PolicySet, i: nat)
    requires i <= |s.rules|
    ensures forall a | a in AtomsFrom(s, i) :: a.set_ != "" ==> a.set_ in SetsOf(SetsFrom(s, i))
    decreases |s.rules| - i
  {
    if i < |s.rules| {
      PlanSetsKnown(s, i + 1);
      SetsOfConcat(RuleSets(i, s.rules[i]), SetsFrom(s, i + 1));
      forall a | a in AtomsFrom(s, i) && a.set_ != "" ensures a.set_ in SetsOf(SetsFrom(s, i)) {
        if a in RuleAtoms(i, s.rules[i]) { RuleAtomSets(s, i, a); }
      }
    }
  }

  lemma {:induction false} AtomsBodyLoads(atoms: seq<Atom>, forward: bool, fs: CgroupFs, known: set<string>,
          anon: nat)
    requires forall a | a in atoms :: a.set_ != "" ==> a.set_ in known
    ensures AtomsBody(atoms, forward, fs, known, anon).Ok? <==>
              forall a | a in atoms && a.InChain(forward) :: !StatOf(fs, a.cgroup).Unreadable?
  {
    if atoms != [] {
      var one := AtomBody(atoms[0], forward, fs, known, anon);
      assert atoms[0] in atoms;
      assert forall a :: a in atoms <==> a == atoms[0] || a in atoms[1..];
      if one.Ok? {
        AtomsBodyLoads(atoms[1..], forward, fs, known, one.value.anon);
      }
    }
  }

  /** A plan that Build made loads unless a cgroup it names cannot be looked at;
      a cgroup that does not exist is no obstacle. */
  lemma {:induction false} PlanLoadsIff(s: PolicySet, p: Plan, fs: CgroupFs)
    requires p.sets == PlanOf(s).sets && p.atoms == PlanOf(s).atoms
    ensures TableOf(p, fs).Ok? <==> forall a | a in p.atoms :: !StatOf(fs, a.cgroup).Unreadable?
  {
    var known := SetsOf(p.sets).Keys;
    PlanSetsKnown(s, 0);
    AtomsBodyLoads(p.atoms, false, fs, known, 0);
    var out := ChainOf(p, false, fs, known, 0);
    if out.Ok? {
      AtomsBodyLoads(p.atoms, true, fs, known, out.value.anon);
    }
  }
}
