/** What the policy compiler and the matcher promise. */
module PolicyLaws {
  import opened Wrappers
  import opened Bytes
  import opened Text
  import opened Netip
  import opened Seqs
  import opened Policy

  // ---- the shape of a compiled rule ----

  predicate GoodCgroup(cgroup: string) {
    cgroup == "" || (TrimSlashes(cgroup) == cgroup && forall part | part in Split(cgroup, '/') :: !BadPathPart(part))
  }

  /** What later stages rely on. In particular no port range is the zero range,
      which nft.Build uses to mean "any port". */
  predicate WellFormed(r: CompiledRule) {
    r.name != ""
    && (forall pr | pr in r.ports :: 1 <= pr.lo <= pr.hi)
    && (r.proto == "" || r.proto == "tcp" || r.proto == "udp")
    && (forall p | p in r.prefixes :: Masked(p) == p)
    && "" !in r.exact
    && (forall suffix | suffix in r.suffixes :: suffix != "" && suffix[0] == '.')
    && GoodCgroup(r.cgroup)
    && (r.anyHost <==> r.exact == {} && r.suffixes == [] && r.prefixes == [])
  }

  predicate WellFormedSet(s: PolicySet) {
    forall r | r in s.rules :: WellFormed(r)
  }

  lemma {:induction false} SuffixesShape(patterns: seq<Pattern>)
    requires forall p | p in patterns :: p.Suffix? ==> p.suffix != "" && p.suffix[0] == '.'
    ensures forall suffix | suffix in Suffixes(patterns) :: suffix != "" && suffix[0] == '.'
  {
    if patterns != [] {
      SuffixesShape(patterns[..|patterns| - 1]);
      assert patterns[|patterns| - 1] in patterns;
    }
  }

  lemma {:induction false} PatternShape(raw: string)
    requires ClassifyDomain(raw).Ok?
    ensures var p := ClassifyDomain(raw).value;
            if p.Suffix? then p.suffix != "" && p.suffix[0] == '.' else p.name != ""
  {
  }

  lemma {:induction false} PortShape(s: string)
    requires ParsePortRange(s).Ok?
    ensures 1 <= ParsePortRange(s).value.lo <= ParsePortRange(s).value.hi
  {
  }

  lemma {:induction false} CgroupShape(cgroup: string)
    requires CheckCgroup(cgroup).Ok?
    ensures GoodCgroup(CheckCgroup(cgroup).value)
  {
  }

  lemma {:induction false} PatternsShape(domains: seq<string>)
    requires MapAll(ClassifyDomain, domains).Ok?
    ensures var patterns := MapAll(ClassifyDomain, domains).value;
            && "" !in Exacts(patterns)
            && (forall suffix | suffix in Suffixes(patterns) :: suffix != "" && suffix[0] == '.')
  {
    var patterns := MapAll(ClassifyDomain, domains).value;
    forall p | p in patterns
      ensures if p.Suffix? then p.suffix != "" && p.suffix[0] == '.' else p.name != ""
    {
      var k :| 0 <= k < |patterns| && patterns[k] == p;
      assert ClassifyDomain(domains[k]) == Ok(p);
      PatternShape(domains[k]);
    }
    SuffixesShape(patterns);
  }

  lemma {:induction false} PortsShape(ports: seq<string>)
    requires MapAll(ParsePortRange, ports).Ok?
    ensures forall pr | pr in MapAll(ParsePortRange, ports).value :: 1 <= pr.lo <= pr.hi
  {
    var out := MapAll(ParsePortRange, ports).value;
    forall pr | pr in out ensures 1 <= pr.lo <= pr.hi {
      var k :| 0 <= k < |out| && out[k] == pr;
      assert ParsePortRange(ports[k]) == Ok(pr);
      PortShape(ports[k]);
    }
  }

  lemma {:induction false} CidrsShape(lib: Library, cidrs: seq<string>)
    requires MapAll(s => ParseCidr(lib, s), cidrs).Ok?
    ensures forall p | p in MapAll(s => ParseCidr(lib, s), cidrs).value :: Masked(p) == p
  {
    var parse := s => ParseCidr(lib, s);
    var out := MapAll(parse, cidrs).value;
    forall p | p in out ensures Masked(p) == p {
      var k :| 0 <= k < |out| && out[k] == p;
      assert parse(cidrs[k]) == Ok(p);
      ParsedCidrIsMasked(lib, cidrs[k]);
    }
  }

  lemma {:induction false} RuleWellFormed(lib: Library, r: Rule, v: Verdict, pos: string)
    requires pos != "" && RuleOf(lib, r, v, pos).Ok?
    ensures WellFormed(RuleOf(lib, r, v, pos).value) && RuleOf(lib, r, v, pos).value.verdict == v
  {
    PatternsShape(r.domains);
    CidrsShape(lib, r.cidrs);
    PortsShape(r.ports);
    CgroupShape(r.cgroup);
  }

  lemma {:induction false} ParsedCidrIsMasked(lib: Library, cidr: string)
    requires ParseCidr(lib, cidr).Ok?
    ensures Masked(ParseCidr(lib, cidr).value) == ParseCidr(lib, cidr).value
  {
    match lib.parsePrefix(cidr)
    case Some(p) => MaskedTwice(p);
    case None =>
      var a := lib.parseAddr(cidr).value;
      MaskedTwice(RawPrefix(a, a.BitLen()));
  }

  lemma {:induction false} OksErrs<T, E>(rs: seq<Result<T, E>>)
    ensures Errs(rs) == [] <==> forall i | 0 <= i < |rs| :: rs[i].Ok?
    ensures Errs(rs) == [] ==> |Oks(rs)| == |rs| && forall i | 0 <= i < |rs| :: rs[i] == Ok(Oks(rs)[i])
  {
    if rs != [] {
      var n := |rs| - 1;
      OksErrs(rs[..n]);
      assert forall i | 0 <= i < n :: rs[..n][i] == rs[i];
    }
  }

  predicate KnownHeader(p: PolicyFile) {
    p.version == 1 && (p.default == "deny" || p.default == "allow")
  }

  /** Compile, in terms of what became of its two lists. */
  lemma {:induction false} SetOfLists(lib: Library, p: PolicyFile)
    ensures var deny, allow := CompiledList(lib, p.deny, Deny, "deny"), CompiledList(lib, p.allow, Allow, "allow");
            && (SetOf(lib, p).Ok? <==> KnownHeader(p) && Errs(deny) == [] && Errs(allow) == [])
            && (SetOf(lib, p).Ok? ==> SetOf(lib, p).value.rules == Oks(deny) + Oks(allow))
  {
    var deny, allow := CompiledList(lib, p.deny, Deny, "deny"), CompiledList(lib, p.allow, Allow, "allow");
    assert Errs(deny) + Errs(allow) == [] <==> Errs(deny) == [] && Errs(allow) == [];
  }

  lemma {:induction false} ListIsRules(lib: Library, rs: seq<Rule>, v: Verdict, list: string)
    ensures forall i | 0 <= i < |rs| :: CompiledList(lib, rs, v, list)[i] == RuleOf(lib, rs[i], v, Position(list, i))
  {
  }

  /** One list: no errors exactly when every rule is good, and then rule i is at i. */
  lemma {:induction false} ListAccepts(lib: Library, rs: seq<Rule>, v: Verdict, list: string)
    ensures var all := CompiledList(lib, rs, v, list);
            && (Errs(all) == [] <==> forall i | 0 <= i < |rs| :: RuleOf(lib, rs[i], v, Position(list, i)).Ok?)
            && (Errs(all) == [] ==>
                  && |Oks(all)| == |rs|
                  && forall i | 0 <= i < |rs| :: RuleOf(lib, rs[i], v, Position(list, i)) == Ok(Oks(all)[i]))
  {
    var all := CompiledList(lib, rs, v, list);
    OksErrs(all);
    forall i | 0 <= i < |rs| ensures all[i] == RuleOf(lib, rs[i], v, Position(list, i)) {
      ListIsRules(lib, rs, v, list);
    }
  }

  /** Compile succeeds exactly when version and default are known and every rule
      compiles, and then rule i is the i-th rule of the file, deny list first. */
  lemma {:induction false} CompileAccepts(lib: Library, p: PolicyFile)
    ensures SetOf(lib, p).Ok? <==>
              && p.version == 1 && (p.default == "deny" || p.default == "allow")
              && (forall i | 0 <= i < |p.deny| :: RuleOf(lib, p.deny[i], Deny, Position("deny", i)).Ok?)
              && (forall i | 0 <= i < |p.allow| :: RuleOf(lib, p.allow[i], Allow, Position("allow", i)).Ok?)
    ensures SetOf(lib, p).Ok? ==>
              var rules := SetOf(lib, p).value.rules;
              && |rules| == |p.deny| + |p.allow|
              && (forall i | 0 <= i < |p.deny| ::
                    RuleOf(lib, p.deny[i], Deny, Position("deny", i)) == Ok(rules[i]))
              && (forall i | 0 <= i < |p.allow| ::
                    RuleOf(lib, p.allow[i], Allow, Position("allow", i)) == Ok(rules[|p.deny| + i]))
  {
    SetOfLists(lib, p);
    ListAccepts(lib, p.deny, Deny, "deny");
    ListAccepts(lib, p.allow, Allow, "allow");
  }

  /** Every rule of a compiled set is well formed; denies come first. */
  lemma {:induction false} CompiledSetShape(lib: Library, p: PolicyFile)
    requires SetOf(lib, p).Ok?
    ensures var s := SetOf(lib, p).value;
            && WellFormedSet(s)
            && |s.rules| == |p.deny| + |p.allow|
            && (forall i | 0 <= i < |s.rules| :: s.rules[i].verdict == if i < |p.deny| then Deny else Allow)
  {
    CompileAccepts(lib, p);
    var s := SetOf(lib, p).value;
    forall i | 0 <= i < |s.rules|
      ensures WellFormed(s.rules[i]) && s.rules[i].verdict == if i < |p.deny| then Deny else Allow
    {
      if i < |p.deny| {
        RuleWellFormed(lib, p.deny[i], Deny, Position("deny", i));
      } else {
        RuleWellFormed(lib, p.allow[i - |p.deny|], Allow, Position("allow", i - |p.deny|));
      }
    }
  }

  /** Deny wins, then allow, then the default: a destination is allowed exactly
      when no deny rule applies and an allow rule or the default lets it through. */
  lemma {:induction false} DenyWins(lib: Library, p: PolicyFile, d: Dest)
    requires SetOf(lib, p).Ok?
    ensures var s := SetOf(lib, p).value;
            |p.deny| <= |s.rules| &&
            (Decide(s, d).verdict == Allow <==>
              && (forall i | 0 <= i < |p.deny| :: !RuleApplies(s.rules[i], d))
              && (p.default == "allow" || exists i :: |p.deny| <= i < |s.rules| && RuleApplies(s.rules[i], d)))
  {
    CompiledSetShape(lib, p);
  }

  // ---- normalising names ----

  /** A name whose normal form still ends in something normalising strips. */
  predicate StripsAgain(d: string) {
    var t := ToLower(TrimSpace(d));
    |t| >= 2 && t[|t| - 1] == '.' && (t[|t| - 2] == '.' || IsSpace(t[|t| - 2]))
  }

  lemma {:induction false} TrimSpaceFixed(u: string)
    requires u != "" && !IsSpace(u[0])
    ensures TrimSpace(u) == u <==> !IsSpace(u[|u| - 1])
    ensures IsSpace(u[|u| - 1]) ==> |TrimSpace(u)| < |u|
  {
    assert TrimLeft(u) == u;
  }

  lemma {:induction false} EndsWith(s: string, c: char)
    ensures HasSuffix(s, [c]) <==> s != "" && s[|s| - 1] == c
  {
    if s != "" {
      assert s[|s| - 1..] == [s[|s| - 1]];
    }
  }

  /** What is left after lowercasing and trimming: lower case throughout, and
      no space in front. */
  lemma {:induction false} NormalShape(d: string)
    ensures var t := ToLower(TrimSpace(d));
            && ToLower(t) == t
            && (t != "" ==> !IsSpace(t[0]) && !IsSpace(t[|t| - 1]))
  {
    var w := TrimSpace(d);
    ToLowerIdempotent(w);
    forall i | 0 <= i < |w| { LowerKeepsSpace(w[i]); }
  }

  /** NormalizeDomain strips one trailing dot and only then stops, so it is
      idempotent except on names ending in two dots or in space-dot. */
  lemma {:induction false} NormalizeIdempotentIff(d: string)
    ensures NormalizeDomain(NormalizeDomain(d)) == NormalizeDomain(d) <==> !StripsAgain(d)
  {
    var t := ToLower(TrimSpace(d));
    var u := NormalizeDomain(d);
    NormalShape(d);
    EndsWith(t, '.');
    assert u <= t;
    if u != "" {
      NormalizeFixedIff(u);
    }
  }

  lemma {:induction false} NormalizeFixedIff(u: string)
    requires u != "" && !IsSpace(u[0]) && ToLower(u) == u
    ensures NormalizeDomain(u) == u <==> !IsSpace(u[|u| - 1]) && u[|u| - 1] != '.'
  {
    TrimSpaceFixed(u);
    EndsWith(ToLower(TrimSpace(u)), '.');
    if !IsSpace(u[|u| - 1]) {
      assert ToLower(TrimSpace(u)) == u;
    }
  }

  /** The name "a.." is one that keeps changing. */
  lemma {:induction false} NormalizeNotIdempotent()
    ensures NormalizeDomain("a..") == "a." && NormalizeDomain("a.") == "a"
  {
    assert TrimSpace("a..") == "a.." && TrimSpace("a.") == "a.";
    assert ToLower("a..") == "a.." && ToLower("a.") == "a.";
    assert "a.."[2..] == "." && "a.."[..2] == "a.";
    assert "a."[1..] == "." && "a."[..1] == "a";
  }

  // ---- cgroups ----

  /** CgroupLevel: how deep a path is. */
  function CgroupLevel(path: string): nat {
    Count(path, '/') + 1
  }

  /** The ancestor of a path at a level, as the kernel walks the hierarchy. */
  function Ancestor(path: string, level: nat): string
    requires level <= |Split(path, '/')|
  {
    Join(Split(path, '/')[..level], "/")
  }

  /** The kernel's level-and-ancestor test. */
  predicate KernelWithin(child: string, parent: string) {
    CgroupLevel(parent) <= |Split(child, '/')| && Ancestor(child, CgroupLevel(parent)) == parent
  }

  /** Being in or below a cgroup, asked of the path text or of the hierarchy. */
  lemma {:induction false} CgroupWithinIsAncestry(child: string, parent: string)
    ensures CgroupWithin(child, parent) <==> KernelWithin(child, parent)
  {
    var cs, ps := Split(child, '/'), Split(parent, '/');
    SplitCount(parent, '/');
    JoinSplit(parent, '/');
    JoinSplit(child, '/');
    if CgroupWithin(child, parent) {
      if child == parent {
        assert cs[..|ps|] == ps;
      } else {
        var rest := child[|parent| + 1..];
        assert child == parent + ['/'] + rest;
        SplitConcat(parent, rest, '/');
        assert cs[..|ps|] == ps;
      }
    }
    if KernelWithin(child, parent) {
      var n := CgroupLevel(parent);
      if n == |cs| {
        assert cs[..n] == cs;
      } else {
        assert cs == cs[..n] + cs[n..];
        JoinConcat(cs[..n], cs[n..], "/");
        assert child == parent + "/" + Join(cs[n..], "/");
      }
    }
  }

  /** No rule confined to a cgroup applies to a socket nobody could place. */
  lemma {:induction false} NoCgroupNoMatch(r: CompiledRule, d: Dest)
    requires WellFormed(r) && r.cgroup != "" && TrimSlashes(d.cgroup) == ""
    ensures !RuleApplies(r, d)
  {
  }
}
