/** internal/policy/policy.go: the policy file, its compiler, and the matcher
    that answers for one destination. */
module Policy {
  import opened Wrappers
  import opened Bytes
  import opened Text
  import opened Netip
  import opened Seqs

  // ---- the file, and what it compiles to ----

  datatype Verdict = Deny | Allow

  datatype Rule = Rule(
    name: string,
    domains: seq<string>,
    cidrs: seq<string>,
    ports: seq<string>,
    proto: string,
    cgroup: string)

  datatype PolicyFile = PolicyFile(version: int, default: string, allow: seq<Rule>, deny: seq<Rule>)

  datatype PortRange = PortRange(lo: uint16, hi: uint16)

  datatype CompiledRule = CompiledRule(
    name: string,
    verdict: Verdict,
    exact: set<string>,
    suffixes: seq<string>,
    prefixes: seq<Prefix>,
    ports: seq<PortRange>,
    proto: string,
    cgroup: string,
    anyHost: bool)

  datatype PolicySet = PolicySet(rules: seq<CompiledRule>, def: Verdict)

  datatype Dest = Dest(domain: string, ip: Addr, port: uint16, proto: string, cgroup: string)

  /** `rule` is "" when the default decided. */
  datatype Decision = Decision(verdict: Verdict, rule: string)

  datatype Fault =
    | NotADomain(domain: string)
    | BadWildcard(domain: string)
    | BadCidr(cidr: string)
    | BadPort(text: string)
    | BadPortRange(text: string)
    | BadProto(proto: string)
    | EmptyCgroup
    | BadCgroup(path: string)

  datatype RuleError = RuleError(pos: string, fault: Fault)

  datatype CompileError =
    | BadVersion(version: int)
    | BadDefault(default: string)
    | BadRules(errors: seq<RuleError>)

  // ---- the pieces of a rule ----

  function NormalizeDomain(d: string): string {
    TrimSuffix(ToLower(TrimSpace(d)), ".")
  }

  datatype Pattern = Exact(name: string) | Suffix(suffix: string)

  function ClassifyDomain(raw: string): Result<Pattern, Fault> {
    var d := NormalizeDomain(raw);
    if d == "" || d == "*" then Err(NotADomain(d))
    else if "*." <= d then
      if '*' in d[2..] then Err(BadWildcard(d)) else Ok(Suffix(d[1..]))
    else if '*' in d then Err(BadWildcard(d))
    else Ok(Exact(d))
  }

  function ParseCidr(lib: Library, cidr: string): Result<Prefix, Fault> {
    match lib.parsePrefix(cidr)
    case Some(p) => Ok(Masked(p))
    case None =>
      match lib.parseAddr(cidr)
      case Some(a) => Ok(Masked(RawPrefix(a, a.BitLen())))
      case None => Err(BadCidr(cidr))
  }

  function ParsePortRange(s: string): Result<PortRange, Fault> {
    var halves := Cut(TrimSpace(s), "-");
    match ParseUint16(TrimSpace(halves.before))
    case None => Err(BadPort(s))
    case Some(a) =>
      if a == 0 then Err(BadPort(s))
      else if !halves.found then Ok(PortRange(a, a))
      else
        match ParseUint16(TrimSpace(halves.after))
        case None => Err(BadPortRange(s))
        case Some(b) => if b == 0 || b < a then Err(BadPortRange(s)) else Ok(PortRange(a, b))
  }

  function CheckProto(proto: string): Result<string, Fault> {
    var p := ToLower(proto);
    if p == "" || p == "tcp" || p == "udp" then Ok(p) else Err(BadProto(proto))
  }

  predicate BadPathPart(part: string) {
    part == "" || part == "." || part == ".."
  }

  function NormalizeCgroup(path: string): Result<string, Fault> {
    var p := TrimSlashes(TrimSpace(path));
    if p == "" then Err(EmptyCgroup)
    else if exists part | part in Split(p, '/') :: BadPathPart(part) then Err(BadCgroup(p))
    else Ok(p)
  }

  function CheckCgroup(cgroup: string): Result<string, Fault> {
    if cgroup == "" then Ok("") else NormalizeCgroup(cgroup)
  }

  // ---- compiling ----

  function Exacts(patterns: seq<Pattern>): set<string> {
    set p | p in patterns && p.Exact? :: p.name
  }

  function Suffixes(patterns: seq<Pattern>): seq<string> {
    if patterns == [] then []
    else
      var n := |patterns| - 1;
      Suffixes(patterns[..n]) + (if patterns[n].Suffix? then [patterns[n].suffix] else [])
  }

  function RuleName(name: string, pos: string): string {
    if name == "" then pos else name
  }

  /** What compileRule computes; the first fault wins, in the order domains,
      cidrs, ports, protocol, cgroup. */
  function RuleOf(lib: Library, r: Rule, v: Verdict, pos: string): Result<CompiledRule, RuleError> {
    match MapAll(ClassifyDomain, r.domains)
    case Err(f) => Err(RuleError(pos, f))
    case Ok(patterns) =>
      match MapAll(s => ParseCidr(lib, s), r.cidrs)
      case Err(f) => Err(RuleError(pos, f))
      case Ok(prefixes) =>
        match MapAll(ParsePortRange, r.ports)
        case Err(f) => Err(RuleError(pos, f))
        case Ok(ports) =>
          match CheckProto(r.proto)
          case Err(f) => Err(RuleError(pos, f))
          case Ok(proto) =>
            match CheckCgroup(r.cgroup)
            case Err(f) => Err(RuleError(pos, f))
            case Ok(cgroup) =>
              Ok(CompiledRule(
                RuleName(r.name, pos), v, Exacts(patterns), Suffixes(patterns), prefixes, ports, proto, cgroup,
                Exacts(patterns) == {} && Suffixes(patterns) == [] && prefixes == []))
  }

  function Position(list: string, i: nat): string {
    list + "[" + Itoa(i) + "]"
  }

  function CompiledList(lib: Library, rs: seq<Rule>, v: Verdict, list: string): seq<Result<CompiledRule, RuleError>> {
    seq(|rs|, i requires 0 <= i < |rs| => RuleOf(lib, rs[i], v, Position(list, i)))
  }

  function Oks<T, E>(rs: seq<Result<T, E>>): seq<T> {
    if rs == [] then []
    else Oks(rs[..|rs| - 1]) + (if rs[|rs| - 1].Ok? then [rs[|rs| - 1].value] else [])
  }

  function Errs<T, E>(rs: seq<Result<T, E>>): seq<E> {
    if rs == [] then []
    else Errs(rs[..|rs| - 1]) + (if rs[|rs| - 1].Err? then [rs[|rs| - 1].error] else [])
  }

  /** What Compile computes: every rule's error is reported, not just the first. */
  function SetOf(lib: Library, p: PolicyFile): Result<PolicySet, CompileError> {
    var deny := CompiledList(lib, p.deny, Deny, "deny");
    var allow := CompiledList(lib, p.allow, Allow, "allow");
    if p.version != 1 then Err(BadVersion(p.version))
    else if p.default != "deny" && p.default != "allow" then Err(BadDefault(p.default))
    else if Errs(deny) + Errs(allow) != [] then Err(BadRules(Errs(deny) + Errs(allow)))
    else Ok(PolicySet(Oks(deny) + Oks(allow), if p.default == "deny" then Deny else Allow))
  }

  method CompileDomains(domains: seq<string>)
    returns (exact: set<string>, suffixes: seq<string>, fault: Option<Fault>)
    ensures match MapAll(ClassifyDomain, domains)
      case Err(f) => fault == Some(f)
      case Ok(patterns) => fault == None && exact == Exacts(patterns) && suffixes == Suffixes(patterns)
  {
    exact, suffixes := {}, [];
    ghost var patterns: seq<Pattern> := [];
    for i := 0 to |domains|
      invariant |patterns| == i && forall k | 0 <= k < i :: ClassifyDomain(domains[k]) == Ok(patterns[k])
      invariant exact == Exacts(patterns) && suffixes == Suffixes(patterns)
    {
      var p := ClassifyDomain(domains[i]);
      if p.Err? {
        MapAllErr(ClassifyDomain, domains, i);
        assert MapAll(ClassifyDomain, domains) == Err(p.error);
        return exact, suffixes, Some(p.error);
      }
      PatternsSnoc(patterns, p.value);
      match p.value {
        case Exact(name) => exact := exact + {name};
        case Suffix(suffix) => suffixes := suffixes + [suffix];
      }
      patterns := patterns + [p.value];
    }
    MapAllOk(ClassifyDomain, domains, patterns);
    fault := None;
  }

  lemma {:induction false} PatternsSnoc(patterns: seq<Pattern>, p: Pattern)
    ensures Exacts(patterns + [p]) == Exacts(patterns) + (if p.Exact? then {p.name} else {})
    ensures Suffixes(patterns + [p]) == Suffixes(patterns) + (if p.Suffix? then [p.suffix] else [])
  {
    var all := patterns + [p];
    assert all[..|all| - 1] == patterns;
    if p.Exact? {
      assert p in all;
    }
    assert forall q :: q in all <==> q in patterns || q == p;
  }

  /** The loop of compileRule over cidrs, and the one over ports. */
  method CompileEach<A, B>(f: A -> Result<B, Fault>, xs: seq<A>) returns (r: Result<seq<B>, Fault>)
    ensures r == MapAll(f, xs)
  {
    var ys: seq<B> := [];
    for i := 0 to |xs|
      invariant |ys| == i && forall k | 0 <= k < i :: f(xs[k]) == Ok(ys[k])
    {
      var y := f(xs[i]);
      if y.Err? {
        MapAllErr(f, xs, i);
        return Err(y.error);
      }
      ys := ys + [y.value];
    }
    MapAllOk(f, xs, ys);
    return Ok(ys);
  }

  method CompileRule(lib: Library, r: Rule, v: Verdict, pos: string) returns (c: Result<CompiledRule, RuleError>)
    ensures c == RuleOf(lib, r, v, pos)
  {
    var exact, suffixes, fault := CompileDomains(r.domains);
    if fault.Some? {
      return Err(RuleError(pos, fault.value));
    }
    var prefixes := CompileEach(s => ParseCidr(lib, s), r.cidrs);
    if prefixes.Err? {
      return Err(RuleError(pos, prefixes.error));
    }
    var ports := CompileEach(ParsePortRange, r.ports);
    if ports.Err? {
      return Err(RuleError(pos, ports.error));
    }
    var proto := CheckProto(r.proto);
    if proto.Err? {
      return Err(RuleError(pos, proto.error));
    }
    var cgroup := CheckCgroup(r.cgroup);
    if cgroup.Err? {
      return Err(RuleError(pos, cgroup.error));
    }
    var anyHost := exact == {} && suffixes == [] && prefixes.value == [];
    return Ok(CompiledRule(
      RuleName(r.name, pos), v, exact, suffixes, prefixes.value, ports.value, proto.value, cgroup.value, anyHost));
  }

  lemma {:induction false} OneMoreResult<T, E>(all: seq<Result<T, E>>, i: nat)
    requires i < |all|
    ensures Oks(all[..i + 1]) == Oks(all[..i]) + (if all[i].Ok? then [all[i].value] else [])
    ensures Errs(all[..i + 1]) == Errs(all[..i]) + (if all[i].Ok? then [] else [all[i].error])
  {
    assert all[..i + 1][..i] == all[..i];
  }

  /** One of Compile's two loops: the rules that compiled and the errors of
      those that did not. */
  method CompileRules(lib: Library, rs: seq<Rule>, v: Verdict, list: string)
    returns (rules: seq<CompiledRule>, errors: seq<RuleError>)
    ensures rules == Oks(CompiledList(lib, rs, v, list))
    ensures errors == Errs(CompiledList(lib, rs, v, list))
  {
    ghost var all := CompiledList(lib, rs, v, list);
    rules, errors := [], [];
    for i := 0 to |rs|
      invariant rules == Oks(all[..i]) && errors == Errs(all[..i])
    {
      var c := CompileRule(lib, rs[i], v, Position(list, i));
      OneMoreResult(all, i);
      match c {
        case Err(e) => errors := errors + [e];
        case Ok(rule) => rules := rules + [rule];
      }
    }
    assert all[..|rs|] == all;
  }

  method Compile(lib: Library, p: PolicyFile) returns (s: Result<PolicySet, CompileError>)
    ensures s == SetOf(lib, p)
  {
    if p.version != 1 {
      return Err(BadVersion(p.version));
    }
    var def;
    if p.default == "deny" {
      def := Deny;
    } else if p.default == "allow" {
      def := Allow;
    } else {
      return Err(BadDefault(p.default));
    }
    var denyRules, denyErrors := CompileRules(lib, p.deny, Deny, "deny");
    var allowRules, allowErrors := CompileRules(lib, p.allow, Allow, "allow");
    if denyErrors + allowErrors != [] {
      return Err(BadRules(denyErrors + allowErrors));
    }
    return Ok(PolicySet(denyRules + allowRules, def));
  }

  // ---- matching ----

  predicate CgroupWithin(child: string, parent: string) {
    child == parent || parent + "/" <= child
  }

  predicate ProtoFits(r: CompiledRule, proto: string) {
    r.proto == "" || proto == "" || r.proto == proto
  }

  predicate InRange(pr: PortRange, port: uint16) {
    pr.lo <= port <= pr.hi
  }

  predicate PortFits(r: CompiledRule, port: uint16) {
    r.ports == [] || exists pr | pr in r.ports :: InRange(pr, port)
  }

  predicate Covers(r: CompiledRule, name: string) {
    name in r.exact || exists suffix | suffix in r.suffixes :: HasSuffix(name, suffix)
  }

  predicate PrefixHit(r: CompiledRule, ip: Addr) {
    exists p | p in r.prefixes :: p.Contains(ip.Unmap())
  }

  predicate HostFits(r: CompiledRule, domain: string, ip: Addr) {
    r.anyHost || (domain != "" && Covers(r, domain)) || PrefixHit(r, ip)
  }

  /** compiledRule.match, on an already normalised name and protocol. */
  predicate Matches(r: CompiledRule, domain: string, ip: Addr, port: uint16, proto: string) {
    ProtoFits(r, proto) && PortFits(r, port) && HostFits(r, domain, ip)
  }

  predicate CgroupFits(r: CompiledRule, cgroup: string) {
    r.cgroup == "" || CgroupWithin(cgroup, r.cgroup)
  }

  predicate RuleApplies(r: CompiledRule, d: Dest) {
    CgroupFits(r, TrimSlashes(d.cgroup))
    && Matches(r, NormalizeDomain(d.domain), d.ip, d.port, ToLower(d.proto))
  }

  function DecisionAt(s: PolicySet, i: Option<nat>): Decision
    requires i.Some? ==> i.value < |s.rules|
  {
    match i
    case None => Decision(s.def, "")
    case Some(k) => Decision(s.rules[k].verdict, s.rules[k].name)
  }

  /** What Evaluate answers: the first rule that applies, else the default. */
  function Decide(s: PolicySet, d: Dest): Decision {
    DecisionAt(s, FirstIndex(s.rules, r => RuleApplies(r, d)))
  }

  method Match(r: CompiledRule, domain: string, ip: Addr, port: uint16, proto: string) returns (ok: bool)
    ensures ok == Matches(r, domain, ip, port, proto)
  {
    if r.proto != "" && proto != "" && r.proto != proto {
      return false;
    }
    if |r.ports| > 0 {
      var hit := false;
      for i := 0 to |r.ports|
        invariant !hit ==> forall k | 0 <= k < i :: !InRange(r.ports[k], port)
        invariant hit ==> exists pr | pr in r.ports :: InRange(pr, port)
      {
        if port >= r.ports[i].lo && port <= r.ports[i].hi {
          hit := true;
          assert InRange(r.ports[i], port);
          break;
        }
      }
      if !hit {
        return false;
      }
    }
    if r.anyHost {
      return true;
    }
    if domain != "" {
      if domain in r.exact {
        return true;
      }
      for i := 0 to |r.suffixes|
        invariant forall k | 0 <= k < i :: !HasSuffix(domain, r.suffixes[k])
      {
        if HasSuffix(domain, r.suffixes[i]) {
          return true;
        }
      }
    }
    if ip.IsValid() {
      var addr := ip.Unmap();
      for i := 0 to |r.prefixes|
        invariant forall k | 0 <= k < i :: !r.prefixes[k].Contains(addr)
      {
        if r.prefixes[i].Contains(addr) {
          return true;
        }
      }
    }
    return false;
  }

  method Evaluate(s: PolicySet, d: Dest) returns (dec: Decision)
    ensures dec == Decide(s, d)
  {
    var domain := NormalizeDomain(d.domain);
    var proto := ToLower(d.proto);
    var cgroup := TrimSlashes(d.cgroup);
    ghost var first := FirstIndex(s.rules, r => RuleApplies(r, d));
    for i := 0 to |s.rules|
      invariant forall k | 0 <= k < i :: !RuleApplies(s.rules[k], d)
    {
      var r := s.rules[i];
      if r.cgroup != "" && !CgroupWithin(cgroup, r.cgroup) {
        continue;
      }
      var ok := Match(r, domain, d.ip, d.port, proto);
      if ok {
        assert RuleApplies(r, d) && first == Some(i);
        return Decision(r.verdict, r.name);
      }
    }
    return Decision(s.def, "");
  }

  // ---- which rules a name belongs to ----

  /** The rules whose patterns cover a name; the sets a DNS answer feeds. */
  predicate InDomainRules(s: PolicySet, name: string, i: int) {
    0 <= i < |s.rules| && Covers(s.rules[i], NormalizeDomain(name))
  }

  /** Those among the first `n` rules, in order. */
  function DomainRuleList(s: PolicySet, name: string, n: nat): (out: seq<nat>)
    requires n <= |s.rules|
    ensures forall i :: i in out <==> i < n && InDomainRules(s, name, i)
    ensures forall j, k | 0 <= j < k < |out| :: out[j] < out[k]
  {
    if n == 0 then []
    else
      var before := DomainRuleList(s, name, n - 1);
      assert forall j | 0 <= j < |before| :: before[j] in before;
      before + (if Covers(s.rules[n - 1], NormalizeDomain(name)) then [n - 1] else [])
  }

  method DomainRules(s: PolicySet, name: string) returns (out: seq<nat>)
    ensures out == DomainRuleList(s, name, |s.rules|)
  {
    var domain := NormalizeDomain(name);
    out := [];
    for i := 0 to |s.rules|
      invariant out == DomainRuleList(s, name, i)
    {
      var r := s.rules[i];
      if domain in r.exact {
        out := out + [i];
        continue;
      }
      var hit := false;
      for j := 0 to |r.suffixes|
        invariant !hit
        invariant forall k | 0 <= k < j :: !HasSuffix(domain, r.suffixes[k])
      {
        if HasSuffix(domain, r.suffixes[j]) {
          hit := true;
          break;
        }
      }
      if hit {
        out := out + [i];
      }
    }
  }
}
