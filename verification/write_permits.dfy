/** What a learned policy permits: for every destination, with a name, an address or
    both, exactly the closure of what was seen. */
module WritePermits {
  import opened Wrappers
  import opened Bytes
  import opened Text
  import opened Netip
  import opened Seqs
  import opened Policy
  import opened PolicyLaws
  import opened Learn
  import opened Write
  import opened WriteLaws

  // ---- one destination ----

  /** Protocol `p` was seen, or both were and the rule names none. A destination
      without a protocol fits any. */
  predicate ProtoSeen(entries: seq<Entry>, h: string, p: string) {
    p == "" || HasProto(entries, h, p) || (HasProto(entries, h, "tcp") && HasProto(entries, h, "udp"))
  }

  /** The closure of what was seen: a port of the host, and a protocol of the host,
      not necessarily together. */
  predicate Permitted(entries: seq<Entry>, h: string, port: uint16, proto: string) {
    HasPort(entries, h, port) && ProtoSeen(entries, h, proto)
  }

  /** A rule for the name `h` takes the name `n`; with a leading "*." it takes every
      name below. */
  predicate NameTakes(h: string, n: string) {
    var p := NormalizeDomain(h);
    n != "" && if "*." <= p then HasSuffix(n, p[1..]) else n == p
  }

  /** A rule for host `h` is about destination `d`. */
  predicate HostTakes(lib: Library, h: string, domain: bool, d: Dest) {
    if domain then NameTakes(h, NormalizeDomain(d.domain))
    else d.ip.IsValid() && lib.addrText(d.ip.Unmap()) == h
  }

  /** Some host seen is about `d`, and its ports and protocols permit it. */
  predicate Wanted(lib: Library, entries: seq<Entry>, d: Dest) {
    exists i: nat | i < |entries| ::
      && Leads(entries, i) && HostTakes(lib, entries[i].host, entries[i].domain, d)
      && Permitted(entries, entries[i].host, d.port, ToLower(d.proto))
  }

  // ---- one rule ----

  lemma {:induction false} SinglesHit(r: HostRule, port: uint16)
    ensures (exists pr | pr in Singles(Distinct(r.ports)) :: InRange(pr, port)) <==> port in r.ports
  {
    var ds := Distinct(r.ports);
    DistinctSame(r.ports);
    if port in r.ports {
      var k :| 0 <= k < |ds| && ds[k] == port;
      assert Singles(ds)[k] in Singles(ds) && InRange(Singles(ds)[k], port);
    }
  }

  predicate ProtoTaken(protos: set<string>, p: string) {
    p == "" || p in protos || ("tcp" in protos && "udp" in protos)
  }

  /** Ports and protocol of a compiled host rule, for one destination. */
  lemma {:induction false} HostRuleTransport(lib: Library, entries: seq<Entry>, r: HostRule, c: CompiledRule, d: Dest)
    requires Collected(lib, entries) && Merges(r, entries)
    requires c.ports == Singles(Distinct(r.ports)) && c.proto == ToLower(ProtoText(r.protos))
    ensures PortFits(c, d.port) <==> d.port in r.ports
    ensures ProtoFits(c, ToLower(d.proto)) <==> ProtoTaken(r.protos, ToLower(d.proto))
  {
    ProtoTextOf(entries, r);
    SinglesHit(r, d.port);
    DistinctSame(r.ports);
    assert r.ports[0] in r.ports && r.ports[0] in Distinct(r.ports);
    assert c.ports != [];
  }

  lemma {:induction false} OnePattern(p: Pattern)
    ensures Exacts([p]) == if p.Exact? then {p.name} else {}
    ensures Suffixes([p]) == if p.Suffix? then [p.suffix] else []
  {
    PatternsSnoc([], p);
    assert [] + [p] == [p];
  }

  lemma {:induction false} TextTellsAddress(lib: Library, a: IP, b: IP)
    requires lib.Sound() && lib.addrText(a) == lib.addrText(b)
    ensures a == b
  {
    assert lib.parseAddr(lib.addrText(a)) == Some(a) && lib.parseAddr(lib.addrText(b)) == Some(b);
  }

  lemma {:induction false} OnePatternCovers(c: CompiledRule, p: Pattern, n: string)
    requires c.exact == (if p.Exact? then {p.name} else {}) && c.suffixes == (if p.Suffix? then [p.suffix] else [])
    ensures Covers(c, n) <==> if p.Exact? then n == p.name else HasSuffix(n, p.suffix)
  {
    if p.Suffix? {
      assert p.suffix in c.suffixes;
    }
  }

  lemma {:induction false} ClassifiedAs(h: string)
    requires ClassifyDomain(h).Ok?
    ensures var p := NormalizeDomain(h);
            ClassifyDomain(h).value == if "*." <= p then Suffix(p[1..]) else Exact(p)
  {
  }

  /** The host of a compiled rule for a name. */
  lemma {:induction false} NameRuleHost(h: string, c: CompiledRule, d: Dest)
    requires ClassifyDomain(h).Ok?
    requires c.exact == Exacts([ClassifyDomain(h).value]) && c.suffixes == Suffixes([ClassifyDomain(h).value])
    requires c.prefixes == [] && c.anyHost == (c.exact == {} && c.suffixes == [])
    ensures HostFits(c, NormalizeDomain(d.domain), d.ip) <==> NameTakes(h, NormalizeDomain(d.domain))
  {
    var p, n := ClassifyDomain(h).value, NormalizeDomain(d.domain);
    OnePattern(p);
    OnePatternCovers(c, p, n);
    ClassifiedAs(h);
    assert !c.anyHost && !PrefixHit(c, d.ip);
  }

  /** The host of a compiled rule for an address. */
  lemma {:induction false} AddressRuleHost(lib: Library, h: string, c: CompiledRule, d: Dest)
    requires lib.Sound() && IsAddress(lib, h)
    requires c.exact == {} && c.suffixes == [] && ParseCidr(lib, h).Ok?
            && c.prefixes == [ParseCidr(lib, h).value] && !c.anyHost
    ensures HostFits(c, NormalizeDomain(d.domain), d.ip) <==> d.ip.IsValid() && lib.addrText(d.ip.Unmap()) == h
  {
    var a: IP :| lib.addrText(a) == h;
    AddressCidr(lib, a);
    assert c.prefixes[0] in c.prefixes;
    if d.ip.IsValid() {
      FullPrefixContains(a, d.ip.Unmap());
      if lib.addrText(d.ip.Unmap()) == h { TextTellsAddress(lib, d.ip.Unmap(), a); }
    }
  }

  predicate RuleTakes(lib: Library, r: HostRule, d: Dest) {
    HostTakes(lib, r.host, r.domain, d) && d.port in r.ports && ProtoTaken(r.protos, ToLower(d.proto))
  }

  /** When the compiled rule of a host applies. */
  lemma {:induction false} HostRuleApplies(lib: Library, entries: seq<Entry>, r: HostRule, pos: string, d: Dest)
    requires lib.Sound() && Collected(lib, entries) && Merges(r, entries) && Loadable(lib, r)
    ensures var c := RuleOf(lib, RuleText(r), Allow, pos); c.Ok? && (RuleApplies(c.value, d) <==> RuleTakes(lib, r, d))
  {
    HostRuleCompiled(lib, r, pos);
    var c := RuleOf(lib, RuleText(r), Allow, pos).value;
    LedOnce(entries, r.host, r.domain);
    HostRuleTransport(lib, entries, r, c, d);
    if r.domain {
      NameRuleHost(r.host, c, d);
    } else {
      AddressRuleHost(lib, r.host, c, d);
    }
  }

  lemma {:induction false} MetadataApplies(c: CompiledRule, d: Dest)
    requires c == CompiledRule("cloud-metadata", Deny, {}, [], [RawPrefix(METADATA_IP, 32)], [], "", "", false)
    ensures RuleApplies(c, d) <==> d.ip.Unmap() == METADATA_IP
  {
    FullPrefixContains(METADATA_IP, d.ip.Unmap());
    assert c.prefixes[0] in c.prefixes;
  }

  // ---- the file ----

  lemma {:induction false} MetadataFirst(lib: Library, entries: seq<Entry>, d: Dest)
    requires Usable(lib) && SetOf(lib, FileOf(entries)).Ok?
    ensures |SetOf(lib, FileOf(entries)).value.rules| == 1 + |MergeAll(entries)|
    ensures SetOf(lib, FileOf(entries)).value.rules[0].verdict == Deny
    ensures SetOf(lib, FileOf(entries)).value.rules[0].name == "cloud-metadata"
    ensures RuleApplies(SetOf(lib, FileOf(entries)).value.rules[0], d) <==> d.ip.Unmap() == METADATA_IP
  {
    var file := FileOf(entries);
    CompileAccepts(lib, file);
    MetadataRuleCompiled(lib, Position("deny", 0));
    MetadataApplies(SetOf(lib, file).value.rules[0], d);
  }

  lemma {:induction false} LoadedRule(lib: Library, entries: seq<Entry>, d: Dest, i: nat)
    requires Usable(lib) && Collected(lib, entries) && SetOf(lib, FileOf(entries)).Ok? && i < |MergeAll(entries)|
    ensures |SetOf(lib, FileOf(entries)).value.rules| == 1 + |MergeAll(entries)|
    ensures RuleApplies(SetOf(lib, FileOf(entries)).value.rules[1 + i], d) <==> RuleTakes(lib, MergeAll(entries)[i], d)
  {
    CompileAccepts(lib, FileOf(entries));
    MergeExact(entries);
    assert MergeAll(entries)[i] in MergeAll(entries);
    LoadedFileRules(lib, entries, i);
    HostRuleApplies(lib, entries, MergeAll(entries)[i], Position("allow", i), d);
  }

  /** The rules of the loaded file, one by one. */
  lemma {:induction false} LoadedRules(lib: Library, entries: seq<Entry>, d: Dest)
    requires Usable(lib) && Collected(lib, entries) && SetOf(lib, FileOf(entries)).Ok?
    ensures var s := SetOf(lib, FileOf(entries)).value;
            && |s.rules| == 1 + |MergeAll(entries)|
            && (RuleApplies(s.rules[0], d) <==> d.ip.Unmap() == METADATA_IP)
            && forall i | 0 <= i < |MergeAll(entries)| ::
                 RuleApplies(s.rules[1 + i], d) <==> RuleTakes(lib, MergeAll(entries)[i], d)
  {
    var rules := MergeAll(entries);
    var s := SetOf(lib, FileOf(entries)).value;
    MetadataFirst(lib, entries, d);
    forall i | 0 <= i < |rules| ensures RuleApplies(s.rules[1 + i], d) <==> RuleTakes(lib, rules[i], d) {
      LoadedRule(lib, entries, d, i);
    }
  }

  /** A merged rule takes a destination by what was seen of its host. */
  lemma {:induction false} RuleTakesSeen(lib: Library, entries: seq<Entry>, r: HostRule, d: Dest)
    requires Merges(r, entries)
    ensures RuleTakes(lib, r, d) <==>
              HostTakes(lib, r.host, r.domain, d) && Permitted(entries, r.host, d.port, ToLower(d.proto))
  {
    var p := ToLower(d.proto);
    assert p in r.protos <==> HasProto(entries, r.host, p);
    assert "tcp" in r.protos <==> HasProto(entries, r.host, "tcp");
    assert "udp" in r.protos <==> HasProto(entries, r.host, "udp");
  }

  /** Some rule takes a destination exactly when the closure of what was seen does. */
  lemma {:induction false} SomeRuleTakes(lib: Library, entries: seq<Entry>, d: Dest)
    ensures (exists r | r in MergeAll(entries) :: RuleTakes(lib, r, d)) <==> Wanted(lib, entries, d)
  {
    var rules := MergeAll(entries);
    MergeExact(entries);
    if r :| r in rules && RuleTakes(lib, r, d) {
      assert Merges(r, entries);
      RuleTakesSeen(lib, entries, r, d);
      var i: nat :| i < |entries| && Leads(entries, i) && entries[i].host == r.host && entries[i].domain == r.domain;
    }
    if Wanted(lib, entries, d) {
      var i: nat :| i < |entries| && Leads(entries, i) && HostTakes(lib, entries[i].host, entries[i].domain, d)
                    && Permitted(entries, entries[i].host, d.port, ToLower(d.proto));
      var h := entries[i].host;
      assert entries[i] in entries && GoesTo(entries[i], h) && HasHost(entries, h);
      var r := rules[RuleIndex(rules, h).value];
      assert r in rules && Merges(r, entries);
      LedOnce(entries, h, r.domain);
      RuleTakesSeen(lib, entries, r, d);
    }
  }

  /** Some allow rule applies exactly when some merged rule takes the destination. */
  lemma {:induction false} SomeRuleApplies(lib: Library, compiled: seq<CompiledRule>, rules: seq<HostRule>, d: Dest)
    requires |compiled| == 1 + |rules|
    requires forall i | 0 <= i < |rules| :: RuleApplies(compiled[1 + i], d) <==> RuleTakes(lib, rules[i], d)
    ensures (exists i :: 1 <= i < |compiled| && RuleApplies(compiled[i], d)) <==>
              exists r | r in rules :: RuleTakes(lib, r, d)
  {
    if r :| r in rules && RuleTakes(lib, r, d) {
      var i :| 0 <= i < |rules| && rules[i] == r;
      assert RuleApplies(compiled[1 + i], d);
    }
    if i :| 1 <= i < |compiled| && RuleApplies(compiled[i], d) {
      assert compiled[i] == compiled[1 + (i - 1)];
      assert rules[i - 1] in rules;
    }
  }

  /** A learned policy allows what its one deny rule leaves and an allow rule takes. */
  lemma {:induction false} LearnedDecision(lib: Library, entries: seq<Entry>, d: Dest)
    requires SetOf(lib, FileOf(entries)).Ok?
    ensures var s := SetOf(lib, FileOf(entries)).value;
            && |s.rules| >= 1
            && (Decide(s, d).verdict == Allow <==>
                  !RuleApplies(s.rules[0], d) && exists i :: 1 <= i < |s.rules| && RuleApplies(s.rules[i], d))
  {
    DenyWins(lib, FileOf(entries), d);
  }

  /** What a learned policy decides, for every file that loads and every destination:
      allowed exactly when it does not carry the metadata address and some host seen is
      about it, on a port and over a protocol seen for that host. Names with a leading
      star, which an observer does collect, take every name below. */
  lemma {:induction false} LearnedPolicyDecides(lib: Library, entries: seq<Entry>, d: Dest)
    requires Usable(lib) && Collected(lib, entries) && SetOf(lib, FileOf(entries)).Ok?
    ensures Decide(SetOf(lib, FileOf(entries)).value, d).verdict == Allow <==>
              d.ip.Unmap() != METADATA_IP && Wanted(lib, entries, d)
  {
    LoadedRules(lib, entries, d);
    LearnedDecision(lib, entries, d);
    SomeRuleTakes(lib, entries, d);
    SomeRuleApplies(lib, SetOf(lib, FileOf(entries)).value.rules, MergeAll(entries), d);
  }

  /** Any destination that carries the metadata address is denied, named or not,
      whatever was observed. */
  lemma {:induction false} MetadataIsDenied(lib: Library, entries: seq<Entry>, d: Dest)
    requires Usable(lib) && SetOf(lib, FileOf(entries)).Ok? && d.ip.Unmap() == METADATA_IP
    ensures Decide(SetOf(lib, FileOf(entries)).value, d) == Decision(Deny, "cloud-metadata")
  {
    var s := SetOf(lib, FileOf(entries)).value;
    MetadataFirst(lib, entries, d);
    FirstIndexAt(s.rules, r => RuleApplies(r, d), 0);
  }

  // ---- plain names ----

  /** A name in normal form without a star. */
  predicate PlainName(name: string) {
    name != "" && '*' !in name && NormalizeDomain(name) == name
  }

  lemma {:induction false} PlainNameTakes(h: string, n: string)
    requires PlainName(h)
    ensures NameLoads(h) && (NameTakes(h, n) <==> n == h)
  {
    assert h[0] in h;
  }

  /** Entries whose names are plain, and no host both a name and an address. */
  ghost predicate Observed(lib: Library, entries: seq<Entry>) {
    && Collected(lib, entries)
    && (forall e | e in entries && e.domain :: PlainName(e.host))
    && (forall e1, e2 | e1 in entries && e2 in entries && e1.host == e2.host :: e1.domain == e2.domain)
  }

  /** Host `h` was seen as a name, or as an address, and permits port and protocol. */
  predicate SeenAs(entries: seq<Entry>, h: string, domain: bool, port: uint16, proto: string) {
    HasKind(entries, h, domain) && Permitted(entries, h, port, proto)
  }

  /** A host that was seen has a first entry. */
  lemma {:induction false} SomeLeader(entries: seq<Entry>, e: Entry) returns (i: nat)
    requires e in entries && !IsMetadata(e)
    ensures i < |entries| && Leads(entries, i) && entries[i].host == e.host
  {
    i :| i < |entries| && entries[i] == e;
    while !Leads(entries, i)
      invariant i < |entries| && !IsMetadata(entries[i]) && entries[i].host == e.host
      decreases i
    {
      var j :| 0 <= j < i && GoesTo(entries[j], e.host);
      i := j;
    }
  }

  lemma {:induction false} SeenIsWanted(lib: Library, entries: seq<Entry>, d: Dest, h: string, domain: bool)
    requires Observed(lib, entries) && SeenAs(entries, h, domain, d.port, ToLower(d.proto))
    requires if domain then h == NormalizeDomain(d.domain) else d.ip.IsValid() && h == lib.addrText(d.ip.Unmap())
    ensures Wanted(lib, entries, d)
  {
    var e :| e in entries && GoesTo(e, h) && e.domain == domain;
    var i := SomeLeader(entries, e);
    assert entries[i] in entries;
    if domain { PlainNameTakes(h, NormalizeDomain(d.domain)); }
  }

  lemma {:induction false} WantedIsSeen(lib: Library, entries: seq<Entry>, d: Dest)
    requires Observed(lib, entries) && Wanted(lib, entries, d)
    ensures SeenAs(entries, NormalizeDomain(d.domain), true, d.port, ToLower(d.proto))
            || (d.ip.IsValid() && SeenAs(entries, lib.addrText(d.ip.Unmap()), false, d.port, ToLower(d.proto)))
  {
    var i: nat :| i < |entries| && Leads(entries, i) && HostTakes(lib, entries[i].host, entries[i].domain, d)
                  && Permitted(entries, entries[i].host, d.port, ToLower(d.proto));
    var e := entries[i];
    assert e in entries && GoesTo(e, e.host) && HasKind(entries, e.host, e.domain);
    if e.domain { PlainNameTakes(e.host, NormalizeDomain(d.domain)); }
  }

  /** With plain names the learned policy is exact up to merging, for every destination:
      it is allowed exactly when it does not carry the metadata address and its name was
      seen, or its address was seen without a name, on this port and over this protocol. */
  lemma {:induction false} LearnedPolicyIsExact(lib: Library, entries: seq<Entry>, d: Dest)
    requires Usable(lib) && Observed(lib, entries)
    requires forall e | e in entries && !IsMetadata(e) :: e.port != 0
    ensures var s := SetOf(lib, FileOf(entries));
            && s.Ok?
            && (Decide(s.value, d).verdict == Allow <==>
                  && d.ip.Unmap() != METADATA_IP
                  && (SeenAs(entries, NormalizeDomain(d.domain), true, d.port, ToLower(d.proto))
                      || (d.ip.IsValid() && SeenAs(entries, lib.addrText(d.ip.Unmap()), false, d.port,
                          ToLower(d.proto)))))
  {
    forall i: nat | i < |entries| && !IsMetadata(entries[i]) ensures EntryLoads(entries, i) {
      assert entries[i] in entries;
      if entries[i].domain { PlainNameTakes(entries[i].host, ""); }
    }
    LearnedPolicyLoadsIff(lib, entries);
    LearnedPolicyDecides(lib, entries, d);
    if Wanted(lib, entries, d) {
      WantedIsSeen(lib, entries, d);
    }
    if SeenAs(entries, NormalizeDomain(d.domain), true, d.port, ToLower(d.proto)) {
      SeenIsWanted(lib, entries, d, NormalizeDomain(d.domain), true);
    }
    if d.ip.IsValid() && SeenAs(entries, lib.addrText(d.ip.Unmap()), false, d.port, ToLower(d.proto)) {
      SeenIsWanted(lib, entries, d, lib.addrText(d.ip.Unmap()), false);
    }
  }

  lemma {:induction false} SeenNameIsPlain(lib: Library, entries: seq<Entry>, h: string)
    requires Observed(lib, entries) && HasKind(entries, h, true)
    ensures PlainName(h)
  {
  }

  /** Of a destination given by name alone, or by address alone, only that one matters. */
  lemma {:induction false} AloneIsExact(lib: Library, entries: seq<Entry>, d: Dest)
    requires Usable(lib) && Observed(lib, entries)
    requires forall e | e in entries && !IsMetadata(e) :: e.port != 0
    ensures var s, n := SetOf(lib, FileOf(entries)), NormalizeDomain(d.domain);
            && s.Ok?
            && (d.ip == NoAddr ==>
                  (Decide(s.value, d).verdict == Allow <==> SeenAs(entries, n, true, d.port, ToLower(d.proto))))
            && (d.ip.IsValid() && n == "" && d.ip.Unmap() != METADATA_IP ==>
                  (Decide(s.value, d).verdict == Allow <==>
                     SeenAs(entries, lib.addrText(d.ip.Unmap()), false, d.port, ToLower(d.proto))))
  {
    LearnedPolicyIsExact(lib, entries, d);
    assert NoAddr.Unmap() != METADATA_IP;
    if SeenAs(entries, "", true, d.port, ToLower(d.proto)) {
      SeenNameIsPlain(lib, entries, "");
    }
  }
}
