/** The learned policy loads, and permits exactly what was observed, with the ports
    and the protocols of each host merged. */
module WriteLaws {
  import opened Wrappers
  import opened Bytes
  import opened Text
  import opened Netip
  import opened Seqs
  import opened Policy
  import opened PolicyLaws
  import opened Learn
  import opened Write

  // ---- merging ----

  /** The entries a rule for host `h` is made of. */
  predicate GoesTo(e: Entry, h: string) {
    !IsMetadata(e) && e.host == h
  }

  /** The host was seen at all; as a name or address; on a port; over a protocol. */
  predicate HasHost(entries: seq<Entry>, h: string) {
    exists e | e in entries :: GoesTo(e, h)
  }

  predicate HasKind(entries: seq<Entry>, h: string, domain: bool) {
    exists e | e in entries :: GoesTo(e, h) && e.domain == domain
  }

  predicate HasPort(entries: seq<Entry>, h: string, p: uint16) {
    exists e | e in entries :: GoesTo(e, h) && e.port == p
  }

  predicate HasProto(entries: seq<Entry>, h: string, p: string) {
    exists e | e in entries :: GoesTo(e, h) && e.proto == p
  }

  /** Entry `i` is the first of its host, and decides whether the rule is for a name. */
  predicate Leads(entries: seq<Entry>, i: nat) {
    i < |entries| && !IsMetadata(entries[i]) && forall j | 0 <= j < i :: !GoesTo(entries[j], entries[i].host)
  }

  predicate LedAs(entries: seq<Entry>, h: string, domain: bool) {
    exists i: nat | i < |entries| :: Leads(entries, i) && entries[i].host == h && entries[i].domain == domain
  }

  /** `r` merges the entries of its host. */
  ghost predicate Merges(r: HostRule, entries: seq<Entry>) {
    && LedAs(entries, r.host, r.domain)
    && r.ports != [] && r.protos != {}
    && (forall p: uint16 :: p in r.ports <==> HasPort(entries, r.host, p))
    && (forall p: string :: p in r.protos <==> HasProto(entries, r.host, p))
  }

  /** One rule for each host. */
  ghost predicate MergedFrom(rules: seq<HostRule>, entries: seq<Entry>) {
    && (forall r | r in rules :: Merges(r, entries))
    && (forall h :: HasHost(entries, h) <==> RuleIndex(rules, h).Some?)
    && (forall i, j | 0 <= i < j < |rules| :: rules[i].host != rules[j].host)
  }

  lemma {:induction false} HasOneMore(entries: seq<Entry>, e: Entry, h: string)
    ensures HasHost(entries + [e], h) <==> HasHost(entries, h) || GoesTo(e, h)
    ensures forall d :: HasKind(entries + [e], h, d) <==> HasKind(entries, h, d) || (GoesTo(e, h) && e.domain == d)
    ensures forall p :: HasPort(entries + [e], h, p) <==> HasPort(entries, h, p) || (GoesTo(e, h) && e.port == p)
    ensures forall p :: HasProto(entries + [e], h, p) <==> HasProto(entries, h, p) || (GoesTo(e, h) && e.proto == p)
  {
    assert forall x :: x in entries + [e] <==> x in entries || x == e;
  }

  lemma {:induction false} LedOneMore(entries: seq<Entry>, e: Entry, h: string, domain: bool)
    requires LedAs(entries, h, domain)
    ensures LedAs(entries + [e], h, domain)
  {
    var i: nat :| i < |entries| && Leads(entries, i) && entries[i].host == h && entries[i].domain == domain;
    assert Leads(entries + [e], i);
  }

  /** The first entry of a host is one of its entries, and there is only one. */
  lemma {:induction false} LedOnce(entries: seq<Entry>, h: string, domain: bool)
    requires LedAs(entries, h, domain)
    ensures HasHost(entries, h) && HasKind(entries, h, domain)
    ensures forall i | 0 <= i < |entries| && Leads(entries, i) && entries[i].host == h :: entries[i].domain == domain
  {
    var i: nat :| i < |entries| && Leads(entries, i) && entries[i].host == h && entries[i].domain == domain;
    assert entries[i] in entries && GoesTo(entries[i], h);
    forall j: nat | j < |entries| && Leads(entries, j) && entries[j].host == h ensures i == j {
      assert GoesTo(entries[j], h);
    }
  }

  /** A rule of another host is not touched. */
  lemma {:induction false} MergesOther(r: HostRule, entries: seq<Entry>, e: Entry)
    requires Merges(r, entries) && !GoesTo(e, r.host)
    ensures Merges(r, entries + [e])
  {
    HasOneMore(entries, e, r.host);
    LedOneMore(entries, e, r.host, r.domain);
  }

  lemma {:induction false} MergesSame(r: HostRule, entries: seq<Entry>, e: Entry)
    requires Merges(r, entries) && GoesTo(e, r.host)
    ensures Merges(r.(ports := r.ports + [e.port], protos := r.protos + {e.proto}), entries + [e])
  {
    HasOneMore(entries, e, r.host);
    LedOneMore(entries, e, r.host, r.domain);
  }

  lemma {:induction false} MergesNew(entries: seq<Entry>, e: Entry)
    requires GoesTo(e, e.host) && !HasHost(entries, e.host)
    ensures Merges(HostRule(e.host, e.domain, [e.port], {e.proto}), entries + [e])
  {
    HasOneMore(entries, e, e.host);
    forall j | 0 <= j < |entries| ensures !GoesTo((entries + [e])[j], e.host) {
      assert entries[j] in entries;
    }
    assert Leads(entries + [e], |entries|);
    assert forall p :: HasPort(entries, e.host, p) ==> HasHost(entries, e.host);
    assert forall p :: HasProto(entries, e.host, p) ==> HasHost(entries, e.host);
  }

  lemma {:induction false} MergeStep(rules: seq<HostRule>, entries: seq<Entry>, e: Entry)
    requires MergedFrom(rules, entries)
    ensures MergedFrom(MergeOne(rules, e), entries + [e])
  {
    var out, all := MergeOne(rules, e), entries + [e];
    forall h ensures HasHost(all, h) <==> RuleIndex(out, h).Some? {
      HasOneMore(entries, e, h);
      if !IsMetadata(e) {
        IndexAfterMergeAt(rules, e, h);
      }
    }
    forall r | r in out ensures Merges(r, all) {
      var k :| 0 <= k < |out| && out[k] == r;
      if k < |rules| && out[k] == rules[k] && (IsMetadata(e) || rules[k].host != e.host) {
        MergesOther(rules[k], entries, e);
      } else if k < |rules| {
        assert rules[k] in rules;
        assert rules[k].host == e.host;
        MergesSame(rules[k], entries, e);
      } else {
        MergesNew(entries, e);
      }
    }
    forall i, j | 0 <= i < j < |out| ensures out[i].host != out[j].host {
      assert forall k | 0 <= k < |rules| :: out[k].host == rules[k].host;
    }
  }

  /** Merging makes one rule for each host seen, with all its ports and protocols. */
  lemma {:induction false} MergeExact(entries: seq<Entry>)
    ensures MergedFrom(MergeAll(entries), entries)
  {
    if entries != [] {
      var n := |entries| - 1;
      MergeExact(entries[..n]);
      MergeStep(MergeAll(entries[..n]), entries[..n], entries[n]);
      assert entries == entries[..n] + [entries[n]];
    }
  }

  // ---- ports ----

  /** A port written in decimal reads back as that one port; zero does not. */
  lemma {:induction false} PortTextReadsBack(p: uint16)
    ensures ParsePortRange(Itoa(p)) == if p == 0 then Err(BadPort(Itoa(p))) else Ok(PortRange(p, p))
  {
    DigitsPlain(Itoa(p));
    CutMissing(Itoa(p), '-');
    ItoaValue(p);
  }

  lemma {:induction false} DistinctSame(ports: seq<uint16>)
    ensures forall p :: p in Distinct(ports) <==> p in ports
  {
    if ports != [] {
      var n := |ports| - 1;
      DistinctSame(ports[..n]);
      assert ports == ports[..n] + [ports[n]];
    }
  }

  function Singles(ports: seq<uint16>): seq<PortRange> {
    seq(|ports|, k requires 0 <= k < |ports| => PortRange(ports[k], ports[k]))
  }

  lemma {:induction false} PortTextsCompile(ports: seq<uint16>)
    ensures MapAll(ParsePortRange, PortTexts(ports)).Ok? <==> 0 !in ports
    ensures 0 !in ports ==> MapAll(ParsePortRange, PortTexts(ports)) == Ok(Singles(Distinct(ports)))
  {
    var ds, texts := Distinct(ports), PortTexts(ports);
    DistinctSame(ports);
    forall k | 0 <= k < |ds|
      ensures ParsePortRange(texts[k]) == if ds[k] == 0 then Err(BadPort(texts[k])) else Ok(PortRange(ds[k], ds[k]))
    {
      PortTextReadsBack(ds[k]);
    }
    if 0 !in ports {
      forall k | 0 <= k < |ds| ensures ds[k] != 0 { assert ds[k] in ds; }
      MapAllOk(ParsePortRange, texts, Singles(ds));
    } else {
      var r := MapAll(ParsePortRange, texts);
      var k :| 0 <= k < |ds| && ds[k] == 0;
      assert ParsePortRange(texts[k]).Err?;
    }
  }

  // ---- one rule ----

  /** What a merged rule needs to compile. */
  ghost predicate Loadable(lib: Library, r: HostRule) {
    && (if r.domain then ClassifyDomain(r.host).Ok? else ParseCidr(lib, r.host).Ok?)
    && 0 !in r.ports
    && CheckProto(ProtoText(r.protos)).Ok?
  }

  lemma {:induction false} OneCompiles<A, B>(f: A -> Result<B, Fault>, x: A)
    ensures MapAll(f, [x]).Ok? <==> f(x).Ok?
    ensures f(x).Ok? ==> MapAll(f, [x]) == Ok([f(x).value])
    ensures MapAll(f, []) == Ok([])
  {
    if f(x).Ok? {
      MapAllOk(f, [x], [f(x).value]);
    } else {
      MapAllErr(f, [x], 0);
    }
  }

  lemma {:induction false} HostRuleCompilesIff(lib: Library, r: HostRule, pos: string)
    ensures RuleOf(lib, RuleText(r), Allow, pos).Ok? <==> Loadable(lib, r)
  {
    var parse := s => ParseCidr(lib, s);
    OneCompiles(ClassifyDomain, r.host);
    OneCompiles(parse, r.host);
    PortTextsCompile(r.ports);
  }

  /** What it compiles to. */
  lemma {:induction false} HostRuleCompiled(lib: Library, r: HostRule, pos: string)
    requires Loadable(lib, r)
    ensures RuleOf(lib, RuleText(r), Allow, pos).Ok?
    ensures var c := RuleOf(lib, RuleText(r), Allow, pos).value;
            && c.ports == Singles(Distinct(r.ports)) && c.cgroup == "" && c.proto == ToLower(ProtoText(r.protos))
            && (if r.domain
                then c.exact == Exacts([ClassifyDomain(r.host).value]) && c.prefixes == []
                     && c.suffixes == Suffixes([ClassifyDomain(r.host).value])
                else c.exact == {} && c.suffixes == [] && c.prefixes == [ParseCidr(lib, r.host).value])
            && c.anyHost == (c.exact == {} && c.suffixes == [] && c.prefixes == [])
  {
    var parse := s => ParseCidr(lib, s);
    OneCompiles(ClassifyDomain, r.host);
    OneCompiles(parse, r.host);
    PortTextsCompile(r.ports);
  }

  // ---- the file ----

  /** The address library prints the metadata address the way the file spells it. */
  ghost predicate Usable(lib: Library) {
    lib.Sound() && lib.addrText(METADATA_IP) == METADATA_TEXT
  }

  /** A made-up text for addresses, told apart by their bytes. */
  function ByteText(a: IP): string {
    var b := a.AsSlice();
    if a == METADATA_IP then METADATA_TEXT
    else [if a.IPv4? then '4' else '6'] + seq(|b|, k requires 0 <= k < |b| => b[k] as char)
  }

  lemma {:induction false} ByteTextInjective(a: IP, b: IP)
    requires ByteText(a) == ByteText(b)
    ensures a == b
  {
    var x, y := ByteText(a), ByteText(b);
    assert x[0] == y[0];
    if a != METADATA_IP {
      forall k | 0 <= k < |a.AsSlice()| ensures a.AsSlice()[k] == b.AsSlice()[k] {
        assert x[k + 1] == y[k + 1];
      }
      assert a.AsSlice() == b.AsSlice();
    }
  }

  /** The assumptions on the address library can be met. */
  lemma {:induction false} UsableLibraryExists() returns (lib: Library)
    ensures Usable(lib)
  {
    var parse: string -> Option<IP> :=
      s => if exists a: IP :: ByteText(a) == s then var a: IP :| ByteText(a) == s; Some(a) else None;
    lib := Library(ByteText, parse, s => None);
    forall a: IP ensures lib.parseAddr(lib.addrText(a)) == Some(a) {
      forall b: IP | ByteText(b) == ByteText(a) { ByteTextInjective(a, b); }
    }
  }

  lemma {:induction false} AddressCidr(lib: Library, a: IP)
    requires lib.Sound()
    ensures ParseCidr(lib, lib.addrText(a)) == Ok(RawPrefix(a, a.BitLen()))
  {
    FullPrefixContains(a, a);
  }

  lemma {:induction false} MetadataRuleCompiled(lib: Library, pos: string)
    requires Usable(lib)
    ensures RuleOf(lib, METADATA_RULE, Deny, pos) ==
              Ok(CompiledRule("cloud-metadata", Deny, {}, [], [RawPrefix(METADATA_IP, 32)], [], "", "", false))
  {
    var parse := s => ParseCidr(lib, s);
    AddressCidr(lib, METADATA_IP);
    assert METADATA_IP.BitLen() == 32;
    OneCompiles(parse, METADATA_TEXT);
    var none: seq<Pattern>, anyPort: seq<PortRange> := [], [];
    assert MapAll(ClassifyDomain, METADATA_RULE.domains) == Ok(none);
    assert MapAll(parse, METADATA_RULE.cidrs) == Ok([RawPrefix(METADATA_IP, 32)]);
    assert MapAll(ParsePortRange, METADATA_RULE.ports) == Ok(anyPort);
    assert CheckProto("") == Ok("") by { assert ToLower("") == ""; }
    assert Exacts(none) == {} && Suffixes(none) == [];
  }

  /** The i-th allow rule of the file compiles when the i-th merged rule can. */
  lemma {:induction false} AllowRuleLoadsIff(lib: Library, entries: seq<Entry>, i: nat)
    requires i < |MergeAll(entries)|
    ensures RuleOf(lib, FileOf(entries).allow[i], Allow, Position("allow", i)).Ok? <==>
            Loadable(lib, MergeAll(entries)[i])
  {
    HostRuleCompilesIff(lib, MergeAll(entries)[i], Position("allow", i));
  }

  lemma {:induction false} FileLoads(lib: Library, entries: seq<Entry>)
    requires Usable(lib) && forall r | r in MergeAll(entries) :: Loadable(lib, r)
    ensures SetOf(lib, FileOf(entries)).Ok?
  {
    var file, rules := FileOf(entries), MergeAll(entries);
    MetadataRuleCompiled(lib, Position("deny", 0));
    forall i | 0 <= i < |rules| ensures RuleOf(lib, file.allow[i], Allow, Position("allow", i)).Ok? {
      assert rules[i] in rules;
      AllowRuleLoadsIff(lib, entries, i);
    }
    CompileAccepts(lib, file);
  }

  lemma {:induction false} LoadedFileRules(lib: Library, entries: seq<Entry>, i: nat)
    requires SetOf(lib, FileOf(entries)).Ok? && i < |MergeAll(entries)|
    ensures Loadable(lib, MergeAll(entries)[i])
  {
    CompileAccepts(lib, FileOf(entries));
    AllowRuleLoadsIff(lib, entries, i);
  }

  /** Which learned policies load: exactly those all of whose merged rules do. */
  lemma {:induction false} FileLoadsIff(lib: Library, entries: seq<Entry>)
    requires Usable(lib)
    ensures SetOf(lib, FileOf(entries)).Ok? <==> forall r | r in MergeAll(entries) :: Loadable(lib, r)
  {
    var rules := MergeAll(entries);
    if SetOf(lib, FileOf(entries)).Ok? {
      forall i | 0 <= i < |rules| ensures Loadable(lib, rules[i]) {
        LoadedFileRules(lib, entries, i);
      }
    }
    if forall r | r in rules :: Loadable(lib, r) {
      FileLoads(lib, entries);
    }
  }

  /** Entries as an observer makes them: over tcp or udp, to a name or to the text of an
      address. LearnedPolicy.RunIsCollected shows that it does. */
  ghost predicate Collected(lib: Library, entries: seq<Entry>) {
    forall e | e in entries ::
      (e.proto == "tcp" || e.proto == "udp") && (!e.domain ==> IsAddress(lib, e.host))
  }

  ghost predicate IsAddress(lib: Library, text: string) {
    exists a: IP :: lib.addrText(a) == text
  }

  /** A rule can be made for this name: normalised it is neither empty nor a lone star,
      and it has no star but in a leading "*.". */
  predicate NameLoads(name: string) {
    var n := NormalizeDomain(name);
    n != "" && n != "*" && '*' !in (if "*." <= n then n[2..] else n)
  }

  lemma {:induction false} NameLoadsIff(name: string)
    ensures ClassifyDomain(name).Ok? <==> NameLoads(name)
  {
  }

  /** The rule's protocol is the only one seen, or none when both were. */
  lemma {:induction false} ProtoTextOf(entries: seq<Entry>, r: HostRule)
    requires Merges(r, entries) && forall e | e in entries :: e.proto == "tcp" || e.proto == "udp"
    ensures ProtoText(r.protos) in {"", "tcp", "udp"} && ToLower(ProtoText(r.protos)) == ProtoText(r.protos)
    ensures ProtoText(r.protos) == "" <==> "tcp" in r.protos && "udp" in r.protos
    ensures ProtoText(r.protos) != "" ==> r.protos == {ProtoText(r.protos)}
  {
    assert ToLower("tcp") == "tcp" && ToLower("udp") == "udp" && ToLower("") == "";
    forall p | p in r.protos ensures p == "tcp" || p == "udp" {
      assert HasProto(entries, r.host, p);
    }
    if "tcp" !in r.protos { assert r.protos == {"udp"}; }
    if "udp" !in r.protos { assert r.protos == {"tcp"}; }
    if |r.protos| == 1 {
      var p :| p in r.protos;
      OnlyElement(r.protos, p);
    }
  }

  lemma {:induction false} MergedLoadableIff(lib: Library, entries: seq<Entry>, r: HostRule)
    requires Usable(lib) && Collected(lib, entries) && r in MergeAll(entries)
    ensures Loadable(lib, r) <==> 0 !in r.ports && (r.domain ==> NameLoads(r.host))
  {
    MergeExact(entries);
    assert Merges(r, entries);
    ProtoTextOf(entries, r);
    NameLoadsIff(r.host);
    if !r.domain {
      LedOnce(entries, r.host, r.domain);
      var e :| e in entries && GoesTo(e, r.host) && e.domain == r.domain;
      var a: IP :| lib.addrText(a) == r.host;
      AddressCidr(lib, a);
    }
  }

  /** What an entry must be for the file to load. */
  predicate EntryLoads(entries: seq<Entry>, i: nat)
    requires i < |entries|
  {
    entries[i].port != 0 && (entries[i].domain && Leads(entries, i) ==> NameLoads(entries[i].host))
  }

  /** A rule has port 0 only from an entry with port 0. */
  lemma {:induction false} PortZeroEntry(entries: seq<Entry>, r: HostRule)
    requires Merges(r, entries)
    ensures 0 in r.ports ==> exists i: nat | i < |entries| :: !IsMetadata(entries[i]) && entries[i].port == 0
  {
    if 0 in r.ports {
      assert HasPort(entries, r.host, 0);
      var e :| e in entries && GoesTo(e, r.host) && e.port == 0;
      var i: nat :| i < |entries| && entries[i] == e;
    }
  }

  lemma {:induction false} RuleLoads(lib: Library, entries: seq<Entry>, r: HostRule)
    requires Usable(lib) && Collected(lib, entries) && r in MergeAll(entries)
    requires forall i: nat | i < |entries| && !IsMetadata(entries[i]) :: EntryLoads(entries, i)
    ensures Loadable(lib, r)
  {
    MergedLoadableIff(lib, entries, r);
    MergeExact(entries);
    assert Merges(r, entries);
    PortZeroEntry(entries, r);
    var i: nat :| i < |entries| && Leads(entries, i) && entries[i].host == r.host && entries[i].domain == r.domain;
    assert EntryLoads(entries, i);
  }

  lemma {:induction false} EntryOfLoadedRule(lib: Library, entries: seq<Entry>, i: nat)
    requires Usable(lib) && Collected(lib, entries) && i < |entries| && !IsMetadata(entries[i])
    requires forall r | r in MergeAll(entries) :: Loadable(lib, r)
    ensures EntryLoads(entries, i)
  {
    var rules, e := MergeAll(entries), entries[i];
    MergeExact(entries);
    assert GoesTo(e, e.host) && HasHost(entries, e.host);
    var r := rules[RuleIndex(rules, e.host).value];
    assert r in rules && Merges(r, entries);
    MergedLoadableIff(lib, entries, r);
    assert HasPort(entries, r.host, e.port);
    LedOnce(entries, r.host, r.domain);
  }

  /** When a learned policy loads: exactly when no entry has port 0 and every name that
      a rule is made for can be put in a rule. Neither is ruled out by what an observer
      collects. */
  lemma {:induction false} LearnedPolicyLoadsIff(lib: Library, entries: seq<Entry>)
    requires Usable(lib) && Collected(lib, entries)
    ensures SetOf(lib, FileOf(entries)).Ok? <==>
              forall i: nat | i < |entries| && !IsMetadata(entries[i]) :: EntryLoads(entries, i)
  {
    FileLoadsIff(lib, entries);
    if forall r | r in MergeAll(entries) :: Loadable(lib, r) {
      forall i: nat | i < |entries| && !IsMetadata(entries[i]) ensures EntryLoads(entries, i) {
        EntryOfLoadedRule(lib, entries, i);
      }
    }
    if forall i: nat | i < |entries| && !IsMetadata(entries[i]) :: EntryLoads(entries, i) {
      forall r | r in MergeAll(entries) ensures Loadable(lib, r) {
        RuleLoads(lib, entries, r);
      }
    }
  }
}
