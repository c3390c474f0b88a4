/** internal/learn/write.go: the learned policy, as the structured file its text
    stands for. Comments, and what only comments need, are left out. */
module Write {
  import opened Wrappers
  import opened Bytes
  import opened Text
  import opened Netip
  import opened Seqs
  import opened Policy
  import opened Learn

  const METADATA_IP: IP := IPv4([169, 254, 169, 254])

  const METADATA_TEXT := "169.254.169.254"

  /** One rule in the making; `protos` is a set of names. */
  datatype HostRule = HostRule(host: string, domain: bool, ports: seq<uint16>, protos: set<string>)

  predicate IsMetadata(e: Entry) {
    !e.domain && e.host == METADATA_TEXT
  }

  function RuleIndex(rules: seq<HostRule>, host: string): Option<nat> {
    FirstIndex(rules, (r: HostRule) => r.host == host)
  }

  /** Merge one entry into the rules. The first entry of a host decides whether the
      rule is for a name or for an address. */
  function MergeOne(rules: seq<HostRule>, e: Entry): (out: seq<HostRule>)
    ensures |rules| <= |out|
  {
    if IsMetadata(e) then rules
    else
      match RuleIndex(rules, e.host)
      case Some(i) => rules[i := rules[i].(ports := rules[i].ports + [e.port], protos := rules[i].protos + {e.proto})]
      case None => rules + [HostRule(e.host, e.domain, [e.port], {e.proto})]
  }

  function MergeAll(entries: seq<Entry>): seq<HostRule> {
    if entries == [] then [] else MergeOne(MergeAll(entries[..|entries| - 1]), entries[|entries| - 1])
  }

  /** Ports in order of first appearance. */
  function Distinct(ports: seq<uint16>): seq<uint16> {
    if ports == [] then []
    else
      var n := |ports| - 1;
      Distinct(ports[..n]) + (if ports[n] in ports[..n] then [] else [ports[n]])
  }

  function PortTexts(ports: seq<uint16>): seq<string> {
    seq(|Distinct(ports)|, k requires 0 <= k < |Distinct(ports)| => Itoa(Distinct(ports)[k]))
  }

  /** The protocol is written when there was only one. */
  ghost function ProtoText(protos: set<string>): string {
    if |protos| == 1 then var p :| p in protos; p else ""
  }

  ghost function RuleText(r: HostRule): Rule {
    Rule(r.host, if r.domain then [r.host] else [], if r.domain then [] else [r.host], PortTexts(r.ports),
        ProtoText(r.protos), "")
  }

  const METADATA_RULE := Rule("cloud-metadata", [], [METADATA_TEXT], [], "", "")

  ghost function RuleTexts(rules: seq<HostRule>): seq<Rule> {
    seq(|rules|, i requires 0 <= i < |rules| => RuleText(rules[i]))
  }

  ghost function FileOf(entries: seq<Entry>): PolicyFile {
    PolicyFile(1, "deny", RuleTexts(MergeAll(entries)), [METADATA_RULE])
  }

  method PortList(ports: seq<uint16>) returns (out: seq<string>)
    ensures out == PortTexts(ports)
  {
    var seen: set<uint16> := {};
    out := [];
    ghost var nums: seq<uint16> := [];
    for i := 0 to |ports|
      invariant seen == set p | p in ports[..i]
      invariant nums == Distinct(ports[..i])
      invariant |out| == |nums| && forall k | 0 <= k < |nums| :: out[k] == Itoa(nums[k])
    {
      assert ports[..i + 1][..i] == ports[..i];
      if ports[i] !in seen {
        seen := seen + {ports[i]};
        out := out + [Itoa(ports[i])];
        nums := nums + [ports[i]];
      }
    }
    assert ports[..|ports|] == ports;
  }

  /** The merging loop, with the table from host to rule. */
  method Merge(entries: seq<Entry>) returns (rules: seq<HostRule>)
    ensures rules == MergeAll(entries)
  {
    rules := [];
    var byHost: map<string, nat> := map[];
    for i := 0 to |entries|
      invariant rules == MergeAll(entries[..i])
      invariant forall h :: RuleIndex(rules, h) == if h in byHost then Some(byHost[h]) else None
    {
      var e := entries[i];
      assert entries[..i + 1][..i] == entries[..i];
      if !e.domain && e.host == METADATA_TEXT {
        continue;
      }
      ghost var before := rules;
      IndexAfterMerge(rules, e);
      if e.host in byHost {
        var j := byHost[e.host];
        var r := rules[j];
        rules := rules[j := r.(ports := r.ports + [e.port], protos := r.protos + {e.proto})];
      } else {
        byHost := byHost[e.host := |rules|];
        rules := rules + [HostRule(e.host, e.domain, [e.port], {e.proto})];
      }
      assert rules == MergeOne(before, e);
    }
    assert entries[..|entries|] == entries;
  }

  /** Merging moves no rule: only a new host gets a new place. */
  lemma {:induction false} IndexAfterMerge(rules: seq<HostRule>, e: Entry)
    requires !IsMetadata(e)
    ensures forall h :: RuleIndex(MergeOne(rules, e), h) ==
              if RuleIndex(rules, h).Some? then RuleIndex(rules, h)
              else if h == e.host then Some(|rules|) else None
  {
    forall h ensures RuleIndex(MergeOne(rules, e), h) ==
              if RuleIndex(rules, h).Some? then RuleIndex(rules, h)
              else if h == e.host then Some(|rules|) else None
    {
      IndexAfterMergeAt(rules, e, h);
    }
  }

  lemma {:induction false} FirstIndexIs(rules: seq<HostRule>, h: string, i: nat)
    requires i < |rules| && rules[i].host == h && forall k | 0 <= k < i :: rules[k].host != h
    ensures RuleIndex(rules, h) == Some(i)
  {
    FirstIndexAt(rules, (r: HostRule) => r.host == h, i);
  }

  lemma {:induction false} IndexAfterMergeAt(rules: seq<HostRule>, e: Entry, h: string)
    requires !IsMetadata(e)
    ensures RuleIndex(MergeOne(rules, e), h) ==
              if RuleIndex(rules, h).Some? then RuleIndex(rules, h)
              else if h == e.host then Some(|rules|) else None
  {
    var out := MergeOne(rules, e);
    assert forall k | 0 <= k < |rules| :: out[k].host == rules[k].host;
    var i := RuleIndex(rules, h);
    if i.Some? {
      FirstIndexIs(out, h, i.value);
    } else if h == e.host {
      FirstIndexIs(out, h, |rules|);
    } else {
      assert forall k | 0 <= k < |out| :: out[k].host != h;
    }
  }

  /** The only element of a one-element set does not depend on how it is picked. */
  lemma {:induction false} OnlyElement(protos: set<string>, p: string)
    requires |protos| == 1 && p in protos
    ensures protos == {p} && ProtoText(protos) == p
  {
    assert |protos - {p}| == 0;
    assert protos - {p} == {};
  }

  /** One rule's lines. */
  method Render(r: HostRule) returns (rule: Rule)
    ensures rule == RuleText(r)
  {
    var ports := PortList(r.ports);
    var proto := "";
    if |r.protos| == 1 {
      proto :| proto in r.protos;
      OnlyElement(r.protos, proto);
    }
    if r.domain {
      rule := Rule(r.host, [r.host], [], ports, proto, "");
    } else {
      rule := Rule(r.host, [], [r.host], ports, proto, "");
    }
  }

  /** WritePolicy: merge, render, and hand the file out only if it compiles. */
  method WritePolicy(lib: Library, entries: seq<Entry>) returns (out: Result<PolicyFile, CompileError>)
    ensures match SetOf(lib, FileOf(entries))
      case Ok(_) => out == Ok(FileOf(entries))
      case Err(e) => out == Err(e)
  {
    var rules := Merge(entries);
    var allow: seq<Rule> := [];
    for i := 0 to |rules|
      invariant allow == RuleTexts(rules)[..i]
    {
      var rule := Render(rules[i]);
      assert RuleTexts(rules)[..i + 1] == RuleTexts(rules)[..i] + [rule];
      allow := allow + [rule];
    }
    assert RuleTexts(rules)[..|rules|] == RuleTexts(rules);
    var file := PolicyFile(1, "deny", allow, [METADATA_RULE]);
    var s := Compile(lib, file);
    match s {
      case Err(e) => return Err(e);
      case Ok(_) => return Ok(file);
    }
  }
}
