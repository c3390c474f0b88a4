/** What `-print` shows: the plan in nft syntax, clause by clause, and the proof
    that it is the ruleset Apply loads. */
module Printed {
  import opened Wrappers
  import opened Bytes
  import opened Text
  import opened Netip
  import opened Seqs
  import opened Policy
  import opened PolicyLaws
  import opened Plan
  import opened PlanCorrect
  import opened Kernel
  import opened Codegen
  import opened Apply
  import opened TableCorrect

  datatype PortText = One(port: uint16) | Span(lo: uint16, hi: uint16)

  datatype AddrText = Whole(addr: IP) | Net(prefix: Prefix)

  /** The words of a rule, in nft syntax. `v6` tells "ip6" from "ip". */
  datatype Clause =
    | OifLoopback
    | OifNameStar(name: seq<byte>)
    | CtEstablished
    | SocketCgroup(level: nat, path: string)
    | Daddr(v6: bool, addr: AddrText)
    | DaddrSet(v6: bool, set_: string)
    | Dport(proto: string, port: PortText)
    | MetaL4(proto: string)
    | ThDport(port: PortText)
    | AcceptWord
    | LogReject(prefix: string)

  type Line = seq<Clause>

  function FamilyWord(f: Family): bool { f == V6 }

  function PrefixText(p: Prefix): AddrText {
    if p.bits == p.addr.BitLen() then Whole(p.addr) else Net(p)
  }

  function PortRangeText(pr: PortRange): PortText {
    if pr.lo == pr.hi then One(pr.lo) else Span(pr.lo, pr.hi)
  }

  function CgroupText(a: Atom): Line {
    if a.cgroup == "" then [] else [SocketCgroup(CgroupLevel(a.cgroup), a.cgroup)]
  }

  function DaddrText(a: Atom): Line {
    match a.prefix
    case Some(p) => [Daddr(FamilyWord(a.family), PrefixText(p))]
    case None => if a.set_ != "" then [DaddrSet(FamilyWord(a.family), a.set_)] else []
  }

  function TransportText(a: Atom): Line {
    if a.proto != "" && a.port.hi != 0 then [Dport(a.proto, PortRangeText(a.port))]
    else if a.proto != "" then [MetaL4(a.proto)]
    else if a.port.hi != 0 then [ThDport(PortRangeText(a.port))]
    else []
  }

  function VerdictText(v: Verdict, rule: string): Clause {
    if v == Allow then AcceptWord else LogReject(LogPrefix(rule))
  }

  /** Atom.text. */
  function AtomText(a: Atom): Line {
    CgroupText(a) + DaddrText(a) + TransportText(a) + [VerdictText(a.verdict, a.rule)]
  }

  function HousekeepingText(hs: seq<Prefix>): seq<Line> {
    seq(|hs|, k requires 0 <= k < |hs| => [Daddr(FamilyWord(FamilyOf(hs[k])), Net(hs[k])), AcceptWord])
  }

  function AtomsText(atoms: seq<Atom>, forward: bool): seq<Line> {
    if atoms == [] then []
    else (if atoms[0].InChain(forward) then [AtomText(atoms[0])] else []) + AtomsText(atoms[1..], forward)
  }

  function ChainText(p: Plan, forward: bool): seq<Line> {
    [[CtEstablished, AcceptWord]] + HousekeepingText(HOUSEKEEPING) + AtomsText(p.atoms, forward)
    + (if p.defaultDeny then [[LogReject(LogPrefix(""))]] else [])
  }

  method PrintHousekeeping(before: seq<Line>) returns (b: seq<Line>)
    ensures b == before + HousekeepingText(HOUSEKEEPING)
  {
    b := before;
    ghost var text := HousekeepingText(HOUSEKEEPING);
    for k := 0 to |HOUSEKEEPING|
      invariant b == before + text[..k]
    {
      b := b + [[Daddr(FamilyWord(FamilyOf(HOUSEKEEPING[k])), Net(HOUSEKEEPING[k])), AcceptWord]];
      assert text[..k + 1] == text[..k] + [text[k]];
    }
    assert text[..|HOUSEKEEPING|] == text;
  }

  method PrintAtoms(atoms: seq<Atom>, forward: bool, before: seq<Line>) returns (b: seq<Line>)
    ensures b == before + AtomsText(atoms, forward)
  {
    b := before;
    assert atoms[0..] == atoms;
    for i := 0 to |atoms|
      invariant b + AtomsText(atoms[i..], forward) == before + AtomsText(atoms, forward)
    {
      assert atoms[i..][0] == atoms[i] && atoms[i..][1..] == atoms[i + 1..];
      ghost var rest := AtomsText(atoms[i + 1..], forward);
      if !atoms[i].InChain(forward) {
        assert [] + rest == rest;
        continue;
      }
      assert b + ([AtomText(atoms[i])] + rest) == (b + [AtomText(atoms[i])]) + rest;
      b := b + [AtomText(atoms[i])];
    }
    assert AtomsText(atoms[|atoms|..], forward) == [];
  }

  lemma {:induction false} ChainTextAfter(before: seq<Line>, p: Plan, forward: bool, closing: seq<Line>)
    requires closing == if p.defaultDeny then [[LogReject(LogPrefix(""))]] else []
    ensures var fixed := before + [[CtEstablished, AcceptWord]] + HousekeepingText(HOUSEKEEPING);
            fixed + AtomsText(p.atoms, forward) + closing == before + ChainText(p, forward)
  {
    var a, b := [[CtEstablished, AcceptWord]], HousekeepingText(HOUSEKEEPING);
    var c := AtomsText(p.atoms, forward);
    Regroup(before, a, b);
    Regroup(before, a + b, c);
    Regroup(before, a + b + c, closing);
  }

  /** Plan.chainBody. */
  method PrintChainBody(p: Plan, forward: bool, before: seq<Line>) returns (b: seq<Line>)
    ensures b == before + ChainText(p, forward)
  {
    b := before + [[CtEstablished, AcceptWord]];
    b := PrintHousekeeping(b);
    b := PrintAtoms(p.atoms, forward, b);
    ghost var closing: seq<Line> := if p.defaultDeny then [[LogReject(LogPrefix(""))]] else [];
    ChainTextAfter(before, p, forward, closing);
    if p.defaultDeny {
      b := b + [[LogReject(LogPrefix(""))]];
    } else {
      assert b + [] == b;
    }
  }

  // ---- what nft makes of a line ----

  predicate PortHolds(t: PortText, port: uint16) {
    match t
    case One(n) => port == n
    case Span(lo, hi) => lo <= port <= hi
  }

  predicate AddrHolds(t: AddrText, dst: IP) {
    match t
    case Whole(a) => dst == a
    case Net(p) => p.Contains(dst)
  }

  /** "ip daddr" implies the family and "tcp dport" the protocol. A cgroup is found among
      the socket's ancestors only at its own level. */
  predicate Holds(c: Clause, p: Packet, f: Flow, sets: SetTable) {
    match c
    case OifLoopback => LOOPBACK_NAME <= p.oifname
    case OifNameStar(name) => name <= p.oifname
    case CtEstablished => Established(p)
    case SocketCgroup(level, path) => level == CgroupLevel(path) && path in f.inside
    case Daddr(v6, t) => f.dst.IPv6? == v6 && AddrHolds(t, f.dst)
    case DaddrSet(v6, name) => f.dst.IPv6? == v6 && HasKey(sets, name, f.dst.AsSlice())
    case Dport(proto, t) => ProtoMatches(proto, f.l4) && PortHolds(t, f.port)
    case MetaL4(proto) => ProtoMatches(proto, f.l4)
    case ThDport(t) => HasPorts(f.l4) && PortHolds(t, f.port)
    case AcceptWord => true
    case LogReject(_) => true
  }

  function RunLine(line: Line, p: Packet, f: Flow, sets: SetTable): Outcome {
    if line == [] then Continue
    else
      match line[0]
      case AcceptWord => Accepted
      case LogReject(prefix) => Refused(prefix)
      case c => if Holds(c, p, f, sets) then RunLine(line[1..], p, f, sets) else Continue
  }

  function RunLines(lines: seq<Line>, policy: Outcome, p: Packet, f: Flow, sets: SetTable): Outcome {
    if lines == [] then policy
    else if RunLine(lines[0], p, f, sets) != Continue then RunLine(lines[0], p, f, sets)
    else RunLines(lines[1..], policy, p, f, sets)
  }

  lemma {:induction false} RunLineTests(tests: Line, rest: Line, p: Packet, f: Flow, sets: SetTable)
    requires forall c | c in tests :: !c.AcceptWord? && !c.LogReject?
    ensures RunLine(tests + rest, p, f, sets) ==
              if forall c | c in tests :: Holds(c, p, f, sets) then RunLine(rest, p, f, sets) else Continue
  {
    if tests == [] {
      assert tests + rest == rest;
    } else {
      RunLineTests(tests[1..], rest, p, f, sets);
      assert (tests + rest)[1..] == tests[1..] + rest;
      assert forall c :: c in tests <==> c == tests[0] || c in tests[1..];
    }
  }

  predicate AllHold(line: Line, p: Packet, f: Flow, sets: SetTable) {
    forall c | c in line :: Holds(c, p, f, sets)
  }

  lemma {:induction false} OneHolds(c: Clause, p: Packet, f: Flow, sets: SetTable)
    ensures AllHold([c], p, f, sets) <==> Holds(c, p, f, sets)
  {
    assert c in [c];
  }

  lemma {:induction false} PrefixTextHolds(pfx: Prefix, dst: IP)
    ensures AddrHolds(PrefixText(pfx), dst) <==> pfx.Contains(dst)
  {
    if pfx.bits == pfx.addr.BitLen() {
      FullPrefixContains(pfx.addr, dst);
      assert pfx == RawPrefix(pfx.addr, pfx.addr.BitLen());
    }
  }

  lemma {:induction false} DaddrTextHolds(a: Atom, p: Packet, f: Flow, sets: SetTable)
    requires GoodAtom(a)
    ensures AllHold(DaddrText(a), p, f, sets) <==> FamilyMatches(a, f.dst) && DaddrMatches(a, f.dst, sets)
  {
    if DaddrText(a) != [] {
      OneHolds(DaddrText(a)[0], p, f, sets);
    }
    if a.prefix.Some? {
      PrefixTextHolds(a.prefix.value, f.dst);
    }
  }

  lemma {:induction false} TransportTextHolds(a: Atom, p: Packet, f: Flow, sets: SetTable)
    ensures AllHold(TransportText(a), p, f, sets) <==> TransportMatches(a.proto, a.port, f)
  {
    if TransportText(a) != [] {
      OneHolds(TransportText(a)[0], p, f, sets);
    }
  }

  /** A printed rule matches what its atom matches. */
  lemma {:induction false} AtomTextMatches(a: Atom, p: Packet, f: Flow, sets: SetTable)
    requires GoodAtom(a)
    ensures RunLine(AtomText(a), p, f, sets) ==
              if AtomMatches(a, f, sets) then VerdictOutcome(a.verdict, a.rule) else Continue
  {
    var c0, c1, c2 := CgroupText(a), DaddrText(a), TransportText(a);
    RunLineTests(c0 + c1 + c2, [VerdictText(a.verdict, a.rule)], p, f, sets);
    OneHolds(SocketCgroup(CgroupLevel(a.cgroup), a.cgroup), p, f, sets);
    DaddrTextHolds(a, p, f, sets);
    TransportTextHolds(a, p, f, sets);
    assert AllHold(c0 + c1 + c2, p, f, sets) <==>
           AllHold(c0, p, f, sets) && AllHold(c1, p, f, sets) && AllHold(c2, p, f, sets) by {
      assert forall c :: c in c0 + c1 + c2 <==> c in c0 || c in c1 || c in c2;
    }
  }

  lemma {:induction false} RunLinesConcat(a: seq<Line>, b: seq<Line>, policy: Outcome, p: Packet, f: Flow,
          sets: SetTable)
    ensures RunLines(a + b, policy, p, f, sets) == RunLines(a, RunLines(b, policy, p, f, sets), p, f, sets)
  {
    if a == [] {
      assert a + b == b;
    } else {
      RunLinesConcat(a[1..], b, policy, p, f, sets);
      assert (a + b)[1..] == a[1..] + b;
    }
  }

  lemma {:induction false} AtomsTextRuns(atoms: seq<Atom>, forward: bool, policy: Outcome, p: Packet, f: Flow,
          sets: SetTable)
    requires forall a | a in atoms :: GoodAtom(a)
    requires forward ==> forall a | a in atoms && a.cgroup != "" :: a.cgroup !in f.inside
    ensures RunLines(AtomsText(atoms, forward), policy, p, f, sets) == AtomOutcome(atoms, f, sets, policy)
  {
    if atoms != [] {
      var a, line := atoms[0], AtomText(atoms[0]);
      var rest := AtomsText(atoms[1..], forward);
      AtomTextMatches(a, p, f, sets);
      AtomsTextRuns(atoms[1..], forward, policy, p, f, sets);
      if a.InChain(forward) {
        assert ([line] + rest)[1..] == rest;
      } else {
        assert a in atoms;
        assert [] + rest == rest;
      }
    }
  }

  lemma {:induction false} HousekeepingTextRuns(hs: seq<Prefix>, rest: Outcome, p: Packet, f: Flow, sets: SetTable)
    ensures RunLines(HousekeepingText(hs), rest, p, f, sets)
         == if exists h | h in hs :: h.Contains(f.dst) then Accepted else rest
  {
    if hs != [] {
      HousekeepingTextRuns(hs[1..], rest, p, f, sets);
      var line := HousekeepingText(hs)[0];
      RunLineTests([line[0]], [AcceptWord], p, f, sets);
      assert line == [line[0]] + [AcceptWord];
      assert HousekeepingText(hs)[1..] == HousekeepingText(hs[1..]);
      assert forall h :: h in hs <==> h == hs[0] || h in hs[1..];
    }
  }

  lemma {:induction false} EstablishedTextRuns(rest: Outcome, p: Packet, f: Flow, sets: SetTable)
    ensures RunLines([[CtEstablished, AcceptWord]], rest, p, f, sets) == if Established(p) then Accepted else rest
  {
    RunLineTests([CtEstablished], [AcceptWord], p, f, sets);
    OneHolds(CtEstablished, p, f, sets);
    assert [CtEstablished, AcceptWord] == [CtEstablished] + [AcceptWord];
    assert [[CtEstablished, AcceptWord]][1..] == [];
  }

  /** A printed chain body, part by part. */
  lemma {:induction false} ChainTextRuns(p: Plan, forward: bool, pkt: Packet, f: Flow, sets: SetTable)
    requires forall a | a in p.atoms :: GoodAtom(a)
    requires forward ==> forall a | a in p.atoms && a.cgroup != "" :: a.cgroup !in f.inside
    ensures RunLines(ChainText(p, forward), PolicyOutcome(p), pkt, f, sets)
         == if Established(pkt) || IsHousekeeping(f.dst) then Accepted
            else AtomOutcome(p.atoms, f, sets, VerdictOutcome(if p.defaultDeny then Deny else Allow, ""))
  {
    var l0, l1, l2 := [[CtEstablished, AcceptWord]], HousekeepingText(HOUSEKEEPING), AtomsText(p.atoms, forward);
    var l3: seq<Line> := if p.defaultDeny then [[LogReject(LogPrefix(""))]] else [];
    var policy := PolicyOutcome(p);
    var r3 := RunLines(l3, policy, pkt, f, sets);
    assert r3 == VerdictOutcome(if p.defaultDeny then Deny else Allow, "");
    var r2 := RunLines(l2, r3, pkt, f, sets);
    AtomsTextRuns(p.atoms, forward, r3, pkt, f, sets);
    var r1 := RunLines(l1, r2, pkt, f, sets);
    HousekeepingTextRuns(HOUSEKEEPING, r2, pkt, f, sets);
    EstablishedTextRuns(r1, pkt, f, sets);
    RunLinesConcat(l0 + l1 + l2, l3, policy, pkt, f, sets);
    RunLinesConcat(l0 + l1, l2, r3, pkt, f, sets);
    RunLinesConcat(l0, l1, r2, pkt, f, sets);
  }

  /** What is printed is what is loaded: the printed chain body and the loaded
      one send every packet the same way. */
  lemma {:induction false} PrintedIsLoaded(s: PolicySet, p: Plan, forward: bool, fs: CgroupFs, known: set<string>,
          anon: nat, pkt: Packet, f: Flow, sets: SetTable)
    requires WellFormedSet(s) && p.atoms == PlanOf(s).atoms && p.defaultDeny == PlanOf(s).defaultDeny
    requires ChainOf(p, forward, fs, known, anon).Ok? && Carries(pkt, f) && |pkt.ctstate| == 4
    requires AnonymousLoaded(anon, ChainOf(p, forward, fs, known, anon).value.anon, sets)
    requires f.inside == CgroupsById(s, forward, fs, pkt)
    ensures RunLines(ChainText(p, forward), PolicyOutcome(p), pkt, f, sets)
         == RunChain(ChainOf(p, forward, fs, known, anon).value.code, PolicyOutcome(p), pkt, sets)
  {
    PlanAtomsGood(s, 0);
    ChainTextRuns(p, forward, pkt, f, sets);
    OutcomeOfDecision(p.atoms, f, sets, s.def);
    ChainDecides(s, p, forward, fs, known, anon, pkt, f, sets);
  }

  // ---- rule for rule ----

  /** The printed rules are the loaded rules: as many, and in the same order each does
      to the packet what the other does. */
  predicate SameRules(lines: seq<Line>, code: seq<Code>, p: Packet, f: Flow, sets: SetTable) {
    |lines| == |code| && forall k | 0 <= k < |lines| :: RunLine(lines[k], p, f, sets) == RunRule(code[k], p, sets)
  }

  lemma {:induction false} SameConcat(l0: seq<Line>, l1: seq<Line>, c0: seq<Code>, c1: seq<Code>, p: Packet,
          f: Flow, sets: SetTable)
    requires SameRules(l0, c0, p, f, sets) && SameRules(l1, c1, p, f, sets)
    ensures SameRules(l0 + l1, c0 + c1, p, f, sets)
  {
  }

  /** The atoms whose cgroups exist. */
  function PresentAtoms(atoms: seq<Atom>, fs: CgroupFs): seq<Atom> {
    if atoms == [] then []
    else (if StatOf(fs, atoms[0].cgroup).Found? then [atoms[0]] else []) + PresentAtoms(atoms[1..], fs)
  }

  lemma {:induction false} AllPresent(atoms: seq<Atom>, fs: CgroupFs)
    requires forall a | a in atoms :: StatOf(fs, a.cgroup).Found?
    ensures PresentAtoms(atoms, fs) == atoms
  {
    if atoms != [] {
      AllPresent(atoms[1..], fs);
      assert atoms == [atoms[0]] + atoms[1..];
    }
  }

  /** One atom's line and its rule, where it has one. */
  lemma {:induction false} AtomSameRule(a: Atom, forward: bool, fs: CgroupFs, known: set<string>, anon: nat,
          p: Packet, f: Flow, sets: SetTable)
    requires AtomBody(a, forward, fs, known, anon).Ok? && GoodAtom(a) && Carries(p, f)
    requires AnonymousLoaded(anon, AtomBody(a, forward, fs, known, anon).value.anon, sets)
    requires forward || Placed([a], false, fs, p, f)
    ensures SameRules(AtomsText(PresentAtoms([a], fs), forward),
                      AtomBody(a, forward, fs, known, anon).value.code, p, f, sets)
  {
    assert [a][1..] == [];
    if StatOf(fs, a.cgroup).Found? {
      assert PresentAtoms([a], fs) == [a];
      assert AtomsText([a], forward) == if a.InChain(forward) then [AtomText(a)] else [];
    }
    if StatOf(fs, a.cgroup).Found? && a.InChain(forward) {
      assert a in [a];
      AtomCodeCorrect(a, StatOf(fs, a.cgroup).id, AnonymousName(anon + 1), p, f, sets);
      AtomTextMatches(a, p, f, sets);
    }
  }

  lemma {:induction false} TextConcat(xs: seq<Atom>, ys: seq<Atom>, forward: bool)
    ensures AtomsText(xs + ys, forward) == AtomsText(xs, forward) + AtomsText(ys, forward)
  {
    if xs == [] {
      assert xs + ys == ys;
    } else {
      TextConcat(xs[1..], ys, forward);
      assert (xs + ys)[0] == xs[0] && (xs + ys)[1..] == xs[1..] + ys;
      var line: seq<Line> := if xs[0].InChain(forward) then [AtomText(xs[0])] else [];
      assert AtomsText(xs + ys, forward) == line + AtomsText(xs[1..] + ys, forward);
      Regroup(line, AtomsText(xs[1..], forward), AtomsText(ys, forward));
    }
  }

  lemma {:induction false} PresentCons(atoms: seq<Atom>, fs: CgroupFs)
    requires atoms != []
    ensures PresentAtoms(atoms, fs) == PresentAtoms([atoms[0]], fs) + PresentAtoms(atoms[1..], fs)
  {
    assert [atoms[0]][1..] == [];
  }

  lemma {:induction false} AtomsSameRules(atoms: seq<Atom>, forward: bool, fs: CgroupFs, known: set<string>,
          anon: nat, p: Packet, f: Flow, sets: SetTable)
    requires AtomsBody(atoms, forward, fs, known, anon).Ok? && Carries(p, f)
    requires forall a | a in atoms :: GoodAtom(a)
    requires AnonymousLoaded(anon, AtomsBody(atoms, forward, fs, known, anon).value.anon, sets)
    requires forward || Placed(atoms, false, fs, p, f)
    ensures SameRules(AtomsText(PresentAtoms(atoms, fs), forward),
                      AtomsBody(atoms, forward, fs, known, anon).value.code, p, f, sets)
  {
    if atoms != [] {
      var one := AtomBody(atoms[0], forward, fs, known, anon).value;
      var rest := AtomsBody(atoms[1..], forward, fs, known, one.anon).value;
      AnonGrows(atoms[1..], forward, fs, known, one.anon);
      assert atoms[0] in atoms && forall a | a in atoms[1..] :: a in atoms;
      AtomSameRule(atoms[0], forward, fs, known, anon, p, f, sets);
      AtomsSameRules(atoms[1..], forward, fs, known, one.anon, p, f, sets);
      var x, y := PresentAtoms([atoms[0]], fs), PresentAtoms(atoms[1..], fs);
      PresentCons(atoms, fs);
      TextConcat(x, y, forward);
      SameConcat(AtomsText(x, forward), AtomsText(y, forward), one.code, rest.code, p, f, sets);
    }
  }

  lemma {:induction false} HousekeepingSameRules(hs: seq<Prefix>, p: Packet, f: Flow, sets: SetTable)
    requires Carries(p, f)
    ensures SameRules(HousekeepingText(hs), HousekeepingCode(hs), p, f, sets)
  {
    forall k | 0 <= k < |hs|
      ensures RunLine(HousekeepingText(hs)[k], p, f, sets) == RunRule(HousekeepingCode(hs)[k], p, sets)
    {
      var line := HousekeepingText(hs)[k];
      HousekeepingRule(hs[k], p, f, sets);
      RunLineTests([line[0]], [AcceptWord], p, f, sets);
      assert line == [line[0]] + [AcceptWord];
    }
  }

  lemma {:induction false} FixedSameRules(p: Packet, f: Flow, sets: SetTable)
    requires |p.ctstate| == 4
    ensures SameRules([[CtEstablished, AcceptWord]], [ESTABLISHED_ACCEPT], p, f, sets)
    ensures SameRules([[LogReject(LogPrefix(""))]], [RefuseCode("")], p, f, sets)
  {
    EstablishedRule(p, sets);
    RunLineTests([CtEstablished], [AcceptWord], p, f, sets);
    assert [CtEstablished, AcceptWord] == [CtEstablished] + [AcceptWord];
    VerdictPiece(Deny, "", Running([], ""), p, sets);
  }

  lemma {:induction false} ChainSameRules(p: Plan, forward: bool, fs: CgroupFs, known: set<string>, anon: nat,
          pkt: Packet, f: Flow, sets: SetTable)
    requires ChainOf(p, forward, fs, known, anon).Ok? && Carries(pkt, f) && |pkt.ctstate| == 4
    requires forall a | a in p.atoms :: GoodAtom(a)
    requires AnonymousLoaded(anon, ChainOf(p, forward, fs, known, anon).value.anon, sets)
    requires forward || Placed(p.atoms, false, fs, pkt, f)
    ensures SameRules(ChainText(p.(atoms := PresentAtoms(p.atoms, fs)), forward),
                      ChainOf(p, forward, fs, known, anon).value.code, pkt, f, sets)
  {
    var code := AtomsBody(p.atoms, forward, fs, known, anon).value.code;
    var l0, l1 := [[CtEstablished, AcceptWord]], HousekeepingText(HOUSEKEEPING);
    var l2 := AtomsText(PresentAtoms(p.atoms, fs), forward);
    var l3: seq<Line> := if p.defaultDeny then [[LogReject(LogPrefix(""))]] else [];
    FixedSameRules(pkt, f, sets);
    HousekeepingSameRules(HOUSEKEEPING, pkt, f, sets);
    AtomsSameRules(p.atoms, forward, fs, known, anon, pkt, f, sets);
    SameConcat(l0, l1, [ESTABLISHED_ACCEPT], HousekeepingCode(HOUSEKEEPING), pkt, f, sets);
    SameConcat(l0 + l1, l2, PREAMBLE, code, pkt, f, sets);
    SameConcat(l0 + l1 + l2, l3, PREAMBLE + code, Closing(p), pkt, f, sets);
  }

  /** The printed table is the loaded one, rule for rule: leaving out the lines of cgroups
      that do not exist, which are also left out of what is loaded, both chains have as
      many rules as lines, fixed ones included, and in the same order each rule does to
      every packet what its line says. */
  lemma {:induction false} TextIsTableRuleForRule(s: PolicySet, p: Plan, fs: CgroupFs, pkt: Packet, f: Flow,
          sets: SetTable)
    requires WellFormedSet(s) && p.atoms == PlanOf(s).atoms && TableOf(p, fs).Ok?
    requires Carries(pkt, f) && |pkt.ctstate| == 4 && AnonymousLoaded(0, TableOf(p, fs).value.anon, sets)
    ensures var t, text := TableOf(p, fs).value, TextOf(p.(atoms := PresentAtoms(p.atoms, fs)));
            && (f.inside == CgroupsById(s, false, fs, pkt) ==>
                  SameRules(text.output, t.output, pkt, f, sets))
            && SameRules(text.forward, t.forward, pkt, f, sets)
    ensures (forall a | a in p.atoms :: StatOf(fs, a.cgroup).Found?) ==> p.(atoms := PresentAtoms(p.atoms, fs)) == p
  {
    var t, text := TableOf(p, fs).value, TextOf(p.(atoms := PresentAtoms(p.atoms, fs)));
    var known := SetsOf(p.sets).Keys;
    var out := ChainOf(p, false, fs, known, 0).value;
    PlanAtomsGood(s, 0);
    PlanCgroups(s, 0);
    AnonGrows(p.atoms, false, fs, known, 0);
    if p.forward {
      AnonGrows(p.atoms, true, fs, known, out.anon);
      ChainSameRules(p, true, fs, known, out.anon, pkt, f, sets);
      BridgesSameRules(pkt, f, sets);
      SameConcat(BridgeText(), text.forward[|BridgeText()|..], BridgeRules(), t.forward[|BridgeRules()|..], pkt,
          f, sets);
    }
    if f.inside == CgroupsById(s, false, fs, pkt) {
      ChainSameRules(p, false, fs, known, 0, pkt, f, sets);
      OifLineRuns(OifLoopback, pkt, f, sets);
      OifRule(LOOPBACK_NAME, pkt, sets);
      SameConcat([[OifLoopback, AcceptWord]], text.output[1..], [LOOPBACK_ACCEPT], out.code, pkt, f, sets);
    }
    if forall a | a in p.atoms :: StatOf(fs, a.cgroup).Found? {
      AllPresent(p.atoms, fs);
    }
  }

  lemma {:induction false} BridgesSameRules(pkt: Packet, f: Flow, sets: SetTable)
    ensures SameRules(BridgeText(), BridgeRules(), pkt, f, sets)
  {
    forall k | 0 <= k < |BRIDGE_PREFIXES|
      ensures RunLine(BridgeText()[k], pkt, f, sets) == RunRule(BridgeRules()[k], pkt, sets)
    {
      OifLineRuns(OifNameStar(BRIDGE_PREFIXES[k]), pkt, f, sets);
      OifRule(BRIDGE_PREFIXES[k], pkt, sets);
    }
  }

  // ---- the whole printout ----

  /** One set declaration, with its address type. */
  datatype SetLine = SetLine(name: string, v6: bool)

  /** What Text prints: set declarations, then the chains with their rules. */
  datatype Printout = Printout(sets: seq<SetLine>, output: seq<Line>, forward: seq<Line>, policy: Outcome)

  function SetLines(defs: seq<SetDef>): seq<SetLine> {
    seq(|defs|, k requires 0 <= k < |defs| => SetLine(defs[k].name, defs[k].family == V6))
  }

  /** The sets a list of declarations makes. */
  function SetsDeclared(lines: seq<SetLine>): map<string, Family> {
    if lines == [] then map[]
    else
      var n := |lines| - 1;
      SetsDeclared(lines[..n])[lines[n].name := if lines[n].v6 then V6 else V4]
  }

  lemma {:induction false} SetLinesDeclare(defs: seq<SetDef>)
    requires forall d | d in defs :: d.family != AnyFamily
    ensures SetsDeclared(SetLines(defs)) == SetsOf(defs)
  {
    if defs != [] {
      var n := |defs| - 1;
      SetLinesDeclare(defs[..n]);
      assert SetLines(defs)[..n] == SetLines(defs[..n]);
      assert defs[n] in defs;
    }
  }

  lemma {:induction false} PlanSetFamilies(s: PolicySet, i: nat)
    requires i <= |s.rules|
    ensures forall d | d in SetsFrom(s, i) :: d.family != AnyFamily
    decreases |s.rules| - i
  {
    if i < |s.rules| {
      PlanSetFamilies(s, i + 1);
    }
  }

  function BridgeText(): seq<Line> {
    seq(|BRIDGE_PREFIXES|, k requires 0 <= k < |BRIDGE_PREFIXES| => [OifNameStar(BRIDGE_PREFIXES[k]), AcceptWord])
  }

  function TextOf(p: Plan): Printout {
    Printout(
      SetLines(p.sets),
      [[OifLoopback, AcceptWord]] + ChainText(p, false),
      if p.forward then BridgeText() + ChainText(p, true) else [],
      PolicyOutcome(p))
  }

  method PlanText(p: Plan) returns (t: Printout)
    ensures t == TextOf(p)
  {
    var sets: seq<SetLine> := [];
    for k := 0 to |p.sets|
      invariant sets == SetLines(p.sets)[..k]
    {
      sets := sets + [SetLine(p.sets[k].name, p.sets[k].family == V6)];
      assert SetLines(p.sets)[..k + 1] == SetLines(p.sets)[..k] + [SetLines(p.sets)[k]];
    }
    assert SetLines(p.sets)[..|p.sets|] == SetLines(p.sets);
    var output := PrintChainBody(p, false, [[OifLoopback, AcceptWord]]);
    var forward: seq<Line> := [];
    if p.forward {
      for k := 0 to |BRIDGE_PREFIXES|
        invariant forward == BridgeText()[..k]
      {
        forward := forward + [[OifNameStar(BRIDGE_PREFIXES[k]), AcceptWord]];
        assert BridgeText()[..k + 1] == BridgeText()[..k] + [BridgeText()[k]];
      }
      assert BridgeText()[..|BRIDGE_PREFIXES|] == BridgeText();
      forward := PrintChainBody(p, true, forward);
    }
    return Printout(sets, output, forward, if p.defaultDeny then Dropped else Accepted);
  }

  lemma {:induction false} OifLineRuns(c: Clause, p: Packet, f: Flow, sets: SetTable)
    requires c.OifLoopback? || c.OifNameStar?
    ensures RunLine([c, AcceptWord], p, f, sets) == if Holds(c, p, f, sets) then Accepted else Continue
  {
    RunLineTests([c], [AcceptWord], p, f, sets);
    OneHolds(c, p, f, sets);
    assert [c, AcceptWord] == [c] + [AcceptWord];
  }

  /** The printed table and the loaded one have the same sets and send every
      packet the same way, out of the host and, when forwarding, through it. */
  lemma {:induction false} TextIsTable(s: PolicySet, p: Plan, fs: CgroupFs, pkt: Packet, f: Flow, sets: SetTable)
    requires WellFormedSet(s) && p.sets == PlanOf(s).sets && p.atoms == PlanOf(s).atoms
    requires p.defaultDeny == PlanOf(s).defaultDeny && TableOf(p, fs).Ok?
    requires Carries(pkt, f) && |pkt.ctstate| == 4 && AnonymousLoaded(0, TableOf(p, fs).value.anon, sets)
    ensures var t := TableOf(p, fs).value;
            && SetsDeclared(TextOf(p).sets) == t.sets && TextOf(p).policy == t.policy
            && (f.inside == CgroupsById(s, false, fs, pkt) ==>
                  RunLines(TextOf(p).output, t.policy, pkt, f, sets) == RunChain(t.output, t.policy, pkt, sets))
            && (p.forward && f.inside == {} ==>
                  RunLines(TextOf(p).forward, t.policy, pkt, f, sets) == RunChain(t.forward, t.policy, pkt, sets))
  {
    var t := TableOf(p, fs).value;
    var known := SetsOf(p.sets).Keys;
    var out := ChainOf(p, false, fs, known, 0).value;
    PlanSetFamilies(s, 0);
    SetLinesDeclare(p.sets);
    AnonGrows(p.atoms, false, fs, known, 0);
    if p.forward {
      AnonGrows(p.atoms, true, fs, known, out.anon);
    }
    if f.inside == CgroupsById(s, false, fs, pkt) {
      PrintedIsLoaded(s, p, false, fs, known, 0, pkt, f, sets);
      OifLineRuns(OifLoopback, pkt, f, sets);
      OifRule(LOOPBACK_NAME, pkt, sets);
      assert t.output[0] == LOOPBACK_ACCEPT && t.output[1..] == out.code;
      assert TextOf(p).output[1..] == ChainText(p, false);
    }
    if p.forward && f.inside == {} {
      ForwardPlaced(s, fs, pkt);
      var fwd := ChainOf(p, true, fs, known, out.anon).value;
      var rest := RunChain(fwd.code, t.policy, pkt, sets);
      PrintedIsLoaded(s, p, true, fs, known, out.anon, pkt, f, sets);
      RunChainConcat(BridgeRules(), fwd.code, t.policy, pkt, sets);
      BridgesRun(rest, pkt, sets);
      RunLinesConcat(BridgeText(), ChainText(p, true), t.policy, pkt, f, sets);
      BridgeTextRuns(rest, pkt, f, sets);
    }
  }

  lemma {:induction false} BridgeTextRuns(rest: Outcome, pkt: Packet, f: Flow, sets: SetTable)
    ensures RunLines(BridgeText(), rest, pkt, f, sets)
         == if BRIDGE_PREFIXES[0] <= pkt.oifname || BRIDGE_PREFIXES[1] <= pkt.oifname then Accepted else rest
  {
    var lines := BridgeText();
    OifLineRuns(OifNameStar(BRIDGE_PREFIXES[0]), pkt, f, sets);
    OifLineRuns(OifNameStar(BRIDGE_PREFIXES[1]), pkt, f, sets);
    assert lines == [lines[0]] + [lines[1]];
    assert [lines[1]][1..] == [] && [lines[0]][1..] == [];
    RunLinesConcat([lines[0]], [lines[1]], rest, pkt, f, sets);
  }
}
