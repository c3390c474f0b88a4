/** internal/nft/apply_linux.go: loading a plan. Netlink is "append to the
    ruleset"; the cgroup tree is a snapshot that does not change during a load. */
module Apply {
  import opened Clock
  import opened Wrappers
  import opened Bytes
  import opened Text
  import opened Netip
  import opened Policy
  import opened PolicyLaws
  import opened Plan
  import opened PlanCorrect
  import opened Kernel
  import opened Codegen

  datatype CgroupStat = Found(id: CgroupId) | Absent | Unreadable

  type CgroupFs = string -> CgroupStat

  datatype LoadError = CgroupMissing | CgroupFailed(path: string) | UnknownSet(name: string)

  // ---- fixed rules ----

  const FE80: Octets := [0xfe, 0x80, 0, 0, 0, 0, 0, 0, 0, 0, 0, 0, 0, 0, 0, 0]
  const FF00: Octets := [0xff, 0, 0, 0, 0, 0, 0, 0, 0, 0, 0, 0, 0, 0, 0, 0]

  /** Link-local and multicast, accepted before the policy in every chain. */
  const HOUSEKEEPING: seq<Prefix> :=
    [RawPrefix(IPv6(FE80), 10), RawPrefix(IPv6(FF00), 8), RawPrefix(IPv4([224, 0, 0, 0]), 4)]

  /** "lo" in a 16-byte interface name. */
  const LOOPBACK_NAME: seq<byte> := [0x6c, 0x6f, 0, 0, 0, 0, 0, 0, 0, 0, 0, 0, 0, 0, 0, 0]

  /** "docker" and "br-". */
  const BRIDGE_PREFIXES: seq<seq<byte>> := [[0x64, 0x6f, 0x63, 0x6b, 0x65, 0x72], [0x62, 0x72, 0x2d]]

  /** ESTABLISHED and RELATED, in a little-endian word. */
  const ESTABLISHED_MASK: seq<byte> := [6, 0, 0, 0]

  const LOOPBACK_ACCEPT: Code := [Meta(OifName), Cmp(Eq, LOOPBACK_NAME), AcceptVerdict]

  const ESTABLISHED_ACCEPT: Code := [CtState, Bitwise(ESTABLISHED_MASK), Cmp(Neq, [0, 0, 0, 0]), AcceptVerdict]

  function OifPrefixAccept(name: seq<byte>): Code {
    [Meta(OifName), Cmp(Eq, name), AcceptVerdict]
  }

  function HousekeepingAtom(p: Prefix): Atom {
    Atom(FamilyOf(p), "", ANY_PORT, Some(p), "", "", Allow, "")
  }

  // ---- what a load produces ----

  function AnonymousName(n: nat): string {
    "__set" + Itoa(n)
  }

  const NO_ID: CgroupId := [0, 0, 0, 0, 0, 0, 0, 0]

  function StatOf(fs: CgroupFs, cgroup: string): CgroupStat {
    if cgroup == "" then Found(NO_ID) else fs(cgroup)
  }

  /** What atomExprs returns, when `anon` anonymous sets exist already. */
  function ExprsOf(a: Atom, fs: CgroupFs, known: set<string>, anon: nat): Result<Code, LoadError> {
    match StatOf(fs, a.cgroup)
    case Absent => Err(CgroupMissing)
    case Unreadable => Err(CgroupFailed(a.cgroup))
    case Found(id) =>
      if a.prefix.None? && a.set_ != "" && a.set_ !in known then Err(UnknownSet(a.set_))
      else Ok(AtomCode(a, id, AnonymousName(anon + 1)))
  }

  function AnonAfter(a: Atom, anon: nat): nat {
    if NeedsAnonymous(a) then anon + 1 else anon
  }

  /** Rules appended, anonymous sets made so far, cgroups found missing. */
  datatype Body = Body(code: seq<Code>, anon: nat, missing: set<string>)

  function Prepend(code: seq<Code>, missing: set<string>, rest: Result<Body, LoadError>): Result<Body, LoadError> {
    match rest
    case Err(e) => Err(e)
    case Ok(b) => Ok(Body(code + b.code, b.anon, missing + b.missing))
  }

  /** What one atom adds to a chain; nothing, when its cgroup is missing. */
  function AtomBody(a: Atom, forward: bool, fs: CgroupFs, known: set<string>, anon: nat): Result<Body, LoadError> {
    if !a.InChain(forward) then Ok(Body([], anon, {}))
    else
      match ExprsOf(a, fs, known, anon)
      case Ok(code) => Ok(Body([code], AnonAfter(a, anon), {}))
      case Err(e) => if e == CgroupMissing then Ok(Body([], anon, {a.cgroup})) else Err(e)
  }

  /** The policy part of a chain. */
  function AtomsBody(atoms: seq<Atom>, forward: bool, fs: CgroupFs, known: set<string>, anon: nat): Result<Body,
                     LoadError> {
    if atoms == [] then Ok(Body([], anon, {}))
    else
      match AtomBody(atoms[0], forward, fs, known, anon)
      case Err(e) => Err(e)
      case Ok(b) => Prepend(b.code, b.missing, AtomsBody(atoms[1..], forward, fs, known, b.anon))
  }

  function HousekeepingCode(pfxs: seq<Prefix>): seq<Code> {
    seq(|pfxs|, k requires 0 <= k < |pfxs| => AtomCode(HousekeepingAtom(pfxs[k]), NO_ID, AnonymousName(0)))
  }

  const PREAMBLE: seq<Code> := [ESTABLISHED_ACCEPT] + HousekeepingCode(HOUSEKEEPING)

  function Closing(p: Plan): seq<Code> {
    if p.defaultDeny then [RefuseCode("")] else []
  }

  function ChainOf(p: Plan, forward: bool, fs: CgroupFs, known: set<string>, anon: nat): Result<Body, LoadError> {
    match AtomsBody(p.atoms, forward, fs, known, anon)
    case Err(e) => Err(e)
    case Ok(b) => Ok(Body(PREAMBLE + b.code + Closing(p), b.anon, b.missing))
  }

  function SetsOf(defs: seq<SetDef>): map<string, Family> {
    if defs == [] then map[]
    else
      var n := |defs| - 1;
      SetsOf(defs[..n])[defs[n].name := defs[n].family]
  }

  function BridgeRules(): seq<Code> {
    seq(|BRIDGE_PREFIXES|, k requires 0 <= k < |BRIDGE_PREFIXES| => OifPrefixAccept(BRIDGE_PREFIXES[k]))
  }

  /** A loaded table. */
  datatype Table = Table(
    sets: map<string, Family>,
    output: seq<Code>,
    forward: seq<Code>,
    policy: Outcome,
    anon: nat,
    missing: set<string>)

  function PolicyOutcome(p: Plan): Outcome {
    if p.defaultDeny then Dropped else Accepted
  }

  function TableOf(p: Plan, fs: CgroupFs): Result<Table, LoadError> {
    var sets := SetsOf(p.sets);
    match ChainOf(p, false, fs, sets.Keys, 0)
    case Err(e) => Err(e)
    case Ok(out) =>
      if !p.forward then
        Ok(Table(sets, [LOOPBACK_ACCEPT] + out.code, [], PolicyOutcome(p), out.anon, out.missing))
      else
        match ChainOf(p, true, fs, sets.Keys, out.anon)
        case Err(e) => Err(e)
        case Ok(fwd) =>
          Ok(Table(sets, [LOOPBACK_ACCEPT] + out.code, BridgeRules() + fwd.code, PolicyOutcome(p),
                   fwd.anon, out.missing + fwd.missing))
  }

  const OUTPUT_CHAIN := "output"
  const FORWARD_CHAIN := "forward"

  /** Deadlines of the keys in each set. */
  type Elements = map<string, map<seq<byte>, Time>>

  function EmptySets(names: set<string>): Elements {
    map n | n in names :: map[]
  }

  /** An element to be added: `ip` to the set named `set_`, to live for `ttl`. */
  datatype Add = Add(set_: string, ip: IP, ttl: int)
  {
    function Key(): seq<byte> { ip.Unmap().AsSlice() }
  }

  /** What adding a key that is still in the set does to its deadline; kernels differ. */
  datatype Readd = Replace | Extend | Keep

  type Keys = map<seq<byte>, Time>

  function PutKey(mode: Readd, keys: Keys, key: seq<byte>, now: Time, deadline: Time): Keys {
    if key in keys && ((mode == Extend && keys[key] > deadline) || (mode == Keep && keys[key] >= now)) then keys
    else keys[key := deadline]
  }

  /** Additions taking effect one after the other. */
  function AddAll(mode: Readd, elems: Elements, adds: seq<Add>, now: Time): Elements {
    if adds == [] then elems
    else
      var before := AddAll(mode, elems, adds[..|adds| - 1], now);
      var a := adds[|adds| - 1];
      if a.set_ in before then before[a.set_ := PutKey(mode, before[a.set_], a.Key(), now, now + a.ttl)] else before
  }

  /** The additions that go into one set, in order. */
  function ForSet(adds: seq<Add>, name: string): seq<Add> {
    if adds == [] then []
    else ForSet(adds[..|adds| - 1], name) + (if adds[|adds| - 1].set_ == name then [adds[|adds| - 1]] else [])
  }

  function PutKeys(mode: Readd, keys: Keys, adds: seq<Add>, now: Time): Keys {
    if adds == [] then keys
    else
      var a := adds[|adds| - 1];
      PutKey(mode, PutKeys(mode, keys, adds[..|adds| - 1], now), a.Key(), now, now + a.ttl)
  }

  /** Grouping additions by set changes nothing: each set sees its own, in order. */
  lemma {:induction false} AddAllBySet(mode: Readd, elems: Elements, adds: seq<Add>, now: Time, name: string)
    ensures AddAll(mode, elems, adds, now).Keys == elems.Keys
    ensures name in elems ==>
            AddAll(mode, elems, adds, now)[name] == PutKeys(mode, elems[name], ForSet(adds, name), now)
  {
    if adds != [] {
      var n := |adds| - 1;
      AddAllBySet(mode, elems, adds[..n], now, name);
      var mine := ForSet(adds[..n], name);
      if adds[n].set_ == name {
        assert ForSet(adds, name) == mine + [adds[n]];
        assert (mine + [adds[n]])[..|mine|] == mine;
      } else {
        assert ForSet(adds, name) == mine;
      }
    }
  }

  /** `bySet` holds the additions of each set. */
  ghost predicate Grouped(bySet: map<string, seq<Add>>, adds: seq<Add>) {
    forall n :: ForSet(adds, n) == if n in bySet then bySet[n] else []
  }

  /** One more addition in its group. */
  function Joined(bySet: map<string, seq<Add>>, a: Add): map<string, seq<Add>> {
    bySet[a.set_ := (if a.set_ in bySet then bySet[a.set_] else []) + [a]]
  }

  /** The groups of some additions. */
  function GroupsOf(adds: seq<Add>): map<string, seq<Add>> {
    if adds == [] then map[] else Joined(GroupsOf(adds[..|adds| - 1]), adds[|adds| - 1])
  }

  lemma {:induction false} GroupsAreGrouped(adds: seq<Add>)
    ensures Grouped(GroupsOf(adds), adds)
    ensures forall n | n in GroupsOf(adds) :: exists a | a in adds :: a.set_ == n
  {
    if adds != [] {
      var m := |adds| - 1;
      GroupsAreGrouped(adds[..m]);
      GroupedStep(GroupsOf(adds[..m]), adds[..m], adds[m]);
      assert adds == adds[..m] + [adds[m]];
    }
  }

  lemma {:induction false} GroupedStep(bySet: map<string, seq<Add>>, adds: seq<Add>, a: Add)
    requires Grouped(bySet, adds)
    ensures Grouped(Joined(bySet, a), adds + [a])
  {
    var all := adds + [a];
    assert all[..|all| - 1] == adds;
    forall n ensures ForSet(all, n) == ForSet(adds, n) + (if n == a.set_ then [a] else []) {
    }
  }

  /** Putting the groups in, whatever the order of the sets, is adding one by one. */
  lemma {:induction false} StagedIsAddAll(mode: Readd, elems: Elements, staged: Elements,
          bySet: map<string, seq<Add>>, adds: seq<Add>, now: Time)
    requires Grouped(bySet, adds) && staged.Keys == elems.Keys
    requires forall n | n in elems ::
               staged[n] == if n in bySet then PutKeys(mode, elems[n], bySet[n], now) else elems[n]
    ensures staged == AddAll(mode, elems, adds, now)
  {
    AddAllBySet(mode, elems, adds, now, "");
    forall n | n in elems ensures staged[n] == AddAll(mode, elems, adds, now)[n] {
      AddAllBySet(mode, elems, adds, now, n);
      assert ForSet(adds, n) == if n in bySet then bySet[n] else [];
    }
  }

  /** Every addition names a set of the table. */
  predicate AllKnown(adds: seq<Add>, known: set<string>) {
    forall a | a in adds :: a.set_ in known
  }

  /** `code` was appended to one chain and nothing else changed. */
  predicate Appends(before: map<string, seq<Code>>, chain: string, code: seq<Code>, after: map<string, seq<Code>>) {
    && chain in before && after.Keys == before.Keys
    && after[chain] == before[chain] + code
    && forall c | c in before && c != chain :: after[c] == before[c]
  }

  lemma {:induction false} AppendsTwice(m0: map<string, seq<Code>>, chain: string, c0: seq<Code>,
          m1: map<string, seq<Code>>, c1: seq<Code>, m2: map<string, seq<Code>>)
    requires Appends(m0, chain, c0, m1) && Appends(m1, chain, c1, m2)
    ensures Appends(m0, chain, c0 + c1, m2)
  {
    assert (m0[chain] + c0) + c1 == m0[chain] + (c0 + c1);
  }

  lemma {:induction false} AppendsToNew(m0: map<string, seq<Code>>, chain: string, c0: seq<Code>,
          m1: map<string, seq<Code>>, c1: seq<Code>, m2: map<string, seq<Code>>)
    requires chain !in m0 && Appends(m0[chain := []], chain, c0, m1) && Appends(m1, chain, c1, m2)
    ensures m2 == m0[chain := c0 + c1]
  {
    AppendsTwice(m0[chain := []], chain, c0, m1, c1, m2);
    assert [] + (c0 + c1) == c0 + c1;
  }

  /** A plan that has been loaded, or is being loaded, into the kernel. */
  class Handle {
    var sets: map<string, Family>
    var anon: nat
    var missing: set<string>
    var chains: map<string, seq<Code>>
    var policy: Outcome
    /** What the kernel keeps in each set: the deadline of every key. */
    var elems: Elements

    constructor ()
      ensures sets == map[] && anon == 0 && missing == {} && chains == map[] && policy == Accepted && elems == map[]
    {
      sets, anon, missing, chains, policy, elems := map[], 0, {}, map[], Accepted, map[];
    }

    method AddRule(chain: string, code: Code)
      requires chain in chains
      modifies this`chains
      ensures Appends(old(chains), chain, [code], chains)
    {
      chains := chains[chain := chains[chain] + [code]];
    }

    /** Make an anonymous {tcp, udp} set and return the lookup against it. */
    method TcpOrUdp() returns (e: Code)
      modifies this`anon
      ensures anon == old(anon) + 1
      ensures e == [Meta(L4Proto), Lookup(AnonymousName(anon))]
    {
      anon := anon + 1;
      e := [Meta(L4Proto), Lookup(AnonymousName(anon))];
    }

    /** The destination address part of atomExprs. */
    method DaddrExprs(a: Atom) returns (e: Code)
      requires a.prefix.Some? ==> a.family == FamilyOf(a.prefix.value)
      ensures e == DaddrCode(a)
    {
      e := [];
      match a.prefix {
        case Some(p) =>
          e := e + [DaddrLoad(a.family)];
          var size := 4;
          if a.family == V6 {
            size := 16;
          }
          if p.bits < size * 8 {
            var mask := BuildMask(p.bits, size);
            e := e + [Bitwise(mask)];
          }
          e := e + [Cmp(Eq, Masked(p).addr.AsSlice())];
        case None =>
          if a.set_ != "" {
            e := e + [DaddrLoad(a.family), Lookup(a.set_)];
          }
      }
    }

    /** The protocol part of atomExprs. */
    method ProtoExprs(a: Atom) returns (e: Code)
      modifies this`anon
      ensures anon == AnonAfter(a, old(anon))
      ensures e == ProtoCode(a, AnonymousName(old(anon) + 1))
    {
      if a.proto != "" {
        var l4 := TCP;
        if a.proto == "udp" {
          l4 := UDP;
        }
        e := [Meta(L4Proto), Cmp(Eq, [l4])];
      } else if a.port.hi != 0 {
        e := TcpOrUdp();
      } else {
        e := [];
      }
    }

    method AtomExprs(a: Atom, fs: CgroupFs) returns (r: Result<Code, LoadError>)
      requires a.prefix.Some? ==> a.family == FamilyOf(a.prefix.value)
      modifies this`anon
      ensures r == ExprsOf(a, fs, sets.Keys, old(anon))
      ensures anon == if r.Ok? then AnonAfter(a, old(anon)) else old(anon)
    {
      var e: Code := [];
      ghost var found := NO_ID;
      if a.cgroup != "" {
        match fs(a.cgroup) {
          case Absent => return Err(CgroupMissing);
          case Unreadable => return Err(CgroupFailed(a.cgroup));
          case Found(id) =>
            e := e + [Socket(CgroupLevel(a.cgroup)), Cmp(Eq, id)];
            found := id;
        }
      }
      assert e == CgroupCode(a.cgroup, found);
      if a.family != AnyFamily {
        var proto := NFPROTO_IPV4;
        if a.family == V6 {
          proto := NFPROTO_IPV6;
        }
        e := e + [Meta(NfProto), Cmp(Eq, [proto])];
      }
      assert e == CgroupCode(a.cgroup, found) + FamilyCode(a.family);
      if a.prefix.None? && a.set_ != "" && a.set_ !in sets {
        return Err(UnknownSet(a.set_));
      }
      var daddr := DaddrExprs(a);
      var proto := ProtoExprs(a);
      e := e + daddr + proto + PortCode(a.port);
      if a.verdict == Allow {
        e := e + [AcceptVerdict];
      } else {
        e := e + RefuseCode(a.rule);
      }
      assert e == AtomCode(a, found, AnonymousName(old(anon) + 1));
      return Ok(e);
    }

    /** The loop of chainBody over the fixed destinations. */
    method HousekeepingRules(chain: string, fs: CgroupFs)
      requires chain in chains
      modifies this`chains, this`anon
      ensures Appends(old(chains), chain, HousekeepingCode(HOUSEKEEPING), chains)
      ensures anon == old(anon)
    {
      ghost var all := HousekeepingCode(HOUSEKEEPING);
      for k := 0 to |HOUSEKEEPING|
        invariant anon == old(anon)
        invariant Appends(old(chains), chain, all[..k], chains)
      {
        var a := HousekeepingAtom(HOUSEKEEPING[k]);
        var r := AtomExprs(a, fs);
        ghost var before := chains;
        AddRule(chain, r.value);
        AppendsTwice(old(chains), chain, all[..k], before, [r.value], chains);
        assert all[..k + 1] == all[..k] + [r.value];
      }
      assert all[..|HOUSEKEEPING|] == all;
    }

    /** One turn of chainBody's loop over the plan's atoms. */
    method AtomRule(chain: string, a: Atom, forward: bool, fs: CgroupFs) returns (err: Option<LoadError>)
      requires chain in chains && GoodAtom(a)
      modifies this`chains, this`anon, this`missing
      ensures match AtomBody(a, forward, fs, sets.Keys, old(anon))
        case Err(e) => err == Some(e)
        case Ok(b) =>
          && err == None && anon == b.anon && missing == old(missing) + b.missing
          && Appends(old(chains), chain, b.code, chains)
    {
      if !a.InChain(forward) {
        return None;
      }
      var exprs := AtomExprs(a, fs);
      if exprs.Err? && exprs.error == CgroupMissing {
        missing := missing + {a.cgroup};
        return None;
      }
      if exprs.Err? {
        return Some(exprs.error);
      }
      AddRule(chain, exprs.value);
      return None;
    }

    method AtomRules(chain: string, atoms: seq<Atom>, forward: bool, fs: CgroupFs) returns (err: Option<LoadError>)
      requires chain in chains && forall a | a in atoms :: GoodAtom(a)
      modifies this`chains, this`anon, this`missing
      ensures match AtomsBody(atoms, forward, fs, sets.Keys, old(anon))
        case Err(e) => err == Some(e)
        case Ok(b) =>
          && err == None && anon == b.anon && missing == old(missing) + b.missing
          && Appends(old(chains), chain, b.code, chains)
    {
      ghost var known := sets.Keys;
      ghost var all := AtomsBody(atoms, forward, fs, known, anon);
      ghost var code: seq<Code>, skipped: set<string> := [], {};
      PrependNothing(all);
      assert atoms[0..] == atoms;
      for i := 0 to |atoms|
        invariant all == Prepend(code, skipped, AtomsBody(atoms[i..], forward, fs, known, anon))
        invariant missing == old(missing) + skipped
        invariant Appends(old(chains), chain, code, chains)
      {
        ghost var one := AtomBody(atoms[i], forward, fs, known, anon);
        ghost var before := chains;
        AtomsTurn(atoms, i, forward, fs, known, anon, code, skipped);
        err := AtomRule(chain, atoms[i], forward, fs);
        if err.Some? {
          assert all == Err(err.value);
          return;
        }
        ghost var b := one.value;
        assert missing == old(missing) + (skipped + b.missing);
        AppendsTwice(old(chains), chain, code, before, b.code, chains);
        code, skipped := code + b.code, skipped + b.missing;
      }
      return None;
    }

    method ChainBody(chain: string, p: Plan, forward: bool, fs: CgroupFs) returns (err: Option<LoadError>)
      requires chain in chains && forall a | a in p.atoms :: GoodAtom(a)
      modifies this`chains, this`anon, this`missing
      ensures match ChainOf(p, forward, fs, sets.Keys, old(anon))
        case Err(e) => err == Some(e)
        case Ok(b) =>
          && err == None && anon == b.anon && missing == old(missing) + b.missing
          && Appends(old(chains), chain, b.code, chains)
    {
      AddRule(chain, ESTABLISHED_ACCEPT);
      ghost var c1 := chains;
      HousekeepingRules(chain, fs);
      ghost var c2 := chains;
      AppendsTwice(old(chains), chain, [ESTABLISHED_ACCEPT], c1, HousekeepingCode(HOUSEKEEPING), c2);
      err := AtomRules(chain, p.atoms, forward, fs);
      if err.Some? {
        return;
      }
      ghost var c3 := chains;
      ghost var code := AtomsBody(p.atoms, forward, fs, sets.Keys, old(anon)).value.code;
      AppendsTwice(old(chains), chain, PREAMBLE, c2, code, c3);
      if p.defaultDeny {
        AddRule(chain, RefuseCode(""));
        AppendsTwice(old(chains), chain, PREAMBLE + code, c3, [RefuseCode("")], chains);
      } else {
        assert PREAMBLE + code + [] == PREAMBLE + code;
      }
    }

    method DeclareSets(defs: seq<SetDef>)
      requires sets == map[] && elems == map[]
      modifies this`sets, this`elems
      ensures sets == SetsOf(defs) && elems == EmptySets(sets.Keys)
    {
      for i := 0 to |defs|
        invariant sets == SetsOf(defs[..i]) && elems == EmptySets(sets.Keys)
      {
        assert defs[..i + 1][..i] == defs[..i];
        sets := sets[defs[i].name := defs[i].family];
        elems := elems[defs[i].name := map[]];
      }
      assert defs[..|defs|] == defs;
    }

    /** The second loop of AddAddrs: one batch of elements for each set. */
    method PutBySet(bySet: map<string, seq<Add>>, mode: Readd, now: Time) returns (staged: Elements)
      requires bySet.Keys <= elems.Keys
      ensures staged.Keys == elems.Keys
      ensures forall n | n in elems ::
                staged[n] == if n in bySet then PutKeys(mode, elems[n], bySet[n], now) else elems[n]
    {
      staged := elems;
      var todo := bySet.Keys;
      while todo != {}
        invariant todo <= bySet.Keys && staged.Keys == elems.Keys
        invariant forall n | n in elems ::
                    staged[n] == if n in bySet && n !in todo then PutKeys(mode, elems[n], bySet[n], now) else elems[n]
        decreases todo
      {
        var name :| name in todo;
        todo := todo - {name};
        staged := staged[name := PutKeys(mode, staged[name], bySet[name], now)];
      }
    }

    /** The first loop of AddAddrs. */
    method GroupBySet(adds: seq<Add>) returns (ok: bool, bySet: map<string, seq<Add>>)
      ensures ok <==> AllKnown(adds, sets.Keys)
      ensures ok ==> bySet.Keys <= sets.Keys
      ensures ok ==> Grouped(bySet, adds)
    {
      bySet := map[];
      for i := 0 to |adds|
        invariant forall k | 0 <= k < i :: adds[k].set_ in sets
        invariant bySet == GroupsOf(adds[..i])
      {
        var a := adds[i];
        if a.set_ !in sets {
          assert a in adds;
          return false, bySet;
        }
        assert adds[..i + 1][..i] == adds[..i];
        bySet := bySet[a.set_ := (if a.set_ in bySet then bySet[a.set_] else []) + [a]];
      }
      assert adds[..|adds|] == adds;
      GroupsAreGrouped(adds);
      return true, bySet;
    }

    /** Put addresses into sets, in one batch. Nothing changes unless every set
        exists and the batch is committed. */
    method AddAddrs(adds: seq<Add>, mode: Readd, now: Time, flushOk: bool) returns (err: bool)
      requires sets.Keys == elems.Keys
      modifies this`elems
      ensures err == (adds != [] && !(AllKnown(adds, sets.Keys) && flushOk))
      ensures elems == if AllKnown(adds, sets.Keys) && flushOk then AddAll(mode, old(elems), adds, now) else old(elems)
    {
      if |adds| == 0 {
        return false;
      }
      var ok, bySet := GroupBySet(adds);
      if !ok {
        return true;
      }
      var staged := PutBySet(bySet, mode, now);
      StagedIsAddAll(mode, elems, staged, bySet, adds, now);
      if !flushOk {
        return true;
      }
      elems := staged;
      return false;
    }

    method AddRules(chain: string, codes: seq<Code>)
      requires chain in chains
      modifies this`chains
      ensures Appends(old(chains), chain, codes, chains)
    {
      for k := 0 to |codes|
        invariant Appends(old(chains), chain, codes[..k], chains)
      {
        ghost var before := chains;
        AddRule(chain, codes[k]);
        AppendsTwice(old(chains), chain, codes[..k], before, [codes[k]], chains);
        assert codes[..k + 1] == codes[..k] + [codes[k]];
      }
      assert codes[..|codes|] == codes;
    }

    /** Add a chain, its opening rules, and its body. */
    method BuildChain(chain: string, opening: seq<Code>, p: Plan, forward: bool, fs: CgroupFs)
      returns (err: Option<LoadError>)
      requires chain !in chains && forall a | a in p.atoms :: GoodAtom(a)
      modifies this`chains, this`anon, this`missing
      ensures match ChainOf(p, forward, fs, sets.Keys, old(anon))
        case Err(e) => err == Some(e)
        case Ok(b) =>
          && err == None && anon == b.anon && missing == old(missing) + b.missing
          && chains == old(chains)[chain := opening + b.code]
    {
      chains := chains[chain := []];
      AddRules(chain, opening);
      ghost var before := chains;
      err := ChainBody(chain, p, forward, fs);
      if err.None? {
        ghost var body := ChainOf(p, forward, fs, sets.Keys, old(anon)).value.code;
        AppendsToNew(old(chains), chain, opening, before, body, chains);
      }
    }
  }

  /** One turn of the loop over atoms, on the specification's side. */
  lemma {:induction false} AtomsTurn(atoms: seq<Atom>, i: nat, forward: bool, fs: CgroupFs, known: set<string>,
          anon: nat, code: seq<Code>, skipped: set<string>)
    requires i < |atoms|
    ensures var one := AtomBody(atoms[i], forward, fs, known, anon);
            var all := Prepend(code, skipped, AtomsBody(atoms[i..], forward, fs, known, anon));
            && (one.Err? ==> all == Err(one.error))
            && (one.Ok? ==>
                  all == Prepend(code + one.value.code, skipped + one.value.missing,
                                 AtomsBody(atoms[i + 1..], forward, fs, known, one.value.anon)))
  {
    assert atoms[i..][0] == atoms[i] && atoms[i..][1..] == atoms[i + 1..];
    var one := AtomBody(atoms[i], forward, fs, known, anon);
    if one.Ok? {
      PrependTwice(code, one.value.code, skipped, one.value.missing,
                   AtomsBody(atoms[i + 1..], forward, fs, known, one.value.anon));
    }
  }

  lemma {:induction false} PrependNothing(rest: Result<Body, LoadError>)
    ensures Prepend([], {}, rest) == rest
  {
    if rest.Ok? {
      assert [] + rest.value.code == rest.value.code && {} + rest.value.missing == rest.value.missing;
    }
  }

  lemma {:induction false} PrependTwice(c0: seq<Code>, c1: seq<Code>, m0: set<string>, m1: set<string>,
          rest: Result<Body, LoadError>)
    ensures Prepend(c0, m0, Prepend(c1, m1, rest)) == Prepend(c0 + c1, m0 + m1, rest)
  {
    if rest.Ok? {
      assert c0 + (c1 + rest.value.code) == (c0 + c1) + rest.value.code;
      assert m0 + (m1 + rest.value.missing) == (m0 + m1) + rest.value.missing;
    }
  }

  /** Apply: declare the sets, then build the output chain and, when asked for,
      the forward chain. */
  method Apply(p: Plan, fs: CgroupFs) returns (h: Handle, err: Option<LoadError>)
    requires forall a | a in p.atoms :: GoodAtom(a)
    ensures fresh(h)
    ensures match TableOf(p, fs)
      case Err(e) => err == Some(e)
      case Ok(t) =>
        && err == None && h.sets == t.sets && h.anon == t.anon && h.missing == t.missing && h.policy == t.policy
        && h.elems == EmptySets(t.sets.Keys)
        && OUTPUT_CHAIN in h.chains && h.chains[OUTPUT_CHAIN] == t.output
        && (p.forward ==> FORWARD_CHAIN in h.chains && h.chains[FORWARD_CHAIN] == t.forward)
  {
    h := new Handle();
    h.DeclareSets(p.sets);
    h.policy := if p.defaultDeny then Dropped else Accepted;
    err := h.BuildChain(OUTPUT_CHAIN, [LOOPBACK_ACCEPT], p, false, fs);
    if err.Some? || !p.forward {
      return;
    }
    err := h.BuildChain(FORWARD_CHAIN, BridgeRules(), p, true, fs);
  }
}
