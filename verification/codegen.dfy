/** The second stage of the compiler, internal/nft/apply_linux.go: one atom into
    one rule of the kernel's machine, and the proof that the rule fires exactly
    on the packets the atom matches. */
module Codegen {
  import opened Wrappers
  import opened Bytes
  import opened Text
  import opened Netip
  import opened Policy
  import opened PolicyLaws
  import opened Plan
  import opened PlanCorrect
  import opened Kernel

  // ---- the code of an atom, piece by piece ----

  function CgroupCode(cgroup: string, id: CgroupId): Code {
    if cgroup == "" then [] else [Socket(CgroupLevel(cgroup)), Cmp(Eq, id)]
  }

  function FamilyCode(f: Family): Code {
    match f
    case AnyFamily => []
    case V4 => [Meta(NfProto), Cmp(Eq, [NFPROTO_IPV4])]
    case V6 => [Meta(NfProto), Cmp(Eq, [NFPROTO_IPV6])]
  }

  function DaddrLoad(f: Family): Instr {
    if f == V6 then Payload(NetworkHeader, 24, 16) else Payload(NetworkHeader, 16, 4)
  }

  function AddrSize(f: Family): nat {
    if f == V6 then 16 else 4
  }

  /** No mask is needed when the prefix is the whole address. */
  function MaskCode(bits: nat, size: nat): Code {
    if bits < size * 8 then [Bitwise(Mask(bits, size))] else []
  }

  function DaddrCode(a: Atom): Code {
    match a.prefix
    case Some(p) =>
      [DaddrLoad(a.family)] + MaskCode(p.bits, AddrSize(a.family)) + [Cmp(Eq, Masked(p).addr.AsSlice())]
    case None =>
      if a.set_ == "" then [] else [DaddrLoad(a.family), Lookup(a.set_)]
  }

  predicate NeedsAnonymous(a: Atom) {
    a.proto == "" && a.port.hi != 0
  }

  function ProtoCode(a: Atom, anonymous: string): Code {
    if a.proto != "" then [Meta(L4Proto), Cmp(Eq, [if a.proto == "udp" then UDP else TCP])]
    else if a.port.hi != 0 then [Meta(L4Proto), Lookup(anonymous)]
    else []
  }

  function PortCode(pr: PortRange): Code {
    if pr.hi == 0 then []
    else if pr.lo == pr.hi then [Payload(TransportHeader, 2, 2), Cmp(Eq, BE16(pr.lo))]
    else [Payload(TransportHeader, 2, 2), Range(BE16(pr.lo), BE16(pr.hi))]
  }

  function RefuseCode(rule: string): Code {
    [Log(LogPrefix(rule)), Reject]
  }

  function VerdictCode(v: Verdict, rule: string): Code {
    if v == Allow then [AcceptVerdict] else RefuseCode(rule)
  }

  /** What atomExprs emits, given the id found for the cgroup and the name of
      the anonymous {tcp, udp} set, where the atom needs them. */
  function AtomCode(a: Atom, id: CgroupId, anonymous: string): Code {
    CgroupCode(a.cgroup, id) + FamilyCode(a.family) + DaddrCode(a) + ProtoCode(a, anonymous) + PortCode(a.port)
    + VerdictCode(a.verdict, a.rule)
  }

  /** One more bit goes into one byte. */
  lemma {:induction false} BitsInNext(i: nat, k: nat)
    ensures k == i / 8 ==> BitsIn(i, k) == i % 8 && BitsIn(i + 1, k) == i % 8 + 1
    ensures k != i / 8 ==> BitsIn(i + 1, k) == BitsIn(i, k)
  {
  }

  /** The mask loop: one bit at a time into a zeroed array. */
  method BuildMask(bits: nat, size: nat) returns (m: seq<byte>)
    requires bits <= 8 * size
    ensures m == Mask(bits, size)
  {
    var mask := new byte[size](_ => 0);
    for i := 0 to bits
      invariant forall k | 0 <= k < size :: mask[k] == MaskByte(BitsIn(i, k))
    {
      BitsInNext(i, i / 8);
      mask[i / 8] := BitOr(mask[i / 8], HighBit(i % 8));
      forall k: nat | k < size && k != i / 8 { BitsInNext(i, k); }
    }
    m := mask[..];
    assert forall k | 0 <= k < size :: m[k] == Mask(bits, size)[k];
  }

  // ---- packets and flows ----

  /** The bytes of `p` are those of a packet of flow `f`. */
  predicate Carries(p: Packet, f: Flow) {
    && (if f.dst.IPv4?
        then p.nfproto == NFPROTO_IPV4 && |p.network| >= 20 && p.network[16..20] == f.dst.AsSlice()
        else p.nfproto == NFPROTO_IPV6 && |p.network| >= 40 && p.network[24..40] == f.dst.AsSlice())
    && p.l4proto == f.l4
    && (HasPorts(f.l4) ==> |p.transport| >= 4 && Word(p.transport[2..4]) == f.port)
  }

  /** The family is the prefix's, and only an atom that looks at no address has
      none: what Build guarantees and the daddr load depends on. */
  predicate GoodAtom(a: Atom) {
    && (a.prefix.Some? ==> a.family == FamilyOf(a.prefix.value) && a.set_ == "")
    && (a.family == AnyFamily <==> a.prefix == None && a.set_ == "")
  }

  /** The socket test, on ids. */
  predicate CgroupTest(cgroup: string, id: CgroupId, p: Packet) {
    cgroup == "" || (CgroupLevel(cgroup) <= |p.ancestors| && p.ancestors[CgroupLevel(cgroup) - 1] == id)
  }

  const TCP_UDP: set<seq<byte>> := {[TCP], [UDP]}

  // ---- each piece falls through exactly when its part of the atom holds ----

  predicate PassesIff(before: State, after: State, holds: bool)
    requires before.Running?
  {
    if holds then after.Running? && after.logged == before.logged else after == Ended(Continue)
  }

  lemma {:induction false} Exec1(i: Instr, st: State, p: Packet, sets: SetTable)
    requires st.Running?
    ensures Exec([i], st, p, sets) == Step(i, st, p, sets)
  {
    assert [i][1..] == [];
  }

  lemma {:induction false} Exec2(i: Instr, j: Instr, st: State, p: Packet, sets: SetTable)
    requires st.Running?
    ensures Exec([i, j], st, p, sets) ==
              var mid := Step(i, st, p, sets);
              if mid.Running? then Step(j, mid, p, sets) else mid
  {
    assert [i, j][1..] == [j];
    var mid := Step(i, st, p, sets);
    if mid.Running? { Exec1(j, mid, p, sets); }
  }

  lemma {:induction false} SameLengthPrefix(data: seq<byte>, reg: seq<byte>)
    requires |data| == |reg|
    ensures data <= reg <==> data == reg
  {
  }

  lemma {:induction false} CgroupPiece(cgroup: string, id: CgroupId, st: State, p: Packet, sets: SetTable)
    requires st.Running?
    ensures PassesIff(st, Exec(CgroupCode(cgroup, id), st, p, sets), CgroupTest(cgroup, id, p))
  {
    if cgroup != "" {
      Exec2(Socket(CgroupLevel(cgroup)), Cmp(Eq, id), st, p, sets);
      if CgroupLevel(cgroup) <= |p.ancestors| {
        SameLengthPrefix(id, p.ancestors[CgroupLevel(cgroup) - 1]);
      }
    }
  }

  lemma {:induction false} FamilyPiece(a: Atom, st: State, p: Packet, f: Flow, sets: SetTable)
    requires st.Running? && Carries(p, f)
    ensures PassesIff(st, Exec(FamilyCode(a.family), st, p, sets), FamilyMatches(a, f.dst))
  {
    if a.family != AnyFamily {
      var n := if a.family == V4 then NFPROTO_IPV4 else NFPROTO_IPV6;
      Exec2(Meta(NfProto), Cmp(Eq, [n]), st, p, sets);
      SameLengthPrefix([n], [p.nfproto]);
    }
  }

  /** Masked comparison of addresses is prefix containment. */
  lemma {:induction false} MaskedIsContains(pfx: Prefix, dst: IP)
    requires dst.IPv4? == pfx.addr.IPv4?
    ensures var m := Mask(pfx.bits, |pfx.addr.AsSlice()|);
            And(dst.AsSlice(), m) == Masked(pfx).addr.AsSlice() <==> pfx.Contains(dst)
  {
    var m := Mask(pfx.bits, |pfx.addr.AsSlice()|);
    MaskIsMask(pfx.bits, |pfx.addr.AsSlice()|);
    MaskedCompare(dst.AsSlice(), pfx.addr.AsSlice(), m, pfx.bits);
  }

  lemma {:induction false} FullIsContains(pfx: Prefix, dst: IP)
    requires dst.IPv4? == pfx.addr.IPv4? && pfx.bits == 8 * |pfx.addr.AsSlice()|
    ensures dst.AsSlice() == Masked(pfx).addr.AsSlice() <==> pfx.Contains(dst)
  {
    FullPrefixContains(pfx.addr, dst);
    assert pfx == RawPrefix(pfx.addr, pfx.addr.BitLen());
  }

  /** Masking the loaded address and comparing it with the masked prefix is
      prefix containment, for every length, with or without the mask. */
  lemma {:induction false} PrefixPiece(pfx: Prefix, fam: Family, dst: IP, st: State, p: Packet, sets: SetTable)
    requires st.Running? && st.reg == dst.AsSlice()
    requires fam == FamilyOf(pfx) && dst.IPv4? == pfx.addr.IPv4?
    ensures PassesIff(st, Exec(MaskCode(pfx.bits, AddrSize(fam)) + [Cmp(Eq, Masked(pfx).addr.AsSlice())], st, p, sets),
                      pfx.Contains(dst))
  {
    var size := AddrSize(fam);
    var data := Masked(pfx).addr.AsSlice();
    assert size == |pfx.addr.AsSlice()| == |data| == |st.reg|;
    if pfx.bits < size * 8 {
      var m := Mask(pfx.bits, size);
      assert MaskCode(pfx.bits, size) + [Cmp(Eq, data)] == [Bitwise(m), Cmp(Eq, data)];
      Exec2(Bitwise(m), Cmp(Eq, data), st, p, sets);
      SameLengthPrefix(data, And(st.reg, m));
      MaskedIsContains(pfx, dst);
    } else {
      assert MaskCode(pfx.bits, size) + [Cmp(Eq, data)] == [Cmp(Eq, data)];
      Exec1(Cmp(Eq, data), st, p, sets);
      SameLengthPrefix(data, st.reg);
      FullIsContains(pfx, dst);
    }
  }

  lemma {:induction false} DaddrPiece(a: Atom, st: State, p: Packet, f: Flow, sets: SetTable)
    requires st.Running? && Carries(p, f) && GoodAtom(a) && FamilyMatches(a, f.dst)
    ensures PassesIff(st, Exec(DaddrCode(a), st, p, sets), DaddrMatches(a, f.dst, sets))
  {
    var load := DaddrLoad(a.family);
    match a.prefix
    case Some(pfx) =>
      var tail := MaskCode(pfx.bits, AddrSize(a.family)) + [Cmp(Eq, Masked(pfx).addr.AsSlice())];
      assert DaddrCode(a) == [load] + tail;
      ExecConcat([load], tail, st, p, sets);
      Exec1(load, st, p, sets);
      PrefixPiece(pfx, a.family, f.dst, Step(load, st, p, sets), p, sets);
    case None =>
      if a.set_ != "" {
        Exec2(load, Lookup(a.set_), st, p, sets);
      }
  }

  lemma {:induction false} ProtoPiece(a: Atom, anonymous: string, st: State, p: Packet, f: Flow, sets: SetTable)
    requires st.Running? && Carries(p, f)
    requires NeedsAnonymous(a) ==> anonymous in sets && sets[anonymous] == TCP_UDP
    ensures PassesIff(st, Exec(ProtoCode(a, anonymous), st, p, sets),
                      if a.proto != "" then ProtoMatches(a.proto, f.l4) else a.port.hi != 0 ==> HasPorts(f.l4))
  {
    if a.proto != "" {
      var l4 := if a.proto == "udp" then UDP else TCP;
      Exec2(Meta(L4Proto), Cmp(Eq, [l4]), st, p, sets);
      SameLengthPrefix([l4], [p.l4proto]);
    } else if a.port.hi != 0 {
      Exec2(Meta(L4Proto), Lookup(anonymous), st, p, sets);
      assert [p.l4proto] in TCP_UDP <==> HasPorts(f.l4) by {
        assert [p.l4proto] == [TCP] <==> p.l4proto == TCP;
        assert [p.l4proto] == [UDP] <==> p.l4proto == UDP;
      }
    }
  }

  /** Comparing port bytes, equal or in a range, is comparing port numbers. */
  lemma {:induction false} PortPiece(pr: PortRange, st: State, p: Packet, f: Flow, sets: SetTable)
    requires st.Running? && Carries(p, f) && (pr.hi != 0 ==> HasPorts(f.l4))
    ensures PassesIff(st, Exec(PortCode(pr), st, p, sets), pr.hi != 0 ==> InRange(pr, f.port))
  {
    if pr.hi != 0 {
      var load := Payload(TransportHeader, 2, 2);
      var port := p.transport[2..4];
      if pr.lo == pr.hi {
        Exec2(load, Cmp(Eq, BE16(pr.lo)), st, p, sets);
        SameLengthPrefix(BE16(pr.lo), port);
        WordOrder(BE16(pr.lo), port);
      } else {
        Exec2(load, Range(BE16(pr.lo), BE16(pr.hi)), st, p, sets);
        WordOrder(port, BE16(pr.lo));
        WordOrder(BE16(pr.hi), port);
      }
    }
  }

  /** How a rule with this verdict ends. */
  function VerdictOutcome(v: Verdict, rule: string): Outcome {
    if v == Allow then Accepted else Refused(LogPrefix(rule))
  }

  lemma {:induction false} VerdictPiece(v: Verdict, rule: string, st: State, p: Packet, sets: SetTable)
    requires st.Running?
    ensures Exec(VerdictCode(v, rule), st, p, sets) == Ended(VerdictOutcome(v, rule))
  {
    if v == Allow {
      Exec1(AcceptVerdict, st, p, sets);
    } else {
      Exec2(Log(LogPrefix(rule)), Reject, st, p, sets);
    }
  }

  /** The atom's tests, with the cgroup tested by id. */
  predicate AtomFires(a: Atom, id: CgroupId, p: Packet, f: Flow, sets: SetTable) {
    CgroupTest(a.cgroup, id, p) && FamilyMatches(a, f.dst) && DaddrMatches(a, f.dst, sets)
    && TransportMatches(a.proto, a.port, f)
  }

  lemma {:induction false} AtomCodeFires(a: Atom, id: CgroupId, anonymous: string, p: Packet, f: Flow, sets: SetTable)
    requires GoodAtom(a) && Carries(p, f)
    requires NeedsAnonymous(a) ==> anonymous in sets && sets[anonymous] == TCP_UDP
    ensures RunRule(AtomCode(a, id, anonymous), p, sets) ==
              if AtomFires(a, id, p, f, sets) then VerdictOutcome(a.verdict, a.rule) else Continue
  {
    var c0, c1, c2, c3, c4, c5 := CgroupCode(a.cgroup, id), FamilyCode(a.family), DaddrCode(a),
      ProtoCode(a, anonymous), PortCode(a.port), VerdictCode(a.verdict, a.rule);
    var s0 := Running([], "");
    var s1 := Exec(c0, s0, p, sets);
    var s2 := Exec(c1, s1, p, sets);
    var s3 := Exec(c2, s2, p, sets);
    var s4 := Exec(c3, s3, p, sets);
    var s5 := Exec(c4, s4, p, sets);
    var s6 := Exec(c5, s5, p, sets);
    assert Exec(AtomCode(a, id, anonymous), s0, p, sets) == s6 by {
      ExecConcat(c0, c1, s0, p, sets);
      ExecConcat(c0 + c1, c2, s0, p, sets);
      ExecConcat(c0 + c1 + c2, c3, s0, p, sets);
      ExecConcat(c0 + c1 + c2 + c3, c4, s0, p, sets);
      ExecConcat(c0 + c1 + c2 + c3 + c4, c5, s0, p, sets);
    }
    CgroupPiece(a.cgroup, id, s0, p, sets);
    if s1.Running? { FamilyPiece(a, s1, p, f, sets); }
    if s2.Running? { DaddrPiece(a, s2, p, f, sets); }
    if s3.Running? { ProtoPiece(a, anonymous, s3, p, f, sets); }
    if s4.Running? { PortPiece(a.port, s4, p, f, sets); }
    if s5.Running? { VerdictPiece(a.verdict, a.rule, s5, p, sets); }
  }

  /** Code generation is correct: the rule emitted for an atom ends in the atom's
      verdict on the packets the atom matches, and falls through on all others. */
  lemma {:induction false} AtomCodeCorrect(a: Atom, id: CgroupId, anonymous: string, p: Packet, f: Flow,
          sets: SetTable)
    requires GoodAtom(a) && Carries(p, f)
    requires CgroupTest(a.cgroup, id, p) <==> CgroupMatches(a.cgroup, f)
    requires NeedsAnonymous(a) ==> anonymous in sets && sets[anonymous] == TCP_UDP
    ensures RunRule(AtomCode(a, id, anonymous), p, sets) ==
              if AtomMatches(a, f, sets) then VerdictOutcome(a.verdict, a.rule) else Continue
  {
    AtomCodeFires(a, id, anonymous, p, f, sets);
  }

  // ---- the atoms Build makes are good ----

  lemma {:induction false} EmittedGood(base: Atom, r: CompiledRule)
    requires GoodAtom(base)
    ensures forall a | a in Emitted(base, r) :: GoodAtom(a)
  {
  }

  lemma {:induction false} PrefixAtomsGood(r: CompiledRule, prefixes: seq<Prefix>)
    ensures forall a | a in PrefixAtoms(r, prefixes) :: GoodAtom(a)
  {
    if prefixes != [] {
      EmittedGood(Base(FamilyOf(prefixes[0]), Some(prefixes[0]), ""), r);
      PrefixAtomsGood(r, prefixes[1..]);
    }
  }

  lemma {:induction false} RuleAtomsGood(i: nat, r: CompiledRule)
    ensures forall a | a in RuleAtoms(i, r) :: GoodAtom(a)
  {
    if r.anyHost {
      EmittedGood(Base(AnyFamily, None, ""), r);
    } else {
      PrefixAtomsGood(r, r.prefixes);
      EmittedGood(Base(V4, None, SetName(i, V4)), r);
      EmittedGood(Base(V6, None, SetName(i, V6)), r);
    }
  }

  /** Build gives no family to exactly the atoms that look at no address. */
  lemma {:induction false} PlanAtomsGood(s: PolicySet, i: nat)
    requires i <= |s.rules|
    ensures forall a | a in AtomsFrom(s, i) :: GoodAtom(a)
    decreases |s.rules| - i
  {
    if i < |s.rules| {
      RuleAtomsGood(i, s.rules[i]);
      PlanAtomsGood(s, i + 1);
    }
  }
}
