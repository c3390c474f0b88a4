/** The nftables rule machine, as far as the compiled rules use it: expressions
    run in order over one register and the packet, and the first test that fails
    ends the rule. */
module Kernel {
  import opened Bytes

  /** Inode number of a cgroup directory, in native byte order. */
  type CgroupId = b: seq<byte> | |b| == 8 witness [0, 0, 0, 0, 0, 0, 0, 0]

  /** A packet on the way out. `ancestors` are the ids of the sending socket's
      cgroup and the ones above it, outermost first; empty without a socket. */
  datatype Packet = Packet(
    nfproto: byte,
    network: seq<byte>,
    l4proto: byte,
    transport: seq<byte>,
    oifname: seq<byte>,
    ctstate: seq<byte>,
    ancestors: seq<CgroupId>)

  datatype MetaKey = OifName | NfProto | L4Proto

  datatype PayloadBase = NetworkHeader | TransportHeader

  datatype CmpOp = Eq | Neq

  datatype Instr =
    | Meta(key: MetaKey)
    | CtState
    | Socket(level: nat)
    | Payload(base: PayloadBase, offset: nat, len: nat)
    | Bitwise(mask: seq<byte>)
    | Cmp(op: CmpOp, data: seq<byte>)
    | Range(from: seq<byte>, to: seq<byte>)
    | Lookup(set_: string)
    | Log(prefix: string)
    | Reject
    | AcceptVerdict

  type Code = seq<Instr>

  /** How a rule, or a chain, ends. */
  datatype Outcome = Continue | Accepted | Refused(prefix: string) | Dropped

  /** A rule in progress: the register and the last prefix logged. */
  datatype State = Running(reg: seq<byte>, logged: string) | Ended(outcome: Outcome)

  const NFPROTO_IPV4: byte := 2
  const NFPROTO_IPV6: byte := 10

  function LoadMeta(key: MetaKey, p: Packet): seq<byte> {
    match key
    case OifName => p.oifname
    case NfProto => [p.nfproto]
    case L4Proto => [p.l4proto]
  }

  function Header(base: PayloadBase, p: Packet): seq<byte> {
    match base
    case NetworkHeader => p.network
    case TransportHeader => p.transport
  }

  function Load(st: State, bytes: seq<byte>): State
    requires st.Running?
  {
    st.(reg := bytes)
  }

  function Test(st: State, ok: bool): State {
    if ok then st else Ended(Continue)
  }

  /** One expression. A comparison looks at as many bytes as its constant has;
      a load past the end of a header ends the rule, like a failed test. */
  function Step(i: Instr, st: State, p: Packet, sets: SetTable): State
    requires st.Running?
  {
    match i
    case Meta(key) => Load(st, LoadMeta(key, p))
    case CtState => Load(st, p.ctstate)
    case Socket(level) =>
      if 1 <= level <= |p.ancestors| then Load(st, p.ancestors[level - 1]) else Ended(Continue)
    case Payload(base, offset, len) =>
      var h := Header(base, p);
      if offset + len <= |h| then Load(st, h[offset..offset + len]) else Ended(Continue)
    case Bitwise(mask) =>
      if |mask| == |st.reg| then Load(st, And(st.reg, mask)) else Ended(Continue)
    case Cmp(op, data) => Test(st, (data <= st.reg) == (op == Eq))
    case Range(from, to) =>
      Test(st, |st.reg| == |from| && |st.reg| == |to| && !MemLess(st.reg, from) && !MemLess(to, st.reg))
    case Lookup(name) => Test(st, name in sets && st.reg in sets[name])
    case Log(prefix) => st.(logged := prefix)
    case Reject => Ended(Refused(st.logged))
    case AcceptVerdict => Ended(Accepted)
  }

  function Exec(code: Code, st: State, p: Packet, sets: SetTable): State {
    if code == [] || st.Ended? then st else Exec(code[1..], Step(code[0], st, p, sets), p, sets)
  }

  lemma {:induction false} ExecConcat(a: Code, b: Code, st: State, p: Packet, sets: SetTable)
    ensures Exec(a + b, st, p, sets) == Exec(b, Exec(a, st, p, sets), p, sets)
  {
    if a == [] {
      assert a + b == b;
    } else if st.Running? {
      ExecConcat(a[1..], b, Step(a[0], st, p, sets), p, sets);
      assert (a + b)[1..] == a[1..] + b;
    }
  }

  function RunRule(code: Code, p: Packet, sets: SetTable): Outcome {
    match Exec(code, Running([], ""), p, sets)
    case Running(_, _) => Continue
    case Ended(out) => out
  }

  /** A base chain: the first rule with a verdict decides, else the chain policy. */
  function RunChain(rules: seq<Code>, policy: Outcome, p: Packet, sets: SetTable): Outcome {
    if rules == [] then policy
    else if RunRule(rules[0], p, sets) != Continue then RunRule(rules[0], p, sets)
    else RunChain(rules[1..], policy, p, sets)
  }

  lemma {:induction false} RunChainConcat(a: seq<Code>, b: seq<Code>, policy: Outcome, p: Packet, sets: SetTable)
    ensures RunChain(a + b, policy, p, sets) == RunChain(a, RunChain(b, policy, p, sets), p, sets)
  {
    if a == [] {
      assert a + b == b;
    } else {
      RunChainConcat(a[1..], b, policy, p, sets);
      assert (a + b)[1..] == a[1..] + b;
    }
  }
}
