/** internal/kmsg/kmsg.go: reading back what refused packets wrote into the kernel
    log, against the prefixes the rules write. */
module Kmsg {
  import opened Wrappers
  import opened Bytes
  import opened Text
  import opened Netip
  import opened Plan

  /** `rule` is "" for the default-deny rule. */
  datatype Event = Event(rule: string, dst: Addr, port: uint16, proto: string)

  function ApplyField(lib: Library, ev: Event, field: string): Event {
    var kv := Cut(field, "=");
    if !kv.found then ev
    else if kv.before == "DST" then
      match lib.parseAddr(kv.after)
      case Some(a) => ev.(dst := a)
      case None => ev
    else if kv.before == "DPT" then
      match ParseUint16(kv.after)
      case Some(n) => ev.(port := n)
      case None => ev
    else if kv.before == "PROTO" then ev.(proto := ToLower(kv.after))
    else ev
  }

  function ApplyFields(lib: Library, ev: Event, fields: seq<string>): Event {
    if fields == [] then ev
    else ApplyField(lib, ApplyFields(lib, ev, fields[..|fields| - 1]), fields[|fields| - 1])
  }

  function Finish(lib: Library, rule: string, msg: string): Option<Event> {
    var ev := ApplyFields(lib, Event(rule, NoAddr, 0, ""), Fields(msg));
    if ev.dst.IsValid() then Some(ev) else None
  }

  /** What ParseLine makes of the text after the header. */
  function EventIn(lib: Library, msg: string): Option<Event> {
    if DENY_PREFIX <= msg then
      var rest := Cut(msg[|DENY_PREFIX|..], "]: ");
      if rest.found then Finish(lib, rest.before, rest.after) else None
    else if DEFAULT_DENY_PREFIX <= msg then Finish(lib, "", msg[|DEFAULT_DENY_PREFIX|..])
    else None
  }

  /** What ParseLine returns; None is its false. */
  function EventOf(lib: Library, line: string): Option<Event> {
    var halves := Cut(line, ";");
    EventIn(lib, if halves.found then halves.after else line)
  }

  /** One turn of the loop over the fields. */
  method ReadField(lib: Library, ev: Event, field: string) returns (r: Event)
    ensures r == ApplyField(lib, ev, field)
  {
    r := ev;
    var kv := Cut(field, "=");
    if !kv.found {
      return;
    }
    if kv.before == "DST" {
      var a := lib.parseAddr(kv.after);
      if a.Some? {
        r := r.(dst := a.value);
      }
    } else if kv.before == "DPT" {
      var n := ParseUint16(kv.after);
      if n.Some? {
        r := r.(port := n.value);
      }
    } else if kv.before == "PROTO" {
      r := r.(proto := ToLower(kv.after));
    }
  }

  method ParseLine(lib: Library, line: string) returns (r: Option<Event>)
    ensures r == EventOf(lib, line)
  {
    var halves := Cut(line, ";");
    var msg := halves.after;
    if !halves.found {
      msg := line;
    }
    var ev := Event("", NoAddr, 0, "");
    if DENY_PREFIX <= msg {
      var rest := Cut(msg[|DENY_PREFIX|..], "]: ");
      if !rest.found {
        return None;
      }
      ev := ev.(rule := rest.before);
      msg := rest.after;
    } else if DEFAULT_DENY_PREFIX <= msg {
      msg := msg[|DEFAULT_DENY_PREFIX|..];
    } else {
      return None;
    }
    ghost var start := ev;
    var fields := Fields(msg);
    for i := 0 to |fields|
      invariant ev == ApplyFields(lib, start, fields[..i])
    {
      assert fields[..i + 1][..i] == fields[..i];
      ev := ReadField(lib, ev, fields[i]);
    }
    assert fields[..|fields|] == fields;
    return if ev.dst.IsValid() then Some(ev) else None;
  }

  // ---- field lists ----

  predicate HasKey(field: string, key: string) {
    Cut(field, "=").found && Cut(field, "=").before == key
  }

  /** Field `i` is `key=value` and no other field has that key. */
  predicate OnlyField(fields: seq<string>, key: string, value: string, i: nat) {
    && i < |fields| && Cut(fields[i], "=") == Halves(key, value, true)
    && forall j | 0 <= j < |fields| && j != i :: !HasKey(fields[j], key)
  }

  lemma {:induction false} FieldApplied(lib: Library, ev: Event, fields: seq<string>, m: nat, a: IP, port: uint16,
          dst: string, dpt: string, proto: string, i: nat, j: nat, k: nat)
    requires m < |fields|
    requires OnlyField(fields, "DST", dst, i) && lib.parseAddr(dst) == Some(a)
    requires OnlyField(fields, "DPT", dpt, j) && ParseUint16(dpt) == Some(port)
    requires OnlyField(fields, "PROTO", proto, k)
    ensures ApplyField(lib, ev, fields[m]) ==
              if m == i then ev.(dst := a) else if m == j then ev.(port := port)
              else if m == k then ev.(proto := ToLower(proto)) else ev
  {
    var kv := Cut(fields[m], "=");
    if m != i { assert !HasKey(fields[m], "DST"); }
    if m != j { assert !HasKey(fields[m], "DPT"); }
    if m != k { assert !HasKey(fields[m], "PROTO"); }
  }

  /** What a field list with the three fields at `i`, `j` and `k` makes of an
      event, read up to `n`. */
  function ReadUpTo(ev: Event, n: nat, a: IP, port: uint16, proto: string, i: nat, j: nat, k: nat): Event {
    Event(ev.rule, if i < n then a else ev.dst, if j < n then port else ev.port,
        if k < n then ToLower(proto) else ev.proto)
  }

  lemma {:induction false} ReadOneMore(ev: Event, n: nat, a: IP, port: uint16, proto: string, i: nat, j: nat, k: nat)
    requires n > 0 && i != j && i != k && j != k
    ensures var before := ReadUpTo(ev, n - 1, a, port, proto, i, j, k);
            ReadUpTo(ev, n, a, port, proto, i, j, k) ==
              if n - 1 == i then before.(dst := a) else if n - 1 == j then before.(port := port)
              else if n - 1 == k then before.(proto := ToLower(proto)) else before
  {
  }

  lemma {:induction false} OtherField(fields: seq<string>, key: string, value: string, i: nat, other: string,
          value': string, j: nat)
    requires OnlyField(fields, key, value, i) && OnlyField(fields, other, value', j) && key != other
    ensures i != j
  {
  }

  lemma {:induction false} FieldsApplied(lib: Library, ev: Event, fields: seq<string>, n: nat, a: IP,
          port: uint16, dst: string, dpt: string, proto: string, i: nat, j: nat, k: nat)
    requires n <= |fields|
    requires OnlyField(fields, "DST", dst, i) && lib.parseAddr(dst) == Some(a)
    requires OnlyField(fields, "DPT", dpt, j) && ParseUint16(dpt) == Some(port)
    requires OnlyField(fields, "PROTO", proto, k)
    ensures ApplyFields(lib, ev, fields[..n]) == ReadUpTo(ev, n, a, port, proto, i, j, k)
  {
    if n > 0 {
      var before := ReadUpTo(ev, n - 1, a, port, proto, i, j, k);
      FieldsApplied(lib, ev, fields, n - 1, a, port, dst, dpt, proto, i, j, k);
      assert fields[..n][..n - 1] == fields[..n - 1];
      assert ApplyFields(lib, ev, fields[..n]) == ApplyField(lib, before, fields[n - 1]);
      FieldApplied(lib, before, fields, n - 1, a, port, dst, dpt, proto, i, j, k);
      OtherField(fields, "DST", dst, i, "DPT", dpt, j);
      OtherField(fields, "DST", dst, i, "PROTO", proto, k);
      OtherField(fields, "DPT", dpt, j, "PROTO", proto, k);
      ReadOneMore(ev, n, a, port, proto, i, j, k);
    }
  }

  // ---- the round trip ----

  /** A rule name longer than this is cut off in the kernel log. */
  const MAX_RULE: nat := MAX_PREFIX - |DENY_PREFIX| - 3

  lemma {:induction false} LogPrefixBounded(rule: string)
    ensures |LogPrefix(rule)| <= MAX_PREFIX + 1
    ensures rule != "" && |rule| <= MAX_RULE ==> LogPrefix(rule) == DENY_PREFIX + rule + "]: "
    ensures |rule| > MAX_RULE ==> LogPrefix(rule) == DENY_PREFIX + rule[..MAX_RULE] + "..: "
  {
    if |rule| > MAX_RULE {
      assert (DENY_PREFIX + rule + "]: ")[..MAX_PREFIX - 3] == DENY_PREFIX + rule[..MAX_RULE];
    }
  }

  /** An occurrence of "]: " that starts before the middle of `x + y` and does not
      fit into `x` needs a bracket at the end of `x` and the rest at the start of `y`. */
  lemma {:induction false} OccursSplit(x: string, y: string, i: nat)
    requires OccursAt(x + y, "]: ", i) && i < |x|
    ensures OccursAt(x, "]: ", i) || (i == |x| - 1 && |y| >= 2 && y[0] == ':' && y[1] == ' ')
                                   || (i == |x| - 2 && |y| >= 1 && y[0] == ' ')
  {
    var s := x + y;
    assert s[i..i + 3][0] == s[i] && s[i..i + 3][1] == s[i + 1] && s[i..i + 3][2] == s[i + 2];
    if i + 3 <= |x| {
      assert x[i..i + 3] == s[i..i + 3];
    }
  }

  /** A name within the limit ends at its terminator exactly when it does not
      contain one. */
  lemma {:induction false} CutShortName(rule: string, tail: string)
    ensures var c := Cut(rule + "]: " + tail, "]: ");
            && c.found
            && (c.before == rule <==> !Contains(rule, "]: "))
            && (!Contains(rule, "]: ") ==> c == Halves(rule, tail, true))
  {
    var s := rule + "]: " + tail;
    assert OccursAt(s, "]: ", |rule|);
    if Contains(rule, "]: ") {
      var i: nat :| i <= |rule| && OccursAt(rule, "]: ", i);
      assert OccursAt(s, "]: ", i);
    } else {
      forall k: nat | k < |rule| ensures !OccursAt(s, "]: ", k) {
        if OccursAt(s, "]: ", k) {
          assert s == rule + ("]: " + tail);
          OccursSplit(rule, "]: " + tail, k);
        }
      }
      CutAt(rule, "]: ", tail);
    }
  }

  /** A terminator found after a cut-off name is the tail's. */
  lemma {:induction false} AfterDots(x: string, tail: string, i: nat)
    requires |x| <= i && OccursAt(x + "..: " + tail, "]: ", i)
    ensures Contains(tail, "]: ")
  {
    var s, k := x + "..: " + tail, i - |x|;
    assert s[i] == s[i..i + 3][0];
    assert s[|x|] == '.' && s[|x| + 1] == '.' && s[|x| + 2] == ':' && s[|x| + 3] == ' ';
    assert s[i..i + 3] == tail[k - 4..k - 1];
    assert OccursAt(tail, "]: ", k - 4);
  }

  /** A name over the limit never comes back: its terminator is gone, and what is
      taken for the name is too short. */
  lemma {:induction false} CutLongName(rule: string, tail: string)
    requires |rule| > MAX_RULE
    ensures var c := Cut(rule[..MAX_RULE] + "..: " + tail, "]: ");
            Contains(tail, "]: ") || (c.found ==> |c.before| < MAX_RULE)
  {
    var x := rule[..MAX_RULE];
    var i := IndexFrom(x + "..: " + tail, "]: ", 0);
    if |x| <= i <= |x + "..: " + tail| {
      AfterDots(x, tail, i);
    }
  }

  lemma {:induction false} DefaultPrefixRead(lib: Library, tail: string)
    ensures EventIn(lib, LogPrefix("") + tail) == Finish(lib, "", tail)
  {
    var msg := LogPrefix("") + tail;
    assert msg[13] == 'f' && DENY_PREFIX[13] == 'n';
    assert DEFAULT_DENY_PREFIX <= msg && msg[|DEFAULT_DENY_PREFIX|..] == tail;
  }

  lemma {:induction false} NamedPrefixRead(lib: Library, rest: string)
    ensures EventIn(lib, DENY_PREFIX + rest) ==
              var c := Cut(rest, "]: ");
              if c.found then Finish(lib, c.before, c.after) else None
    ensures var r := EventIn(lib, DENY_PREFIX + rest);
            r.Some? ==> r.value.rule == Cut(rest, "]: ").before
  {
    FinishRule(lib, Cut(rest, "]: ").before, Cut(rest, "]: ").after);
    assert DENY_PREFIX <= DENY_PREFIX + rest && (DENY_PREFIX + rest)[|DENY_PREFIX|..] == rest;
  }

  lemma {:induction false} RegroupText(a: string, b: string, c: string, d: string)
    ensures a + b + c + d == a + (b + c + d)
  {
  }

  /** The prefix of a rule, or of the default, in front of any tail. */
  lemma {:induction false} PrefixRead(lib: Library, rule: string, tail: string)
    requires !Contains(tail, "]: ")
    ensures var r := EventIn(lib, LogPrefix(rule) + tail);
            && (rule == "" ==> r == Finish(lib, "", tail))
            && (rule != "" && |rule| <= 101 && !Contains(rule, "]: ") ==> r == Finish(lib, rule, tail))
            && (rule != "" && !(|rule| <= 101 && !Contains(rule, "]: ")) ==> r.None? || r.value.rule != rule)
  {
    LogPrefixBounded(rule);
    if rule == "" {
      DefaultPrefixRead(lib, tail);
    } else if |rule| <= MAX_RULE {
      RegroupText(DENY_PREFIX, rule, "]: ", tail);
      NamedPrefixRead(lib, rule + "]: " + tail);
      CutShortName(rule, tail);
    } else {
      RegroupText(DENY_PREFIX, rule[..MAX_RULE], "..: ", tail);
      NamedPrefixRead(lib, rule[..MAX_RULE] + "..: " + tail);
      CutLongName(rule, tail);
    }
  }

  lemma {:induction false} ApplyKeepsRule(lib: Library, ev: Event, fields: seq<string>)
    ensures ApplyFields(lib, ev, fields).rule == ev.rule
  {
    if fields != [] {
      ApplyKeepsRule(lib, ev, fields[..|fields| - 1]);
    }
  }

  lemma {:induction false} FinishRule(lib: Library, rule: string, msg: string)
    ensures Finish(lib, rule, msg).Some? ==> Finish(lib, rule, msg).value.rule == rule
  {
    ApplyKeepsRule(lib, Event(rule, NoAddr, 0, ""), Fields(msg));
  }

  /** The round trip from the log rule to the reader: any header up to a first
      semicolon, the prefix of a rule, and a field list with one good DST, DPT and
      PROTO. A named rule is read back exactly when its name is no longer than 101
      bytes and does not contain the terminator; then the whole event is. */
  lemma {:induction false} LogRoundTrip(lib: Library, header: string, rule: string, fields: seq<string>, a: IP,
          port: uint16, dst: string, dpt: string, proto: string, i: nat, j: nat, k: nat)
    requires ';' !in header && forall f | f in fields :: IsWord(f)
    requires OnlyField(fields, "DST", dst, i) && lib.parseAddr(dst) == Some(a)
    requires OnlyField(fields, "DPT", dpt, j) && ParseUint16(dpt) == Some(port)
    requires OnlyField(fields, "PROTO", proto, k)
    requires !Contains(Join(fields, " "), "]: ")
    ensures var r := EventOf(lib, header + ";" + (LogPrefix(rule) + Join(fields, " ")));
            && (rule == "" ==> r == Some(Event("", a, port, ToLower(proto))))
            && (rule != "" ==>
                  (r.Some? && r.value.rule == rule <==> |rule| <= 101 && !Contains(rule, "]: ")))
            && (rule != "" && |rule| <= 101 && !Contains(rule, "]: ") ==>
                  r == Some(Event(rule, a, port, ToLower(proto))))
  {
    var tail := Join(fields, " ");
    CutAtChar(header, ';', LogPrefix(rule) + tail);
    PrefixRead(lib, rule, tail);
    FieldsJoin(fields);
    assert fields[..|fields|] == fields;
    FieldsApplied(lib, Event(rule, NoAddr, 0, ""), fields, |fields|, a, port, dst, dpt, proto, i, j, k);
    assert Finish(lib, rule, tail) == Some(Event(rule, a, port, ToLower(proto)));
  }
}
