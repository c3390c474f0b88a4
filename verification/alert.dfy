/** internal/alert: refusals queued, coalesced over a window and posted. Senders,
    the loop, its timer and Close run concurrently; each of their atomic actions
    is a step, and a send that finds the queue full takes two. */
module Alerts {
  import opened Clock
  import opened Bytes
  import opened Netip
  import opened Seqs
  import opened Sums

  datatype Event = Event(at: Time, rule: string, host: string, ip: Addr, port: uint16, proto: string, cgroup: string)
  {
    function Key(): Key { Identity(rule, host, cgroup, ip, port, proto) }
  }

  /** Events agreeing in all of these are coalesced. */
  datatype Key = Identity(rule: string, host: string, cgroup: string, ip: Addr, port: uint16, proto: string)

  /** A coalesced event: its first occurrence, how many there were, when last. */
  datatype Group = Group(event: Event, count: nat, last: Time)

  type Batch = map<Key, Group>

  /** What became of one post: whether the payload could be encoded, and whether the
      endpoint took it at the first attempt, and at the second. */
  datatype Delivery = Delivery(encodes: bool, first: bool, second: bool)
  {
    predicate Arrives() { encodes && (first || second) }
  }

  /** A payload that was made, and whether it got through. */
  datatype Payload = Payload(groups: Batch, dropped: nat, delivered: bool)

  /** `accepted`, `current` and `past` record history: every event ever queued,
      those dequeued since the last post, and those of each post. */
  datatype State = State(
    capacity: nat,
    queue: seq<Event>,
    closed: bool,
    done: bool,
    batch: Batch,
    dropped: nat,
    refusing: nat,
    posted: seq<Payload>,
    sends: nat,
    accepted: seq<Event>,
    current: seq<Event>,
    past: seq<seq<Event>>)

  /** `Overflow` is the second half of a send that found the queue full. */
  datatype Action =
    | Send(event: Event)
    | Overflow
    | Dequeue
    | Timer(delivery: Delivery)
    | Close
    | Finish(delivery: Delivery)

  function Start(capacity: nat): State {
    State(capacity, [], false, false, map[], 0, 0, [], 0, [], [], [])
  }

  /** One more occurrence. */
  function Bump(batch: Batch, e: Event): Batch {
    if e.Key() in batch then
      var g := batch[e.Key()];
      batch[e.Key() := Group(g.event, g.count + 1, e.at)]
    else batch[e.Key() := Group(e, 1, e.at)]
  }

  /** Nothing is posted for an empty batch, and the dropped count waits. The count is
      taken before the payload is encoded and sent, and is not put back on failure.
      While a payload is on its way the loop does nothing else, so that its fate is
      part of the step. */
  function Post(s: State, d: Delivery): State {
    if s.batch == map[] then s
    else
      s.(posted := s.posted + [Payload(s.batch, s.dropped, d.Arrives())], dropped := 0, batch := map[],
         past := s.past + [s.current], current := [])
  }

  predicate Enabled(s: State, a: Action) {
    match a
    case Send(_) => !s.closed
    case Overflow => s.refusing > 0
    case Dequeue => !s.done && s.queue != []
    case Timer(_) => !s.done
    case Close => !s.closed
    case Finish(_) => s.closed && !s.done && s.queue == []
  }

  function Step(s: State, a: Action): State
    requires Enabled(s, a)
  {
    match a
    case Send(e) =>
      if |s.queue| < s.capacity then s.(queue := s.queue + [e], accepted := s.accepted + [e], sends := s.sends + 1)
      else s.(refusing := s.refusing + 1, sends := s.sends + 1)
    case Overflow => s.(refusing := s.refusing - 1, dropped := s.dropped + 1)
    case Dequeue => s.(queue := s.queue[1..], batch := Bump(s.batch, s.queue[0]), current := s.current + [s.queue[0]])
    case Timer(d) => Post(s, d)
    case Close => s.(closed := true)
    case Finish(d) => Post(s, d).(done := true)
  }

  /** Every action of the run was possible when it came. */
  predicate IsRun(s0: State, actions: seq<Action>)
    decreases |actions|, 0
  {
    actions == [] ||
    var n := |actions| - 1;
    IsRun(s0, actions[..n]) && Enabled(Run(s0, actions[..n]), actions[n])
  }

  function Run(s0: State, actions: seq<Action>): State
    requires IsRun(s0, actions)
    decreases |actions|, 1
  {
    if actions == [] then s0
    else Step(Run(s0, actions[..|actions| - 1]), actions[|actions| - 1])
  }

  // ---- coalescing ----

  function Coalesce(events: seq<Event>): Batch {
    if events == [] then map[] else Bump(Coalesce(events[..|events| - 1]), events[|events| - 1])
  }

  function Occurrences(events: seq<Event>, k: Key): nat {
    if events == [] then 0
    else Occurrences(events[..|events| - 1], k) + (if events[|events| - 1].Key() == k then 1 else 0)
  }

  function EventKeys(events: seq<Event>): seq<Key> {
    seq(|events|, i requires 0 <= i < |events| => events[i].Key())
  }

  /** A batch has one group for each key that occurred, with its first event, the
      number of its occurrences, and the time of the last. */
  lemma {:induction false} CoalesceExact(events: seq<Event>, k: Key)
    ensures var b := Coalesce(events);
            && (k in b <==> Occurrences(events, k) > 0)
            && (k in b ==>
                  && b[k].count == Occurrences(events, k)
                  && (exists i: nat | i < |events| :: FirstOf(EventKeys(events), k, i) && events[i] == b[k].event)
                  && (exists i: nat | i < |events| :: LastOf(EventKeys(events), k, i) && events[i].at == b[k].last))
  {
    if events != [] {
      var n := |events| - 1;
      var before, e := events[..n], events[n];
      CoalesceExact(before, k);
      NoOccurrence(before, k);
      var b0, b := Coalesce(before), Coalesce(events);
      var keys := EventKeys(before);
      assert EventKeys(events) == keys + [e.Key()];
      if k in b0 {
        var i: nat :| i < n && FirstOf(keys, k, i) && before[i] == b0[k].event;
        FirstGrows(keys, e.Key(), k, i);
        assert events[i] == b[k].event;
      } else if e.Key() == k {
        assert forall j | 0 <= j < n :: keys[j] == before[j].Key();
        assert FirstOf(EventKeys(events), k, n) && events[n] == b[k].event;
      }
      if e.Key() == k {
        assert LastOf(EventKeys(events), k, n) && events[n].at == b[k].last;
      } else if k in b0 {
        var l: nat :| l < n && LastOf(keys, k, l) && before[l].at == b0[k].last;
        LastGrows(keys, e.Key(), k, l);
        assert events[l].at == b[k].last;
      }
    }
  }

  lemma {:induction false} NoOccurrence(events: seq<Event>, k: Key)
    ensures Occurrences(events, k) == 0 <==> forall i | 0 <= i < |events| :: events[i].Key() != k
  {
    if events != [] {
      var n := |events| - 1;
      NoOccurrence(events[..n], k);
      assert forall i | 0 <= i < n :: events[..n][i] == events[i];
    }
  }

  lemma {:induction false} OccurrencesConcat(a: seq<Event>, b: seq<Event>, k: Key)
    ensures Occurrences(a + b, k) == Occurrences(a, k) + Occurrences(b, k)
  {
    if b == [] {
      assert a + b == a;
    } else {
      var n := |b| - 1;
      OccurrencesConcat(a, b[..n], k);
      assert (a + b)[..|a + b| - 1] == a + b[..n];
    }
  }

  // ---- sums over a batch ----

  function Counts(b: Batch): map<Key, nat> {
    map k | k in b :: b[k].count
  }

  /** How many events a batch stands for. */
  ghost function Total(b: Batch): nat {
    Sum(Counts(b))
  }

  lemma {:induction false} CoalesceTotal(events: seq<Event>)
    ensures Total(Coalesce(events)) == |events|
  {
    if events != [] {
      var n := |events| - 1;
      var b0, b, k := Coalesce(events[..n]), Coalesce(events), events[n].Key();
      CoalesceTotal(events[..n]);
      SumUpdate(Counts(b0), k, b[k].count);
      assert Counts(b) == Counts(b0)[k := b[k].count];
    } else {
      assert Counts(Coalesce(events)) == map[];
    }
  }

  // ---- conservation ----

  function Flat(past: seq<seq<Event>>): seq<Event> {
    if past == [] then [] else Flat(past[..|past| - 1]) + past[|past| - 1]
  }

  /** Counts, and dropped counts, of the payloads that got through, or that did not. */
  ghost function PostedCounts(posted: seq<Payload>, delivered: bool): nat {
    if posted == [] then 0
    else
      var p := posted[|posted| - 1];
      PostedCounts(posted[..|posted| - 1], delivered) + (if p.delivered == delivered then Total(p.groups) else 0)
  }

  function PostedDropped(posted: seq<Payload>, delivered: bool): nat {
    if posted == [] then 0
    else
      var p := posted[|posted| - 1];
      PostedDropped(posted[..|posted| - 1], delivered) + (if p.delivered == delivered then p.dropped else 0)
  }

  function PostedOf(posted: seq<Payload>, k: Key, delivered: bool): nat {
    if posted == [] then 0
    else
      var p := posted[|posted| - 1];
      PostedOf(posted[..|posted| - 1], k, delivered)
      + (if p.delivered == delivered && k in p.groups then p.groups[k].count else 0)
  }

  /** Sends that found the queue full, and those of them the endpoint was told about. */
  function Refused(s: State): int {
    s.sends - |s.accepted|
  }

  function Reported(s: State): nat {
    PostedDropped(s.posted, true)
  }

  /** What holds between any two actions. */
  predicate Accounted(s: State) {
    && |s.queue| <= s.capacity
    && s.batch == Coalesce(s.current)
    && |s.posted| == |s.past|
    && (forall i | 0 <= i < |s.past| :: s.past[i] != [] && s.posted[i].groups == Coalesce(s.past[i]))
    && s.accepted == Flat(s.past) + s.current + s.queue
    && Refused(s) == s.dropped + s.refusing + PostedDropped(s.posted, true) + PostedDropped(s.posted, false)
    && (s.done ==> s.closed && s.queue == [] && s.current == [])
  }

  lemma {:induction false} EmptyBatch(events: seq<Event>)
    ensures Coalesce(events) == map[] <==> events == []
  {
    if events != [] {
      assert events[|events| - 1].Key() in Coalesce(events);
    }
  }

  lemma {:induction false} PostAccounted(s: State, d: Delivery)
    requires Accounted(s)
    ensures Accounted(Post(s, d)) || s.done
    ensures Post(s, d).current == [] && Post(s, d).queue == s.queue
  {
    EmptyBatch(s.current);
    if s.batch != map[] {
      var t := Post(s, d);
      assert t.past[..|s.past|] == s.past && t.posted[..|s.posted|] == s.posted;
      assert Flat(t.past) == Flat(s.past) + s.current;
      assert Flat(s.past) + s.current + s.queue == Flat(t.past) + [] + s.queue;
    }
  }

  lemma {:induction false} SendAccounted(s: State, e: Event)
    requires Accounted(s) && Enabled(s, Send(e))
    ensures Accounted(Step(s, Send(e)))
  {
    if |s.queue| < s.capacity {
      assert s.accepted + [e] == Flat(s.past) + s.current + (s.queue + [e]);
    }
  }

  lemma {:induction false} DequeueAccounted(s: State)
    requires Accounted(s) && Enabled(s, Dequeue)
    ensures Accounted(Step(s, Dequeue))
  {
    var t := Step(s, Dequeue);
    assert t.current[..|s.current|] == s.current;
    assert Flat(s.past) + s.current + s.queue == Flat(s.past) + t.current + t.queue;
  }

  lemma {:induction false} StepAccounted(s: State, a: Action)
    requires Accounted(s) && Enabled(s, a)
    ensures Accounted(Step(s, a))
  {
    match a
    case Send(e) => SendAccounted(s, e);
    case Dequeue => DequeueAccounted(s);
    case Timer(d) => PostAccounted(s, d);
    case Finish(d) => PostAccounted(s, d);
    case Overflow =>
    case Close =>
  }

  lemma {:induction false} RunAccounted(capacity: nat, actions: seq<Action>)
    requires IsRun(Start(capacity), actions)
    ensures Accounted(Run(Start(capacity), actions))
  {
    if actions != [] {
      var n := |actions| - 1;
      RunAccounted(capacity, actions[..n]);
      StepAccounted(Run(Start(capacity), actions[..n]), actions[n]);
    }
  }

  lemma {:induction false} PostedCountsFlat(past: seq<seq<Event>>, posted: seq<Payload>)
    requires |posted| == |past| && forall i | 0 <= i < |past| :: posted[i].groups == Coalesce(past[i])
    ensures PostedCounts(posted, true) + PostedCounts(posted, false) == |Flat(past)|
  {
    if past != [] {
      var n := |past| - 1;
      PostedCountsFlat(past[..n], posted[..n]);
      CoalesceTotal(past[n]);
    }
  }

  lemma {:induction false} PostedOfFlat(past: seq<seq<Event>>, posted: seq<Payload>, k: Key)
    requires |posted| == |past| && forall i | 0 <= i < |past| :: posted[i].groups == Coalesce(past[i])
    ensures PostedOf(posted, k, true) + PostedOf(posted, k, false) == Occurrences(Flat(past), k)
  {
    if past != [] {
      var n := |past| - 1;
      PostedOfFlat(past[..n], posted[..n], k);
      CoalesceExact(past[n], k);
      OccurrencesConcat(Flat(past[..n]), past[n], k);
    }
  }

  /** Conservation: under every interleaving and whatever becomes of the posts, each
      send is counted exactly once, in the queue, in the current batch, in the counts
      or the dropped count of a payload that got through or of one that did not, in
      the pending dropped count, or by a sender about to add to that count. Events
      that got into the queue are conserved key by key. */
  lemma {:induction false} Conservation(capacity: nat, actions: seq<Action>, k: Key)
    requires IsRun(Start(capacity), actions)
    ensures var s := Run(Start(capacity), actions);
            && s.sends == |s.queue| + Total(s.batch) + PostedCounts(s.posted, true) + PostedCounts(s.posted, false)
                          + PostedDropped(s.posted, true) + PostedDropped(s.posted, false) + s.dropped + s.refusing
            && Occurrences(s.accepted, k) ==
                 Occurrences(s.queue, k) + (if k in s.batch then s.batch[k].count else 0)
                 + PostedOf(s.posted, k, true) + PostedOf(s.posted, k, false)
  {
    var s := Run(Start(capacity), actions);
    RunAccounted(capacity, actions);
    PostedCountsFlat(s.past, s.posted);
    PostedOfFlat(s.past, s.posted, k);
    CoalesceTotal(s.current);
    CoalesceExact(s.current, k);
    OccurrencesConcat(Flat(s.past) + s.current, s.queue, k);
    OccurrencesConcat(Flat(s.past), s.current, k);
  }

  // ---- is every refused send reported? ----

  /** The loop makes a payload at this action. */
  predicate Posts(s: State, a: Action) {
    (a.Timer? || a.Finish?) && s.batch != map[]
  }

  /** How many actions there were up to the last that made a payload; 0 if none did. */
  function LastPost(s0: State, actions: seq<Action>): (n: nat)
    requires IsRun(s0, actions)
    ensures n <= |actions|
  {
    if actions == [] then 0
    else
      var before := actions[..|actions| - 1];
      if Posts(Run(s0, before), actions[|actions| - 1]) then |actions| else LastPost(s0, before)
  }

  function Overflows(actions: seq<Action>): nat {
    if actions == [] then 0
    else Overflows(actions[..|actions| - 1]) + (if actions[|actions| - 1].Overflow? then 1 else 0)
  }

  lemma {:induction false} NoOverflows(actions: seq<Action>)
    ensures Overflows(actions) == 0 <==> Overflow !in actions
  {
    if actions != [] {
      var n := |actions| - 1;
      NoOverflows(actions[..n]);
      assert actions == actions[..n] + [actions[n]];
    }
  }

  lemma {:induction false} OverflowsSnoc(actions: seq<Action>, a: Action)
    ensures Overflows(actions + [a]) == Overflows(actions) + if a.Overflow? then 1 else 0
  {
    assert (actions + [a])[..|actions|] == actions;
  }

  lemma {:induction false} DroppedStep(s: State, a: Action)
    requires Enabled(s, a)
    ensures Step(s, a).dropped == if Posts(s, a) then 0 else s.dropped + if a.Overflow? then 1 else 0
  {
  }

  /** The pending count is what was added to it since the last payload was made. */
  lemma {:induction false} PendingCount(s0: State, actions: seq<Action>)
    requires IsRun(s0, actions)
    ensures var n := LastPost(s0, actions);
            Run(s0, actions).dropped == (if n == 0 then s0.dropped else 0) + Overflows(actions[n..])
  {
    if actions != [] {
      var n := |actions| - 1;
      var before, a := actions[..n], actions[n];
      PendingCount(s0, before);
      DroppedStep(Run(s0, before), a);
      var m := LastPost(s0, before);
      if Posts(Run(s0, before), a) {
        assert actions[n + 1..] == [];
      } else {
        OverflowsSnoc(before[m..], a);
        assert actions[m..] == before[m..] + [a];
      }
    }
  }

  lemma {:induction false} LostDroppedIff(posted: seq<Payload>)
    ensures PostedDropped(posted, false) == 0 <==> forall p | p in posted :: p.dropped > 0 ==> p.delivered
  {
    if posted != [] {
      var n := |posted| - 1;
      LostDroppedIff(posted[..n]);
      assert posted == posted[..n] + [posted[n]];
    }
  }

  /** Never losing the count of what was dropped, exactly: in every state of every run,
      closed or not, the endpoint has been told of every refused send if and only if each
      payload that carried a dropped count got through, nobody added to the count after
      the last payload was made, and no sender is still about to. */
  lemma {:induction false} AllReportedIff(capacity: nat, actions: seq<Action>)
    requires IsRun(Start(capacity), actions)
    ensures var s := Run(Start(capacity), actions);
            Reported(s) == Refused(s) <==>
              && (forall p | p in s.posted :: p.dropped > 0 ==> p.delivered)
              && Overflow !in actions[LastPost(Start(capacity), actions)..]
              && s.refusing == 0
  {
    RunAccounted(capacity, actions);
    PendingCount(Start(capacity), actions);
    NoOverflows(actions[LastPost(Start(capacity), actions)..]);
    LostDroppedIff(Run(Start(capacity), actions).posted);
  }

  // ---- shutting down ----

  /** Everything is over: the loop has ended and every sender has returned. */
  predicate Over(s: State) {
    s.done && s.refusing == 0
  }

  /** At a call of Close: no sender is between finding the queue full and counting, and
      something is left to post or no count is waiting. */
  predicate CloseSafe(s: State) {
    s.refusing == 0 && (s.queue != [] || s.batch != map[] || s.dropped == 0)
  }

  /** Where Close is safe it stays so, and the end finds no count pending. */
  lemma {:induction false} ShutdownKeepsCount(s: State, rest: seq<Action>)
    requires s.closed && !s.done && CloseSafe(s) && IsRun(s, rest)
    ensures var t := Run(s, rest);
            t.closed && t.refusing == 0 && if t.done then t.dropped == 0 else CloseSafe(t)
  {
    if rest != [] {
      var n := |rest| - 1;
      ShutdownKeepsCount(s, rest[..n]);
      if rest[n] == Dequeue {
        var t := Run(s, rest[..n]);
        assert t.queue[0].Key() in Step(t, Dequeue).batch;
      }
    }
  }

  lemma {:induction false} RunSnoc(s0: State, actions: seq<Action>, a: Action)
    requires IsRun(s0, actions) && Enabled(Run(s0, actions), a)
    ensures IsRun(s0, actions + [a]) && Run(s0, actions + [a]) == Step(Run(s0, actions), a)
  {
    assert (actions + [a])[..|actions|] == actions;
  }

  /** A run that empties the queue. */
  lemma {:induction false} Drain(s: State) returns (rest: seq<Action>)
    requires s.closed && !s.done
    ensures IsRun(s, rest)
    ensures var t := Run(s, rest);
            && t.closed && !t.done && t.queue == [] && t.dropped == s.dropped && t.refusing == s.refusing
            && (s.queue == [] ==> t == s)
  {
    rest := [];
    while Run(s, rest).queue != []
      invariant IsRun(s, rest) && Run(s, rest).closed && !Run(s, rest).done
      invariant Run(s, rest).dropped == s.dropped && Run(s, rest).refusing == s.refusing
      invariant s.queue == [] ==> rest == []
      decreases |Run(s, rest).queue|
    {
      RunSnoc(s, rest, Dequeue);
      rest := rest + [Dequeue];
    }
  }

  /** A run in which every waiting sender counts. */
  lemma {:induction false} CountAll(s: State, sofar: seq<Action>) returns (rest: seq<Action>)
    requires IsRun(s, sofar)
    ensures IsRun(s, rest)
    ensures var t, u := Run(s, sofar), Run(s, rest);
            u.refusing == 0 && u.dropped == t.dropped + t.refusing && u.done == t.done
    decreases Run(s, sofar).refusing
  {
    var t := Run(s, sofar);
    if t.refusing == 0 {
      rest := sofar;
    } else {
      RunSnoc(s, sofar, Overflow);
      rest := CountAll(s, sofar + [Overflow]);
    }
  }

  /** Some way for things to end leaves a count that no payload ever carried. */
  ghost predicate CanLeaveCount(s: State) {
    exists rest | IsRun(s, rest) :: Over(Run(s, rest)) && Run(s, rest).dropped > 0
  }

  /** A shutdown that leaves a count behind, where Close is not safe. */
  lemma {:induction false} LosingShutdown(s: State, d: Delivery)
    requires s.closed && !s.done && !CloseSafe(s)
    ensures CanLeaveCount(s)
  {
    var rest := Drain(s);
    var t := Run(s, rest);
    RunSnoc(s, rest, Finish(d));
    var all := CountAll(s, rest + [Finish(d)]);
    assert Over(Run(s, all)) && Run(s, all).dropped > 0;
  }

  /** When Close may leave a count behind: exactly when at the call a sender is still
      about to count, or a count is waiting with nothing queued or batched to carry it. */
  lemma {:induction false} CloseCanLeaveCountIff(s: State)
    requires Enabled(s, Close) && !s.done
    ensures CanLeaveCount(Step(s, Close)) <==> !CloseSafe(s)
  {
    var c := Step(s, Close);
    if !CloseSafe(s) {
      LosingShutdown(c, Delivery(true, true, true));
    } else {
      forall rest | IsRun(c, rest) && Over(Run(c, rest)) ensures Run(c, rest).dropped == 0 {
        ShutdownKeepsCount(c, rest);
      }
    }
  }

  // ---- three runs that lose a count ----

  lemma {:induction false} Grow(actions: seq<Action>, s: State, a: Action, t: State) returns (longer: seq<Action>)
    requires IsRun(Start(1), actions) && Run(Start(1), actions) == s
    requires Enabled(s, a) && Step(s, a) == t
    ensures IsRun(Start(1), longer) && Run(Start(1), longer) == t
  {
    RunSnoc(Start(1), actions, a);
    longer := actions + [a];
  }

  /** A queue of one is filled, and a second sender finds it full. */
  function CrowdedState(e: Event): State {
    Start(1).(queue := [e], accepted := [e], sends := 2, refusing := 1)
  }

  lemma {:induction false} Crowded(e: Event) returns (actions: seq<Action>)
    ensures IsRun(Start(1), actions) && Run(Start(1), actions) == CrowdedState(e)
  {
    var one := Start(1).(queue := [e], accepted := [e], sends := 1);
    actions := Grow([], Start(1), Send(e), one);
    actions := Grow(actions, one, Send(e), CrowdedState(e));
  }

  /** The one queued event taken off. */
  lemma {:induction false} TakenStep(s: State, e: Event)
    requires !s.done && s.queue == [e] && s.batch == map[] && s.current == []
    ensures Enabled(s, Dequeue)
            && Step(s, Dequeue) == s.(queue := [], batch := map[e.Key() := Group(e, 1, e.at)], current := [e])
    ensures e.Key() in Step(s, Dequeue).batch
  {
  }

  /** What a payload for a batch of one leaves behind. */
  function AfterPost(s: State, e: Event, d: Delivery): State {
    s.(posted := [Payload(map[e.Key() := Group(e, 1, e.at)], s.dropped, d.Arrives())], dropped := 0,
       batch := map[], past := [[e]], current := [])
  }

  lemma {:induction false} PostStep(s: State, e: Event, d: Delivery)
    requires s.batch == map[e.Key() := Group(e, 1, e.at)] && s.posted == [] && s.past == [] && s.current == [e]
    ensures Post(s, d) == AfterPost(s, e, d)
  {
    assert e.Key() in s.batch;
  }

  lemma {:induction false} OnePosted(p: Payload, delivered: bool)
    ensures PostedDropped([p], delivered) == if p.delivered == delivered then p.dropped else 0
  {
    assert [p][..0] == [];
  }

  /** The package promises never to lose the count of what was dropped. Here the loop
      empties the queue and posts before the second sender counts, and Close finds
      nothing to post. */
  lemma {:induction false} CountCanBeLost(e: Event, d: Delivery) returns (actions: seq<Action>)
    ensures IsRun(Start(1), actions)
    ensures var s := Run(Start(1), actions); Over(s) && Refused(s) == 1 && Reported(s) == 0 && s.dropped == 1
  {
    actions := Crowded(e);
    var s0 := CrowdedState(e);
    TakenStep(s0, e);
    var s1 := Step(s0, Dequeue);
    actions := Grow(actions, s0, Dequeue, s1);
    PostStep(s1, e, d);
    var s2 := AfterPost(s1, e, d);
    actions := Grow(actions, s1, Timer(d), s2);
    var s3 := s2.(refusing := 0, dropped := 1);
    actions := Grow(actions, s2, Overflow, s3);
    actions := Grow(actions, s3, Close, s3.(closed := true));
    actions := Grow(actions, s3.(closed := true), Finish(d), s3.(closed := true, done := true));
    OnePosted(s2.posted[0], true);
  }

  /** Here Close comes while something is queued, but the sender counts after the last
      payload was made. */
  lemma {:induction false} LateSenderIsLost(e: Event, d: Delivery) returns (actions: seq<Action>)
    ensures IsRun(Start(1), actions)
    ensures var s := Run(Start(1), actions); Over(s) && Refused(s) == 1 && Reported(s) == 0 && s.dropped == 1
  {
    actions := Crowded(e);
    var s0 := CrowdedState(e).(closed := true);
    actions := Grow(actions, CrowdedState(e), Close, s0);
    TakenStep(s0, e);
    var s1 := Step(s0, Dequeue);
    actions := Grow(actions, s0, Dequeue, s1);
    PostStep(s1, e, d);
    var s2 := AfterPost(s1, e, d).(done := true);
    actions := Grow(actions, s1, Finish(d), s2);
    actions := Grow(actions, s2, Overflow, s2.(refusing := 0, dropped := 1));
    OnePosted(s2.posted[0], true);
  }

  /** And here the payload that carried the count does not get through. */
  lemma {:induction false} FailedPostLosesCount(e: Event, d: Delivery) returns (actions: seq<Action>)
    requires !d.Arrives()
    ensures IsRun(Start(1), actions)
    ensures var s := Run(Start(1), actions);
            Refused(s) == 1 && Reported(s) == 0 && s.dropped == 0 && PostedDropped(s.posted, false) == 1
  {
    actions := Crowded(e);
    var s0 := CrowdedState(e).(refusing := 0, dropped := 1);
    actions := Grow(actions, CrowdedState(e), Overflow, s0);
    TakenStep(s0, e);
    var s1 := Step(s0, Dequeue);
    actions := Grow(actions, s0, Dequeue, s1);
    PostStep(s1, e, d);
    actions := Grow(actions, s1, Timer(d), AfterPost(s1, e, d));
    OnePosted(AfterPost(s1, e, d).posted[0], true);
    OnePosted(AfterPost(s1, e, d).posted[0], false);
  }

  /** A payload once made stays made. */
  lemma {:induction false} PostedStays(s: State, a: Action)
    requires Enabled(s, a)
    ensures PostedDropped(s.posted, false) <= PostedDropped(Step(s, a).posted, false)
  {
    var t := Step(s, a);
    if t.posted != s.posted {
      assert t.posted[..|t.posted| - 1] == s.posted;
    }
  }

  /** A count lost with its payload stays lost, whatever happens afterwards. */
  lemma {:induction false} LostStaysLost(capacity: nat, actions: seq<Action>, n: nat)
    requires IsRun(Start(capacity), actions) && n <= |actions|
    ensures IsRun(Start(capacity), actions[..n])
    ensures var s, t := Run(Start(capacity), actions[..n]), Run(Start(capacity), actions);
            PostedDropped(s.posted, false) <= PostedDropped(t.posted, false) <= Refused(t) - Reported(t)
    decreases |actions|
  {
    RunAccounted(capacity, actions);
    if n < |actions| {
      var before := actions[..|actions| - 1];
      LostStaysLost(capacity, before, n);
      assert before[..n] == actions[..n];
      PostedStays(Run(Start(capacity), before), actions[|actions| - 1]);
    } else {
      assert actions[..n] == actions;
    }
  }

  // ---- the webhook itself ----

  /** One coalesced destination in a payload. */
  datatype Refusal = Refusal(key: Key, first: Time, last: Time, count: nat)

  function RefusalOf(k: Key, g: Group): Refusal {
    Refusal(k, g.event.at, g.last, g.count)
  }

  class Webhook {
    const capacity: nat
    var queue: seq<Event>
    var closed: bool
    var done: bool
    var batch: Batch
    var dropped: nat
    var posted: seq<Payload>
    ghost var refusing: nat
    ghost var sends: nat
    ghost var accepted: seq<Event>
    ghost var current: seq<Event>
    ghost var past: seq<seq<Event>>

    ghost function Now(): State
      reads this
    {
      State(capacity, queue, closed, done, batch, dropped, refusing, posted, sends, accepted, current, past)
    }

    constructor (capacity: nat)
      ensures Now() == Start(capacity)
    {
      this.capacity := capacity;
      queue, closed, done, batch, dropped, posted := [], false, false, map[], 0, [];
      refusing, sends, accepted, current, past := 0, 0, [], [], [];
    }

    /** The select of Send: queue the event, or find no room. */
    method TrySend(e: Event) returns (full: bool)
      requires Enabled(Now(), Send(e))
      modifies this
      ensures Now() == Step(old(Now()), Send(e)) && full == (|old(queue)| >= capacity)
    {
      sends := sends + 1;
      if |queue| < capacity {
        queue := queue + [e];
        accepted := accepted + [e];
        return false;
      }
      refusing := refusing + 1;
      return true;
    }

    /** The default branch of Send, under the mutex. */
    method CountDropped()
      requires Enabled(Now(), Overflow)
      modifies this
      ensures Now() == Step(old(Now()), Overflow)
    {
      dropped := dropped + 1;
      refusing := refusing - 1;
    }

    /** The loop takes an event off the channel. */
    method TakeEvent()
      requires Enabled(Now(), Dequeue)
      modifies this
      ensures Now() == Step(old(Now()), Dequeue)
    {
      var e := queue[0];
      queue := queue[1..];
      var k := e.Key();
      if k in batch {
        var g := batch[k];
        batch := batch[k := Group(g.event, g.count + 1, e.at)];
      } else {
        batch := batch[k := Group(e, 1, e.at)];
      }
      current := current + [e];
    }

    /** Take the count, encode, and send with one retry. `d` is what the encoder and
        the endpoint do. */
    method PostBatch(d: Delivery)
      modifies this
      ensures Now() == Post(old(Now()), d)
    {
      if |batch| == 0 {
        return;
      }
      var count := dropped;
      dropped := 0;
      var delivered := Attempt(d);
      posted := posted + [Payload(batch, count, delivered)];
      batch := map[];
      past, current := past + [current], [];
    }

    /** The attempts of post: none when encoding fails, a second only after a failed first. */
    method Attempt(d: Delivery) returns (delivered: bool)
      ensures delivered == d.Arrives()
    {
      if !d.encodes {
        return false;
      }
      for attempt := 0 to 2
        invariant attempt > 0 ==> !d.first
        invariant attempt > 1 ==> !d.second
      {
        var taken := if attempt == 0 then d.first else d.second;
        if taken {
          return true;
        }
      }
      return false;
    }

    /** The window's timer fires. */
    method Tick(d: Delivery)
      requires Enabled(Now(), Timer(d))
      modifies this
      ensures Now() == Step(old(Now()), Timer(d))
    {
      if |batch| > 0 {
        PostBatch(d);
      }
    }

    method CloseEvents()
      requires Enabled(Now(), Close)
      modifies this
      ensures Now() == Step(old(Now()), Close)
    {
      closed := true;
    }

    /** The loop finds the channel closed and empty. */
    method EndLoop(d: Delivery)
      requires Enabled(Now(), Finish(d))
      modifies this
      ensures Now() == Step(old(Now()), Finish(d))
    {
      PostBatch(d);
      done := true;
    }

    /** The refusals a payload lists: one for each group, in no given order. */
    method Refusals(groups: Batch) returns (rs: seq<Refusal>)
      ensures |rs| == |groups|
      ensures forall k | k in groups :: RefusalOf(k, groups[k]) in rs
      ensures forall r | r in rs :: r.key in groups && r == RefusalOf(r.key, groups[r.key])
    {
      rs := [];
      var todo := groups.Keys;
      while todo != {}
        invariant todo <= groups.Keys && |rs| + |todo| == |groups|
        invariant forall k | k in groups && k !in todo :: RefusalOf(k, groups[k]) in rs
        invariant forall r | r in rs :: r.key in groups && r == RefusalOf(r.key, groups[r.key])
        decreases todo
      {
        var k :| k in todo;
        todo := todo - {k};
        rs := rs + [RefusalOf(k, groups[k])];
      }
    }
  }
}
