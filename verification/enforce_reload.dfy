/** When the table is loaded again, and what a reload is for: rules confined to cgroups
    that did not exist become active once one of those does. */
module EnforceReload {
  import opened Clock
  import opened Wrappers
  import opened Bytes
  import opened Text
  import opened Policy
  import opened Plan
  import opened Kernel
  import opened Codegen
  import opened Apply
  import opened Dnswatch
  import opened Enforce

  /** A turn of the loop that loads the table again. */
  predicate Reloads(p: Plan, w: World, e: Event) {
    && e.OtherFrame? && e.now - w.lastCheck > 5 * SECOND
    && Appeared(w.table.missing, e.fs) && e.applyOk && TableOf(p, e.fs).Ok?
  }

  lemma {:induction false} LearnedKeepsTable(mode: Readd, s: PolicySet, w: World, seeds: seq<Seeding>)
    ensures Seeded(mode, s, w, seeds).table == w.table && Seeded(mode, s, w, seeds).fs == w.fs
  {
    if seeds != [] {
      LearnedKeepsTable(mode, s, w, seeds[..|seeds| - 1]);
    }
  }

  /** The table only ever changes to what the plan makes of the cgroups of that turn. */
  lemma {:induction false} TableAfter(mode: Readd, s: PolicySet, p: Plan, w: World, e: Event)
    ensures var w1 := StepWorld(mode, s, p, w, e);
            && w1.table == (if Reloads(p, w, e) then TableOf(p, e.fs).value else w.table)
            && w1.fs == (if Reloads(p, w, e) then e.fs else w.fs)
  {
    if Reloads(p, w, e) {
      var w1 := Purged(w, e.now).(lastCheck := e.now);
      LearnedKeepsTable(mode, s, Reloaded(w1, TableOf(p, e.fs).value, e.fs), e.seeds);
    }
  }

  /** Only cgroups that were missing at the load can cause another one. If none was, the
      table stays for good: a cgroup that existed then and is made anew later, under the
      same path but another id, is never noticed. */
  lemma {:induction false} NothingMissingNoReload(mode: Readd, s: PolicySet, p: Plan, w: World, es: seq<Event>)
    requires w.table.missing == {}
    ensures RunWorld(mode, s, p, w, es).table == w.table && RunWorld(mode, s, p, w, es).fs == w.fs
  {
    if es != [] {
      var n := |es| - 1;
      NothingMissingNoReload(mode, s, p, w, es[..n]);
      TableAfter(mode, s, p, RunWorld(mode, s, p, w, es[..n]), es[n]);
    }
  }

  /** What a load reports missing does not exist. */
  lemma {:induction false} MissingAreAbsent(atoms: seq<Atom>, forward: bool, fs: CgroupFs, known: set<string>,
          anon: nat)
    requires AtomsBody(atoms, forward, fs, known, anon).Ok?
    ensures forall cg | cg in AtomsBody(atoms, forward, fs, known, anon).value.missing :: cg != "" && fs(cg).Absent?
  {
    if atoms != [] {
      var one := AtomBody(atoms[0], forward, fs, known, anon).value;
      MissingAreAbsent(atoms[1..], forward, fs, known, one.anon);
    }
  }

  lemma {:induction false} TableMissing(p: Plan, fs: CgroupFs)
    requires TableOf(p, fs).Ok?
    ensures forall cg | cg in TableOf(p, fs).value.missing :: cg != "" && fs(cg).Absent?
  {
    var known := SetsOf(p.sets).Keys;
    MissingAreAbsent(p.atoms, false, fs, known, 0);
    if p.forward {
      MissingAreAbsent(p.atoms, true, fs, known, ChainOf(p, false, fs, known, 0).value.anon);
    }
  }

  /** Activation: once a cgroup that was missing exists, and five seconds have passed since
      the last look, the next turn loads a table in which it is no longer missing. */
  lemma {:induction false} MissingIsActivated(mode: Readd, s: PolicySet, p: Plan, w: World, e: Event, cgroup: string)
    requires cgroup in w.table.missing && e.OtherFrame? && e.fs(cgroup).Found?
    requires e.now - w.lastCheck > 5 * SECOND && e.applyOk && TableOf(p, e.fs).Ok?
    ensures var w1 := StepWorld(mode, s, p, w, e);
            w1.table == TableOf(p, e.fs).value && w1.fs == e.fs && cgroup !in w1.table.missing
  {
    assert Appeared(w.table.missing, e.fs);
    TableAfter(mode, s, p, w, e);
    TableMissing(p, e.fs);
  }
}
