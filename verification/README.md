# egresswall, verified

egresswall refuses outgoing traffic that a policy file does not allow. It answers
"may this packet leave?" twice: in user space, by walking compiled rules
(`Set.Evaluate`), and in the kernel, by an nftables program with address sets fed
from DNS answers. Around that sit a learning mode that writes a policy from observed
traffic, an alert webhook, a reader of the kernel's refusal log, and a packet parser.

This project models those parts in Dafny and proves what they are for. `dafny verify
dfyconfig.toml` checks everything.

## How it is laid out

Each source file has a module of its own. Code that updates state in the source is a
method or a class here, proved equal to a function of its inputs or of its old state;
the laws are lemmas about that function.

| files | what they cover |
|---|---|
| `policy`, `policy_laws` | the policy compiler and the matcher; deny before allow; name and cgroup rules |
| `plan`, `plan_correct` | rules flattened into atoms and sets; first match is preserved |
| `kernel`, `codegen`, `apply`, `table_correct`, `set_names` | a one-register packet machine, the code emitted for it, the loaded table, and that the table decides as the policy does |
| `printed` | the printed ruleset, and that it is the loaded one |
| `dnswatch` | the address cache as a refinement of the history of answers |
| `enforce`, `enforce_safety`, `enforce_coverage`, `enforce_exact`, `enforce_reload`, `daemon` | the enforcing loop as a state machine, its whole-run safety, coverage and exact verdicts, when it reloads, and the loop as a class refining it |
| `enforce_report`, `report_runs`, `enforce_limits` | when what the daemon reports is what the kernel does; where coverage ends, and what a cgroup made anew escapes |
| `learn`, `learn_initiator`, `learn_book` | who opened a flow, the book of flows, invisible garbage collection |
| `write`, `write_laws`, `write_permits`, `learned_policy` | the learned policy: when it loads, what it permits, and both in terms of the packets an observer saw |
| `alert` | the webhook queue under every interleaving |
| `kmsg` | the kernel log line, printed and read back |
| `packet` | the IP, UDP and TCP parser |
| `bytes`, `text`, `netip`, `seqs`, `sums`, `clock`, `wrappers` | bits, strings, addresses and small tools |

Every lemma switches automatic induction off, so each inductive step stands in its proof.

## How the chain of results fits together

1. `PolicyLaws.CompiledSetShape`: whatever `Compile` accepts is well formed. All later
   results ask only for that.
2. `PlanCorrect.PlanDecidesAsPolicy`: first match over `Build`'s atoms is the policy's
   decision. `Codegen.AtomCodeCorrect`: the code of an atom fires exactly when the atom
   matches. `SetNames.PlanLoadsIff`: loading fails only on a cgroup that cannot be looked at.
3. `TableCorrect.TableDecidesAsAtoms` joins the two over both whole chains, for every packet,
   each socket placed by the ids cgroups had at the load; `TableCorrect.OutputDecidesAsPolicy`
   and `TableCorrect.ForwardDecidesAsPolicy` say when that is the policy's own answer, and
   `Printed.TextIsTableRuleForRule` shows that what `-print` shows is that table, rule for rule.
4. `EnforceSafety.RunAcceptedIsPermitted` gives safety over whole runs,
   `EnforceCoverage.RunNamedIsLive` coverage between reloads, and
   `EnforceExact.RunDecidesExactly` the exact verdict of either chain on every packet to an
   address that is not IPv4-mapped, in every state of every run, on kernels of any kind,
   whatever fails and whatever becomes of cgroups. `Daemon.Enforcer.Run` ties the loop itself to
   the same run function.
5. `WritePermits.LearnedPolicyDecides` says what a learned file permits, and
   `LearnedPolicy.LearnedRunIsExact` says it of the flows an observer recorded.

## Where the code and its promises part

Each of these is a lemma, with the exact condition under which the promise holds.

* The alert package says it never loses the count of what was dropped
  (internal/alert/alert.go:1-4). Three runs lose one: `Alerts.CountCanBeLost`,
  `Alerts.LateSenderIsLost` and `Alerts.FailedPostLosesCount`. `Alerts.AllReportedIff` says for
  every state of every run when nothing is lost, and `Alerts.CloseCanLeaveCountIff` when a call
  of `Close` may leave a count behind.
* A learned policy is said to always load (internal/learn/write.go:18-21). It does exactly when
  no port 0 was seen and every name seen can be put in a rule: `LearnedPolicy.RunLoadsIff`. An
  observer comes by both kinds (`LearnedPolicy.PortZeroDoesNotLoad`,
  `LearnedPolicy.BadNameDoesNotLoad`). A name with a leading star does load, and lets out
  names never seen (`LearnedPolicy.StarLetsMoreOut`).
* The daemon reports a verdict under the one name the cache gives, while the kernel goes by
  every name of the address. In any run the two agree for all policies without cgroups exactly
  when the address goes by the reported name and no other (`ReportRuns.ReportedRightlyIff`;
  where deadlines are extended, `ReportRuns.ExtendReportedRightlyIff`).
  `EnforceReport.VerdictIsReported` is a condition for a single policy, and
  `ReportRuns.SharedAddressIsMisreported` a run in which a packet passes that is reported refused.
* A cgroup that did not exist at the load is noticed when it appears
  (`EnforceReload.MissingIsActivated`); one that existed and is made anew is not
  (`EnforceReload.NothingMissingNoReload`), and its sockets escape the rules confined to it:
  `EnforceLimits.RemadeCgroupIsLetOut`. `TableCorrect.TestByIdIff` says exactly which sockets a
  rule confined to a cgroup finds.
* The log prefix is what the reader of the kernel log looks for
  (internal/nft/plan.go:142-143). A rule name comes back exactly when it has at most 101
  bytes and no `]: ` in it, provided the log hands its text out verbatim: `Kmsg.LogRoundTrip`.
* `NormalizeDomain` is not idempotent; `PolicyLaws.NormalizeIdempotentIff` says where.
* IPv4-mapped addresses: the matcher unmaps them, the kernel compares the bytes on the wire
  (`PlanCorrect.MappedAddressesDiffer`); the cache stores them as they come and looks up
  unmapped ones (`Dnswatch.RecordedIsFoundIff`); on kernels that replace deadlines one can
  cut a set entry short (`EnforceLimits.MappedRecordShortens`).
* On kernels that keep the deadline of an element that is added again, an address answered for
  twice leaves the sets while the cache still names it (`EnforceLimits.KeepForgets`).
* After a reload the cache still names addresses that are in no set until they are learned
  again (`EnforceLimits.ReloadForgets`), so coverage is stated from the last load on.
* Reply suppression ends one instant before freshness does; at exactly the window a packet is
  recorded but claims nothing: `LearnInitiator.OutgoingUdpCases`.

## What is assumed

* The address library (`netip`) is a parameter. Its one law, used only for the learned
  policy, is that what is printed for an address reads back as that address and is not a
  prefix; `WriteLaws.UsableLibraryExists` shows the law can be met.
* The kernel runs a rule as instructions over one register, drops a rule at a failed test or
  a short load, keeps an element up to and including its deadline, and on re-adding an
  element replaces, extends or keeps the deadline (`Readd`). A conntrack word is four bytes,
  least significant first; a cgroup id is eight opaque bytes.
* The kernel log hands out the text that was logged. `/dev/kmsg` itself escapes backslashes and
  bytes outside printable ASCII, and the reader undoes nothing, so a rule name with such a byte
  meets the condition of the round trip and still does not come back.
* A packet is judged together with its flow and its destination; `EnforceSafety.EveryFlowIsJudged`
  shows that under any policy that loads every tcp or udp flow of the root cgroup has them.
* No cgroup changes while one table is being loaded. Where a result speaks of cgroup paths, the
  ids among a socket's ancestors belong to no other path than at the load (`IdsFaithful`); safety
  asks for that and no more, and the exact verdict not even for that.
* Each turn of a loop takes its clock reading, its parsed DNS answer, its resolver
  results, the cgroup tree and the success of each netlink batch as inputs.

## Model

| member | source | states |
|---|---|---|
| Policy.CompileDomains | internal/policy/policy.go:154-169 | A name is exact or a suffix by its normal form, the first bad pattern is the error, and exact names form a set while suffixes keep file order |
| Policy.CompileEach | internal/policy/policy.go:170-188 | Compiling a list of prefixes or ports keeps all of it in order, or reports the first fault |
| Policy.CompileRule | internal/policy/policy.go:149-204 | A rule compiles to the specified rule; among its faults the first, in the order domains, cidrs, ports, proto, cgroup, is reported |
| Policy.CompileRules | internal/policy/policy.go:127-142 | One list's compiled rules and errors, both in file order, none stopping the others |
| Policy.Compile | internal/policy/policy.go:113-147 | Version, then default, then all rule errors at once, deny list first; else the set of all rules |
| Policy.Match | internal/policy/policy.go:272-310 | The early-exit loops answer protocol and port and host, where the host fits by being any, by name, or by a prefix holding the unmapped address |
| Policy.Evaluate | internal/policy/policy.go:253-270 | The first rule that applies to the destination decides, the default when none does |
| Policy.DomainRuleList | internal/policy/policy.go:350-352 | The indexes of exactly the rules covering a name, in increasing order |
| Policy.DomainRules | internal/policy/policy.go:353-370 | The loop with its two early exits builds that list |
| PolicyLaws.CompileAccepts | internal/policy/policy.go:113-147 | Compile succeeds exactly when version, default and every rule are good, and then rule i is the i-th of the file, deny list first |
| PolicyLaws.RuleWellFormed | internal/policy/policy.go:149-220 | A compiled rule has a name, ports with 1 <= lo <= hi, masked prefixes, no empty name or suffix, a clean cgroup path, and is any-host exactly when it names no host |
| PolicyLaws.CompiledSetShape | internal/policy/policy.go:113-147 | Every compiled set is well formed with all denies before all allows |
| PolicyLaws.DenyWins | internal/policy/policy.go:251-252 | Allowed exactly when no deny rule applies and the default or some allow rule lets it through |
| PolicyLaws.NormalizeIdempotentIff | internal/policy/policy.go:244-247 | Normalising twice is normalising once exactly unless the trimmed name ends in two dots or in space-dot |
| PolicyLaws.NormalizeNotIdempotent | internal/policy/policy.go:244-247 | The name "a.." is one that changes twice |
| PolicyLaws.CgroupWithinIsAncestry | internal/policy/policy.go:239-242 | For all paths, the text test of being within a cgroup is the kernel's level-and-ancestor test |
| PolicyLaws.NoCgroupNoMatch | internal/policy/policy.go:256-261 | A rule confined to a cgroup never applies to a socket nobody could place |
| Plan.Emit | internal/nft/plan.go:114-122 | One atom per port range of the rule, for one family and address test |
| Plan.EmitPrefixes | internal/nft/plan.go:127-133 | Each prefix's atoms, in the prefix's own family |
| Plan.EmitRule | internal/nft/plan.go:104-138 | One rule's atoms: one address-less group for any-host, else its prefixes and its two sets |
| Plan.EmitSets | internal/nft/plan.go:105-108 | Two sets for each rule with domains, none for the others |
| Plan.Build | internal/nft/plan.go:102-140 | The loop over rules builds the specified plan |
| PlanCorrect.RuleAtomsMatch | internal/nft/plan.go:109-137 | Some atom of a rule matches exactly when the rule does, and all carry its verdict, name and cgroup |
| PlanCorrect.AtomsDecideAsRules | internal/nft/plan.go:102-140 | Flattening preserves first match for every packet and every content of the sets |
| PlanCorrect.RulesDecideAmong | internal/policy/policy.go:253-310 | Whatever rules the sets put an address under and whatever cgroups the socket passes for, tests on bytes and sets decide as the policy does with its name under those rules and its socket in those cgroups |
| PlanCorrect.NamedIsDecide | internal/policy/policy.go:253-270 | With a single name that decision is Evaluate's |
| PlanCorrect.PlanDecidesAsPolicy | internal/nft/plan.go:102-140 | Build is correct: first match over the atoms gives Evaluate's verdict and rule name, for any unmapped destination resolved from any set of names |
| PlanCorrect.MappedAddressesDiffer | internal/policy/policy.go:301-308 | Every IPv4-mapped destination has a policy on which matcher and atoms disagree, so the restriction above is exact |
| Codegen.BuildMask | internal/nft/apply_linux.go:326-329 | The bit-by-bit loop builds the mask of the prefix length |
| Bytes.MaskIsMask | internal/nft/apply_linux.go:320-329 | Bit i of the mask is set exactly when i is below the prefix length, for every length and size |
| Bytes.MaskedCompare | internal/nft/apply_linux.go:325-332 | Comparing masked bytes is comparing the first bits |
| Bytes.WordOrder | internal/nft/apply_linux.go:361-365 | Bytewise order of big-endian ports is numeric order, so ranges compare right |
| Netip.MaskedContainsSame | internal/policy/policy.go:180-180 | Masking a prefix does not change which addresses it holds |
| Netip.FullPrefixContains | internal/policy/policy.go:173-179 | A bare address, taken as a full-length prefix, holds only itself |
| Codegen.PrefixPiece | internal/nft/apply_linux.go:318-332 | Load, mask and compare fall through exactly on addresses of the prefix, mask step skipped at full length |
| Codegen.DaddrPiece | internal/nft/apply_linux.go:317-339 | The address part falls through exactly when the prefix or set test holds |
| Codegen.ProtoPiece | internal/nft/apply_linux.go:340-356 | The protocol part falls through exactly on the protocol, or on tcp and udp when only a port is given |
| Codegen.PortPiece | internal/nft/apply_linux.go:358-366 | The port part falls through exactly on ports of the range |
| Codegen.VerdictPiece | internal/nft/apply_linux.go:288-293 | The closing instructions accept, or refuse with the log prefix of the rule |
| Codegen.AtomCodeCorrect | internal/nft/apply_linux.go:295-374 | Code generation is correct: the instructions end in the atom's verdict on the packets it matches and fall through on all others |
| Codegen.PlanAtomsGood | internal/nft/plan.go:123-136 | Build gives no family to exactly the atoms with neither prefix nor set, and prefix atoms their own family |
| Kernel.RunChainConcat | internal/nft/apply_linux.go:138-140 | Appending rules to a chain is running the rest where the first part falls through |
| Apply.Handle.constructor | internal/nft/apply_linux.go:80-80 | A new handle has no sets, chains or missing cgroups |
| Apply.Handle.AddRule | internal/nft/apply_linux.go:138-140 | One rule is appended to one chain and nothing else changes |
| Apply.Handle.TcpOrUdp | internal/nft/apply_linux.go:184-201 | Each call takes the next anonymous set and looks it up |
| Apply.Handle.DaddrExprs | internal/nft/apply_linux.go:317-339 | The address instructions of an atom, with the mask loop run in place |
| Apply.Handle.ProtoExprs | internal/nft/apply_linux.go:340-356 | The protocol instructions of an atom, and whether an anonymous set was used up |
| Apply.Handle.AtomExprs | internal/nft/apply_linux.go:295-374 | The whole instruction list of an atom, or the missing cgroup, unreadable cgroup or unknown set in that order |
| Apply.Handle.HousekeepingRules | internal/nft/apply_linux.go:144-150 | The accepts for link-local and multicast are appended, in order |
| Apply.Handle.AtomRule | internal/nft/apply_linux.go:151-164 | One atom adds its rule, or nothing in the wrong chain, or marks its cgroup missing, or fails the load |
| Apply.Handle.AtomRules | internal/nft/apply_linux.go:151-164 | All atoms in order, with the missing cgroups collected |
| Apply.Handle.ChainBody | internal/nft/apply_linux.go:142-169 | Established, housekeeping, policy and closing rules in that order |
| Apply.Handle.DeclareSets | internal/nft/apply_linux.go:82-96 | Every planned set exists with its family, and is empty |
| Apply.Handle.GroupBySet | internal/nft/apply_linux.go:211-217 | Fails exactly on an addition to an unknown set; else every set's additions in order, none lost or doubled |
| Apply.Handle.PutBySet | internal/nft/apply_linux.go:218-222 | Whatever order the sets come in, each gets its own batch and the others stay |
| Apply.Handle.AddAddrs | internal/nft/apply_linux.go:207-224 | All additions are made as if one by one, or none, and an error is returned exactly in the second case |
| Apply.AddAllBySet | internal/nft/apply_linux.go:203-206 | Grouping additions by set changes nothing: each set sees its own, in order |
| Apply.StagedIsAddAll | internal/nft/apply_linux.go:218-223 | Batches per set in any order give the same sets as adding one address at a time |
| Apply.Handle.BuildChain | internal/nft/apply_linux.go:102-130 | A new chain holds its opening rules and the body, and other chains are untouched |
| Apply.Apply | internal/nft/apply_linux.go:71-136 | The loaded sets, chains, chain policy and missing cgroups are those of the specified table, or the same error |
| TableCorrect.TestByIdIff | internal/nft/apply_linux.go:297-306 | While ids are not mixed up, a socket passes for being in a cgroup exactly when its path is within it and its ancestor at that level has the id of the load |
| TableCorrect.TestIsWithin | internal/nft/apply_linux.go:297-306 | For sockets whose cgroup existed at load time that is the path test |
| TableCorrect.PlacedByPath | internal/nft/apply_linux.go:151-164 | The kernel places such a socket in exactly the cgroups of rules its path is in, skipped atoms included |
| TableCorrect.AtomsBodyDecides | internal/nft/apply_linux.go:151-164 | The policy part of either chain is first match over the atoms for every packet, each cgroup tested by its id at the load, if it had one |
| TableCorrect.PreambleRuns | internal/nft/apply_linux.go:143-150 | Established traffic and housekeeping destinations are accepted, and only those, before the policy is asked |
| TableCorrect.ChainDecides | internal/nft/apply_linux.go:142-169 | A chain body accepts that traffic and otherwise decides as the atoms do |
| TableCorrect.BridgesRun | internal/nft/apply_linux.go:171-180 | Exactly interfaces named docker... or br-... pass the forward chain's opening rules |
| TableCorrect.TableDecidesAsAtoms | internal/nft/apply_linux.go:98-130 | Both whole chains, every packet: past loopback or bridges, established and housekeeping, the verdict of the atoms with the socket placed by id |
| TableCorrect.OutputDecidesAsPolicy | internal/nft/apply_linux.go:98-113 | For sockets whose cgroup existed at the load, that is the verdict and rule name of the policy |
| TableCorrect.ForwardDecidesAsPolicy | internal/nft/apply_linux.go:115-130 | The loaded forward chain does so for traffic that comes from no cgroup and leaves the bridges |
| SetNames.SetNameInjective | internal/nft/plan.go:87-92 | A set name tells its rule and family |
| SetNames.AnonymousDistinct | internal/nft/apply_linux.go:186-192 | No anonymous set takes the name of a rule's set |
| SetNames.DeclaredExactly | internal/nft/plan.go:105-108 | Exactly the two sets of each rule with domains are declared, with their families |
| SetNames.PlanSetsKnown | internal/nft/apply_linux.go:333-337 | No atom of a built plan refers to an unknown set |
| SetNames.PlanLoadsIff | internal/nft/apply_linux.go:151-164 | A built plan loads exactly when no cgroup it names is unreadable; missing ones are no obstacle |
| Printed.PrintHousekeeping | internal/nft/plan.go:194-196 | The housekeeping lines, appended in order |
| Printed.PrintAtoms | internal/nft/plan.go:197-204 | The lines of the atoms that belong in the chain, in order |
| Printed.PrintChainBody | internal/nft/plan.go:192-209 | The printed body of a chain |
| Printed.PlanText | internal/nft/plan.go:158-184 | The printout: set declarations in order with their types, both chains, the chain policy |
| Printed.AtomTextMatches | internal/nft/plan.go:217-242 | A printed rule matches what its atom matches, family and protocol being implied by daddr and dport |
| Printed.PrintedIsLoaded | internal/nft/plan.go:192-209 | Printed and loaded chain bodies send every packet the same way, lines of missing cgroups included |
| Printed.TextIsTable | internal/nft/plan.go:158-184 | The printed declarations make the loaded sets, and both chains treat every packet alike |
| Printed.AtomsSameRules | internal/nft/plan.go:197-204 | The lines of the atoms whose cgroups exist and the rules loaded for them agree one by one |
| Printed.TextIsTableRuleForRule | internal/nft/plan.go:155-157 | What is printed is what is loaded: as many rules as lines in both chains, and in the same order each rule does to every packet what its line says |
| Dnswatch.Cache.Put | internal/dnswatch/cache.go:129-133 | One address gets one entry, others keep theirs |
| Dnswatch.Cache.Record | internal/dnswatch/cache.go:119-127 | An answer's addresses are stored in order with their TTLs stretched |
| Dnswatch.Cache.Lookup | internal/dnswatch/cache.go:136-144 | The name of the unmapped address until and including its expiry |
| Dnswatch.Cache.Purge | internal/dnswatch/cache.go:147-155 | Exactly the expired entries go, in whatever order they are visited |
| Dnswatch.CacheRefinesHistory | internal/dnswatch/cache.go:119-155 | After any run of answers and purges a later lookup gives the last answer for the address while its stretched TTL lasts |
| Dnswatch.RecordedLookup | internal/dnswatch/cache.go:119-144 | Recording an address changes exactly the lookups that unmap to it |
| Dnswatch.RecordedIsFoundIff | internal/dnswatch/cache.go:125-139 | Whatever is cached, a newly recorded address is found under its name exactly when it is not IPv4-mapped or went by that name before |
| Enforce.FeedIsFactByFact | cmd/egresswall/enforce.go:232-250 | Feeding an answer in one batch is feeding its addresses one by one |
| Enforce.FeedNeverMisses | cmd/egresswall/enforce.go:243-246 | Every addition names a declared set of the family of the unmapped address, so the no-set error never occurs |
| Enforce.StepSafe | cmd/egresswall/enforce.go:166-211 | Every turn of the loop keeps: each set element has a covering answer taken in since the load, with that answer's deadline |
| Enforce.RunSafe | cmd/egresswall/enforce.go:164-213 | Hence every state of every run does, whatever the answers, reloads and failures |
| EnforceSafety.LiveKeyAnswered | internal/nft/apply_linux.go:207-224 | A live key of a rule's set is the address of a covering answer that has not outlived its TTL |
| EnforceSafety.AllowedByRule | internal/nft/apply_linux.go:295-374 | What a default-deny rule list allows, an allow rule that applies allows |
| EnforceSafety.AcceptedIsPermitted | internal/nft/apply_linux.go:142-169 | In a safe state and under default deny an accepted packet has an allow rule for its port, protocol and cgroup that is any-host, has its prefix, or covers the name of a live answer for it |
| EnforceSafety.RunAcceptedIsPermitted | cmd/egresswall/enforce.go:164-213 | Safety: so it is in every state of every run, on either chain and any kind of kernel, whatever the answers, reloads and failures |
| EnforceCoverage.StepCovered | cmd/egresswall/enforce.go:179-211 | Every turn with committed batches keeps coverage |
| EnforceCoverage.RunCovered | cmd/egresswall/enforce.go:164-213 | Coverage: in every state of a run what the cache remembers since the load is in every covering rule's set until the cache forgets it |
| EnforceCoverage.NamedAddressIsLive | cmd/egresswall/enforce.go:230-246 | In a covered state, while a lookup names an address learned since the load, it is live in the right-family set of every covering rule |
| EnforceCoverage.RunNamedIsLive | cmd/egresswall/enforce.go:164-213 | So it is in every state of a run whose batches were committed |
| EnforceExact.RunFed | cmd/egresswall/enforce.go:164-213 | In every state of every run the sets are what the answers committed since the load make of empty ones |
| EnforceExact.KeyDeadline | internal/nft/apply_linux.go:207-224 | An address is in the set of a rule exactly until what its answers for that rule settle on, on every kind of kernel |
| EnforceExact.ExtendLiveIff | internal/nft/apply_linux.go:216-216 | Where deadlines are extended it is live exactly while some answer has not run out |
| EnforceExact.ReplaceLiveIff | internal/nft/apply_linux.go:216-216 | Where they are replaced, exactly while the last one has not |
| EnforceExact.KeepLiveBy | internal/nft/apply_linux.go:216-216 | Where they are kept, it is live by an answer that has not run out and in whose time all later ones came |
| EnforceExact.LiveRulesHold | cmd/egresswall/enforce.go:230-250 | The live sets hold an address for exactly those rules |
| EnforceExact.RunDecidesExactly | cmd/egresswall/enforce.go:164-213 | The enforcing run decides exactly: in every state of every run, on any kind of kernel, whatever fails and becomes of cgroups, either chain gives the policy verdict with the destination under exactly the rules an answer still stands for and the socket in exactly the cgroups whose loaded id it has |
| EnforceExact.LiveRulesAreNamed | cmd/egresswall/enforce.go:230-250 | Where deadlines are extended those are the rules of the names it currently goes by |
| EnforceExact.RunDecidesAsPolicy | cmd/egresswall/enforce.go:164-213 | On kernels that extend deadlines, and for sockets placed where their path is, that is the policy verdict under all names the destination currently goes by |
| EnforceReport.VerdictIsReported | cmd/egresswall/enforce.go:119-138 | Over every run and on any kind of kernel, the verdict is the reported one whenever the address is live for exactly the rules of its reported name and the socket is placed where its path is |
| EnforceReport.DecidesAsNameIff | cmd/egresswall/enforce.go:119-138 | The live rules decide as a name does under every policy exactly when the address goes by that name and no other |
| EnforceReport.ExtendGoesByOnlyIff | cmd/egresswall/enforce.go:119-138 | Where deadlines are extended that is when, in normal form, it is the only name of an answer that has not run out |
| ReportRuns.SameAnswers | cmd/egresswall/enforce.go:164-213 | What a run took in and cached does not depend on a policy without cgroups |
| ReportRuns.ReportedRightlyIff | cmd/egresswall/enforce.go:119-138 | In every run and on any kind of kernel, all policies without cgroups have all packets to an address decided as reported exactly when it goes by the reported name and no other |
| ReportRuns.ExtendReportedRightlyIff | cmd/egresswall/enforce.go:119-138 | Where deadlines are extended: exactly when the reported name is the only one of an answer that has not run out |
| ReportRuns.SharedAddressIsMisreported | cmd/egresswall/enforce.go:119-138 | A run from the first load, on any kind of kernel: two names on one address, a packet passes the output chain under the first and is reported refused under the second |
| EnforceLimits.ReloadForgets | cmd/egresswall/enforce.go:195-209 | In every reachable state an address no answer was for since the load is in no set, however long ago the load was |
| EnforceLimits.KeepForgets | internal/nft/apply_linux.go:207-224 | Where deadlines are kept: a run after which an address answered for twice is in no set of a covering rule while the cache names it |
| EnforceLimits.RemadeCgroupIsLetOut | internal/nft/apply_linux.go:36-51 | In every state of every run a socket in a denied cgroup made anew since the load is let out |
| EnforceReload.TableAfter | cmd/egresswall/enforce.go:195-209 | A turn loads the table again exactly when a missing cgroup exists, the time has come and loading succeeds, and otherwise keeps it |
| EnforceReload.NothingMissingNoReload | cmd/egresswall/enforce.go:195-209 | If no cgroup was missing at the load, the table stays for good |
| EnforceReload.TableMissing | internal/nft/apply_linux.go:155-159 | What a load reports missing does not exist |
| EnforceReload.MissingIsActivated | cmd/egresswall/enforce.go:195-209 | Once a missing cgroup exists the next due turn loads a table in which it is not missing |
| EnforceLimits.MappedRecordShortens | internal/dnswatch/cache.go:125-139 | Where deadlines are replaced, a mapped record takes a live, still cached address out of the sets |
| Daemon.Enforcer.constructor | cmd/egresswall/enforce.go:164-165 | The loop starts from a freshly loaded table and an empty cache |
| Daemon.Enforcer.FeedOne | cmd/egresswall/enforce.go:243-245 | The inner loop adds one address for every covering rule |
| Daemon.Enforcer.FeedList | cmd/egresswall/enforce.go:233-246 | The nested loops build one addition per address and covering rule, TTL stretched |
| Daemon.Enforcer.Feed | cmd/egresswall/enforce.go:232-250 | All of an answer's addresses reach the sets of every covering rule, or none when the batch fails |
| Daemon.Enforcer.Learn | cmd/egresswall/enforce.go:181-184 | The answer is recorded in the cache and fed to the sets |
| Daemon.Enforcer.SeedAddrs | cmd/egresswall/enforce.go:265-268 | Resolved addresses are unmapped and given the shortest TTL |
| Daemon.Enforcer.Seed | cmd/egresswall/enforce.go:255-273 | Each successful lookup is learned like an answer, failed ones are skipped |
| Daemon.Enforcer.Reload | cmd/egresswall/enforce.go:200-208 | A successful reload swaps the table, empties the sets, keeps the cache and seeds; a failed one changes nothing |
| Daemon.Enforcer.Swap | cmd/egresswall/enforce.go:205-207 | From here on the loop works on the new table with empty sets, cache, timers and history unchanged |
| Daemon.Enforcer.SweepCache | cmd/egresswall/enforce.go:191-194 | Purges when more than thirty seconds have passed since the last purge |
| Daemon.Enforcer.Frame | cmd/egresswall/enforce.go:166-211 | One turn of the loop does exactly the transition of the state machine |
| Daemon.Enforcer.Run | cmd/egresswall/enforce.go:164-213 | The loop refines the run function all whole-run results are about |
| Learn.Observer.constructor | internal/learn/learn.go:71-80 | A new observer has empty tables |
| Learn.Observer.Resolve | internal/learn/learn.go:132-135 | The host is the cached name, else the text of the address |
| Learn.Observer.Tally | internal/learn/learn.go:136-151 | Entry, addresses, origins and news after one more flow, and nothing else changed |
| Learn.Observer.Record | internal/learn/learn.go:131-154 | A flow is resolved and booked under its key |
| Learn.Observer.Incoming | internal/learn/learn.go:85-98 | DNS answers are recorded, and the peer's stamp is set unless ours on the tuple still counts |
| Learn.Observer.Claim | internal/learn/learn.go:109-119 | The tuple is claimed unless the stamp of the peer counts, and a reply is one strictly within the window |
| Learn.Observer.Outgoing | internal/learn/learn.go:99-128 | The transition for a packet of ours |
| Learn.Observer.Packet | internal/learn/learn.go:84-129 | The whole transition of the observer for a packet in either direction |
| Learn.Observer.Sweep | internal/learn/learn.go:190-200 | Exactly the stamps older than the window go |
| LearnInitiator.InitiatorInvariant | internal/learn/learn.go:60-66 | In every reachable state a tuple has at most one side whose stamp still counts |
| LearnInitiator.OutgoingUdpCases | internal/learn/learn.go:109-120 | A reply within the window leaves no trace, past it the packet is recorded and claims the tuple, at exactly the window it is recorded and claims nothing |
| LearnInitiator.FirstSenderIsRecorded | internal/learn/learn.go:60-66 | If we send first and keep our gaps within the window, all our packets on the tuple are recorded, whatever happens in between |
| LearnInitiator.RepliesAreNotRecorded | internal/learn/learn.go:60-66 | If the peer sends first and we answer strictly within the window, none of ours is |
| LearnInitiator.CollectionIsInvisible | internal/learn/learn.go:189-200 | Leaving out every sweep and purge changes neither the book nor any later packet or lookup |
| LearnBook.BookIsFlows | internal/learn/learn.go:131-154 | The tables of a run are those of its recorded flows, and of nothing else |
| LearnBook.BookKeys | internal/learn/learn.go:136-148 | The three tables have the same keys, those of the recorded flows |
| LearnBook.EntryExact | internal/learn/learn.go:138-146 | An entry counts the flows of its key and has the times of the first and the last and the host kind of the first |
| LearnBook.OriginsExact | internal/learn/learn.go:148-148 | Origins count the flows by cgroup and add up to the hits |
| LearnBook.IpsExact | internal/learn/learn.go:147-147 | An entry's addresses are exactly those of its flows |
| LearnBook.HitsAddUp | internal/learn/learn.go:145-145 | All hits together are the recorded packets |
| LearnBook.NewsOncePerKey | internal/learn/learn.go:149-153 | OnNew is called in order for the first packet of each key, with the entry as that packet made it, and once per key |
| LearnBook.Accounts | internal/learn/learn.go:131-154 | All of these in every reachable state: keys, hits, news, origins by cgroup, addresses, and no entry ends before it begins |
| LearnBook.Insert | internal/learn/learn.go:173-185 | A report goes to its place in the order by kind, host, port, protocol |
| LearnBook.Entries | internal/learn/learn.go:157-187 | A strictly sorted list with exactly one report per entry, with its addresses and origins |
| LearnBook.SortedUnique | internal/learn/learn.go:156-157 | Only one sorted list has given members |
| LearnBook.EntriesIndependentOfOrder | internal/learn/learn.go:160-171 | Whatever order the table is walked in, the list is the same |
| Write.PortList | internal/learn/write.go:143-153 | Each port once, in order of first appearance, in decimal |
| Write.Merge | internal/learn/write.go:36-59 | One rule per host in order of first appearance, with metadata entries left out |
| Write.Render | internal/learn/write.go:78-90 | One rule's fields; the protocol only when there was a single one |
| Write.WritePolicy | internal/learn/write.go:22-107 | The file is handed out exactly when it compiles, and otherwise the compiler's error |
| WriteLaws.MergeExact | internal/learn/write.go:36-59 | Each host seen has exactly one rule, with all its ports and all its protocols and no others |
| WriteLaws.PortTextReadsBack | internal/learn/write.go:149-149 | A port written in decimal reads back as that port, except 0 |
| WriteLaws.FileLoadsIff | internal/learn/write.go:102-104 | The file loads exactly when each merged rule can |
| WriteLaws.LearnedPolicyLoadsIff | internal/learn/write.go:18-21 | The file loads exactly when no entry has port 0 and each name a rule is made for can be put in a rule |
| WritePermits.LearnedPolicyDecides | internal/learn/write.go:36-107 | Every file that loads allows a destination, with a name, an address or both, exactly when it does not carry the metadata address and some host seen is about it, on a port and over a protocol seen for that host |
| WritePermits.LearnedPolicyIsExact | internal/learn/write.go:36-107 | With plain names: exactly when it does not carry the metadata address and its name was seen, or its address without a name, on that port and over that protocol |
| WritePermits.AloneIsExact | internal/learn/write.go:36-107 | Of a destination given by name or by address alone only that one matters |
| WritePermits.MetadataIsDenied | internal/learn/write.go:66-72 | A destination carrying the metadata address is denied by that rule, named or not, whatever was seen |
| LearnedPolicy.RunIsCollected | internal/learn/learn.go:99-135 | What an observer collects is over tcp or udp, to a name or to the text of an address |
| LearnedPolicy.RunIsObserved | internal/learn/learn.go:132-135 | With answers for ordinary names, names are plain and no host is both a name and an address |
| LearnedPolicy.RunLoadsIff | internal/learn/write.go:18-21 | The policy of a run loads exactly when nothing but the metadata address was seen on port 0 and a rule can be made for every name seen |
| LearnedPolicy.RunDecides | internal/learn/write.go:36-107 | Every run whose policy loads, starred names included: allowed exactly when it does not carry the metadata address and some host of the list is about it, on a port and over a protocol seen for that host |
| LearnedPolicy.LearnedRunIsExact | internal/learn/write.go:18-21 | From packets to verdicts, with answers for ordinary names: it loads exactly when no flow but to the metadata address was on port 0, and allows exactly the destinations a recorded flow went to, on ports and protocols recorded for that host |
| LearnedPolicy.NameIsLearned | internal/learn/learn.go:86-89 | Any name but the empty one is learned once an answer for it is seen |
| LearnedPolicy.PortZeroDoesNotLoad | internal/policy/policy.go:209-209 | A run whose policy does not load, over port 0 |
| LearnedPolicy.BadNameDoesNotLoad | internal/policy/policy.go:156-165 | For every name no rule can be made for, a run whose policy does not load |
| LearnedPolicy.StarLetsMoreOut | internal/policy/policy.go:159-163 | A learned name with a leading star lets out every name below it, seen or not |
| Alerts.CoalesceExact | internal/alert/webhook.go:128-134 | A batch has one group per key that occurred, with its first event, the number of occurrences and the last time |
| Alerts.CoalesceTotal | internal/alert/webhook.go:128-134 | The counts of a batch add up to the events taken in |
| Alerts.RunAccounted | internal/alert/webhook.go:97-186 | Every interleaving, with posts that fail or get through, keeps the account of sends, and each payload is the coalescing of what was dequeued for it |
| Alerts.Conservation | internal/alert/webhook.go:97-186 | Each send is counted exactly once among queue, batch, counts and drops of delivered payloads, counts and drops of lost ones, pending drops and senders about to count, and queued events are conserved key by key |
| Alerts.AllReportedIff | internal/alert/alert.go:1-4 | In every state of every run all refused sends were reported exactly when each payload with a dropped count got through, no sender counted after the last payload was made, and none is about to |
| Alerts.CloseCanLeaveCountIff | internal/alert/webhook.go:108-127 | A call of Close may leave a count no payload carries exactly when a sender is still about to count, or a count waits with nothing queued or batched |
| Alerts.LateSenderIsLost | internal/alert/webhook.go:97-127 | A run in which Close finds an event queued and the count is lost all the same |
| Alerts.FailedPostLosesCount | internal/alert/webhook.go:150-184 | A run in which the payload with the count does not get through |
| Alerts.LostStaysLost | internal/alert/webhook.go:150-184 | A count lost with its payload stays lost, whatever happens afterwards |
| Alerts.CountCanBeLost | internal/alert/alert.go:1-4 | A concrete run after which a dropped count is never reported |
| Alerts.Webhook.constructor | internal/alert/webhook.go:71-91 | An empty queue of the given capacity and an empty batch |
| Alerts.Webhook.TrySend | internal/alert/webhook.go:97-101 | The event is queued, or the queue was full and the state unchanged but for the sender's pending count |
| Alerts.Webhook.CountDropped | internal/alert/webhook.go:102-104 | The refused event is added to the dropped count |
| Alerts.Webhook.TakeEvent | internal/alert/webhook.go:123-134 | The oldest event leaves the queue and joins its group |
| Alerts.Webhook.Attempt | internal/alert/webhook.go:169-184 | A payload gets through exactly when it can be encoded and one of two attempts succeeds |
| Alerts.Webhook.PostBatch | internal/alert/webhook.go:145-186 | A non-empty batch becomes a payload with the dropped count, which goes to zero whether or not it gets through; an empty one changes nothing |
| Alerts.Webhook.Tick | internal/alert/webhook.go:135-140 | The timer posts a non-empty batch and starts a new one |
| Alerts.Webhook.CloseEvents | internal/alert/webhook.go:109-111 | No more sends, what is queued stays |
| Alerts.Webhook.EndLoop | internal/alert/webhook.go:124-127 | Once closed and drained the last batch is posted and the loop ends |
| Alerts.Webhook.Refusals | internal/alert/webhook.go:156-162 | One refusal per group of the batch, none twice, in whatever order the batch is walked |
| Kmsg.ReadField | internal/kmsg/kmsg.go:44-59 | One field: the three known keys set their value when it is good, all else is ignored |
| Kmsg.ParseLine | internal/kmsg/kmsg.go:24-62 | The event of a record, or nothing, with later fields overriding earlier ones |
| Kmsg.LogPrefixBounded | internal/nft/plan.go:144-153 | A prefix has at most 121 bytes; up to 101 bytes of name it is whole, beyond that it loses its terminator |
| Kmsg.PrefixRead | internal/kmsg/kmsg.go:30-42 | The reader takes a rule name out of a prefix exactly when it was short enough and free of the terminator, and the default's prefix as no name |
| Kmsg.FieldsApplied | internal/kmsg/kmsg.go:43-60 | A field list with one good DST, DPT and PROTO gives that address, port and lowercased protocol, whatever else it holds |
| Kmsg.LogRoundTrip | internal/kmsg/kmsg.go:24-62 | The whole line: name, address, port and protocol come back, the name exactly under the same condition |
| Packets.UdpRoundTrip | internal/packet/packet.go:93-100 | A datagram by RFC 768 reads back as its ports and payload |
| Packets.TcpRoundTrip | internal/packet/packet.go:101-114 | A segment by RFC 9293 section 3.1, with any data offset, reads back as its ports, SYN, ACK and payload |
| Packets.V4RoundTrip | internal/packet/packet.go:48-73 | An unfragmented IPv4 header by RFC 791 section 3.1, with any options, reads back as its addresses and protocol, and bytes past the total length are dropped |
| Packets.V6RoundTrip | internal/packet/packet.go:75-89 | An IPv6 header by RFC 8200 section 3 reads back likewise |
| Packets.UdpFrameRoundTrip | internal/packet/packet.go:35-100 | Whole frames with UDP read back exactly, and padding after them changes nothing |
| Packets.TcpFrameRoundTrip | internal/packet/packet.go:35-114 | Whole frames with TCP do too |
| Packets.AcceptedTransport | internal/packet/packet.go:91-117 | Nothing else is accepted: the transport bytes are a datagram or a segment with the ports, flags and payload of the result |
| Packets.AcceptedV4 | internal/packet/packet.go:48-73 | An accepted IPv4 frame starts with a well-formed unfragmented header |
| Packets.AcceptedV6 | internal/packet/packet.go:75-89 | An accepted IPv6 frame starts with a well-formed header and holds its whole payload |

## Left out

- EnforceCoverage.RunCovered: asks that every netlink batch is committed, that deadlines are not kept, and, where they are replaced, that no answer holds an IPv4-mapped address; `EnforceLimits.KeepForgets` and `EnforceLimits.MappedRecordShortens` show why. The same goes for EnforceCoverage.RunNamedIsLive.
- EnforceExact.RunDecidesAsPolicy: is about kernels that extend deadlines and sockets placed where their path is; `EnforceExact.RunDecidesExactly` gives the verdict by rules and ids for all others.
- ReportRuns.ReportedRightlyIff: quantifies over policies without cgroups, since with one the run itself, its reloads included, depends on the policy; `EnforceReport.DecidesAsNameIff` is about all policies, in one state.
- TableCorrect.OutputDecidesAsPolicy: needs the socket's cgroup to have existed when the table was loaded, under the same id; `TableCorrect.TableDecidesAsAtoms` covers all sockets. A cgroup that was missing then gets its rules with the next reload; one that was made anew does not, until some other cgroup causes a reload.
- Daemon.Enforcer.Seed: takes the looked-up names as a list with results, and does not tie them to the policy's exact names; all results hold for every such list.
- Packets.V4RoundTrip: as the code does, the parser takes an IPv4 frame cut short below its total length, while an IPv6 one is rejected.
- Text of addresses and prefixes: a library parameter; IPv6 zones do not occur.
- Characters: a string is a sequence of one-byte characters; lower case and white space are ASCII.
- Time: unbounded integers in nanoseconds, without Go's monotonic clock or its range.
- Integers: hit counts and indexes are unbounded; ports are sixteen-bit and ids eight opaque bytes.
- Reason strings of decisions, the `RuleView` copy with its sorted names, comments and times in the learned file: only for people to read.
- YAML, quoting and JSON: the policy file and the payload are structured values.
- Netlink, `/proc`, `/dev/kmsg`, raw sockets and the resolver: their results are inputs; deleting the old table and loading the new one is one atomic step, as the kernel does it.
- The characters of the printed ruleset: lines are sequences of clauses, and a clause means what nft documents for it.
- DNS messages on the wire: a frame comes with the answer its payload holds, if any.
- Mutexes: each method is one step; the webhook alone is split where the source leaves its lock between two effects.
- Alerts.AllReportedIff: a payload counts as delivered when an attempt returns without error; an endpoint that took it and failed to say so is not told apart from one that did not.
- The pause before the second attempt of a post, timeouts, and the order of refusals in a payload; sending after `Close`, where Go panics.
- Sorting: the library's sort is replaced by insertion, and the result is the only list there can be.
- Dry runs, the report throttle, terminal messages, `Handle.Close` and `Remove`: single comparisons or foreign calls.
- `procs`: reading socket owners from `/proc`; the origin of a packet is an input.
