# Kube-OVN: recovery, policy compilation and selection, verified

This project models the parts of Kube-OVN that decide: the supervisor that keeps OpenBFDD sessions alive across crashes,
the controller's compilation of network policies into ACLs and its bookkeeping around them, and the selector that picks
end-to-end jobs for a change. Each part is a model in Dafny with theorems over every input, every run or every
interleaving. `dafny verify dfyconfig.toml` checks all of it.

## What is modelled

**The OpenBFDD supervisor.** `Recovery` holds the rules as functions: one episode per expected session (grace, backoff
ladder, circuit), one restart budget for the child process, the half-open probe, the liveness rule and the state file.
`RecoveryRuns` makes them a state machine over one state file: boots, ticks, bootstraps, saves that succeed, fail or are
uncertain, and crashes between any two effects, with a log of what was executed. Time is a natural number, 0 is the zero
time, and the clock never goes back. `Supervisor` is the object that updates its fields in place. `SupervisorCalls` says
what one call makes of memory and state file, in whatever state of a run it is made, and `SupervisorObject.Supervise`
proves that an object built over the state file of any earlier run, and called in any order, is at every point where the
corresponding run is; so the theorems about runs are about the object. They are in `RecoveryPhases`, `RecoveryPacing`,
`ChildBudget`, `BootstrapBudget`, `BudgetReset`, `EarlyProbe`, `CircuitLiveness`, `RecoveryReports`, `RecoveryFairness` and
`FairnessLimits`.
`ProcessLifecycle` is the child process controller under every interleaving of Start, Stop, Restart and the waiting
goroutine. `Metrics` is the reporter, and its counters are tied to runs of the supervisor.

**The controller.** `AclCompilation` compiles policies into ACLs, with the match made for each family and port;
`AclMeaning` relates highest-priority-first evaluation of a tier's ACLs to walking its policies, which may be admin and
cluster policies together. `PriorityMaps` is the two-way priority bookkeeping those results depend on. `QosRelease` is
the deletion of QoS policies: caches, event handlers, queue and workers in any interleaving. `PortGc` is the two-cycle
collection of logical switch ports, and `ShareDnat` the rebuilding of share-type DNAT maps while the cache changes.

**The selector.** `Selector` computes the job matrix of a request, and `NameStatus` reads git's NUL-separated records.

## What the proofs found

- With four or more backoffs a session that has made three attempts gets no action again while it stays down and the
  process runs (pkg/bfddsupervisor/recovery.go:410-429): `RungIsReached` builds such a run for every such configuration,
  `Starves` shows what follows for any length of time, and `DueSessionIsServed` states fairness exactly for the other
  attempt counts. The shipped ladder has three.
- Fairness needs a stretch shorter than a stable and a grace period together, not only than every backoff and the circuit
  interval: `StretchHasToBeShort` gives runs of exactly that length in which two sessions recover, fail again and are
  acted on a second time while another one, due all along, is not served.
- Clearing the child's budget does not by itself hold off the next restart by Reconcile for a grace period and a backoff:
  bootstraps that fail in one process after the other advance the budget without any session waiting.
  `ClearingHoldsOffRestartsIff` gives the exact condition on the configuration, for all runs.
- Admin network policies and cluster policies of the admin tier share the priority maps and the ACL tier, but not the
  encoding, so that the order between the two kinds is not that of their priorities: `MixedTierCanInvert` is a packet that
  the policies deny and the ACLs let through, and `TierKeepsMeaningIff` says from the policies alone when the verdicts
  agree for all packets and all contents of the address sets.
- The validation of admin policies accepts negative priorities, which leave the ACL priority window (`WindowOfAccepted`);
  the schema of the resource excludes them (yamls/adminnetworkpolicies-experimental.yaml:894-897), so this concerns the
  check alone.
- A rule compiled while its address set is empty gets no ACL, and refreshing the address set later does not add one
  (pkg/controller/cluster_network_policy.go:186, 320-356); `RefreshKeepsMeaning` says for which packets that matters.
- Deleting a policy does not check who holds its priority: deleting one that was refused frees the priority of the one
  that holds it (`RefusedThenDeleted`); `MapsStayInverse` says exactly which runs keep the maps inverse.
- Of several Stops that wait for one child only the first to receive learns that it ended unexpectedly; the others read
  the closed channel and return success, so that a Restart among them goes on (pkg/bfddsupervisor/process.go:101-102,
  152-153; `StopErrorIff`, `ErrorToldOnce`).
- The comment at pkg/controller/nft_dnat.go:164-165 says that a sibling counts as soon as its spec exists. The code lists
  siblings by labels, and a rule is labelled only after its map was built (pkg/controller/vpc_nat_gw_nat.go:586-611), so
  it counts once it is labelled: of two rules added before either is labelled, the second addition drops the backend of
  the first, and it stays dropped (`TwoFirstAddsLoseOne`). A change of a rule's backend cleans up first and adds
  afterwards, and in between, or if the addition fails, the rule is missing (`ChangeHalfDone`). `MapIsLiveIff` says
  exactly when the map is complete.

## Model

| member | source | states |
|---|---|---|
| `RecoveryPacing.ActionsArePaced` | pkg/bfddsupervisor/recovery.go:200-233 | In every run with crashes, failed saves and reloads, two actions executed for one session are at least min(delay of the earlier attempt, stable + grace period) apart. |
| `RecoveryPacing.ActionsAreWrittenAhead` | pkg/bfddsupervisor/recovery.go:214-222 | No action runs before the state file holds its attempt k, its "in progress" result and the retry time, the k-th backoff or past the ladder a circuit interval after the tick, and for a restart the child's window likewise. |
| `RecoveryPacing.StepKeeps` | pkg/bfddsupervisor/recovery.go:580-654 | What planning and recording keep of an episode, every step of a run keeps in memory and in the state file, and a reload carries over. |
| `ChildBudget.RestartsAreSpaced` | pkg/bfddsupervisor/recovery.go:529-543 | Child restarts by Reconcile with no clearing between them climb the child ladder: later attempt numbers, each after the window of the one before. |
| `ChildBudget.RestartsAreBounded` | pkg/bfddsupervisor/recovery.go:316-341 | A window of length T holds at most len(ChildBackoffs) + 1 + T / CircuitOpen of them, across crashes. |
| `ChildBudget.BootstrapOncePerProcess` | pkg/bfddsupervisor/recovery.go:235-256 | StartChild restarts the child at most once per process. |
| `BootstrapBudget.BootstrapCounts` | pkg/bfddsupervisor/recovery.go:257-265 | In every run, the end of a bootstrap that began at t: a successful half-open one adds an attempt and sets retry, circuit and inherited deadline to t + CircuitOpen; any other successful one, or a failed one in the child's window, changes nothing; a failed one outside it advances the ladder by one. |
| `BootstrapBudget.HalfOpenMeansPastLadder` | pkg/bfddsupervisor/recovery.go:549-552 | A bootstrap is half-open iff the budget is past the ladder and its window was over when it began. |
| `BootstrapBudget.RenewalHoldsOffRestarts` | pkg/bfddsupervisor/recovery.go:257-265 | In every run: after a successful half-open bootstrap at t, until the budget is cleared or lost with the process, Reconcile executes no restart before t + CircuitOpen, across crashes if it was filed. |
| `BootstrapBudget.RestartsAreCounted` | pkg/bfddsupervisor/recovery.go:446-469 | In every process the restart count is the one loaded and the number of restarts by Reconcile that succeeded since; failed ones, other actions and bootstraps do not count. |
| `RecoveryPhases.PhasesAgree` | pkg/bfddsupervisor/recovery.go:343-444 | In every reachable state, in memory and on disk: Up goes with a session seen Up, Grace has no attempts, Backoff is on the ladder, CircuitOpen past it; the circuit deadline is set exactly past the ladder and equals the retry time; the same for the child. |
| `RecoveryPhases.ReloadRestores` | pkg/bfddsupervisor/recovery.go:580-637 | Loading what any reachable process saves gives back its episodes, restart count and child budget; a circuit is inherited iff it is still open, and the bootstrap may be tried again. |
| `RecoveryPhases.RunOk` | pkg/bfddsupervisor/recovery.go:343-444 | The whole-system invariant behind it, including a planned action that has not been recorded yet. |
| `BudgetReset.ReadyMeansAllUp` | pkg/bfddsupervisor/recovery.go:299-357 | After every Reconcile whose status query succeeded, whether or not an action was executed and recorded, Ready holds iff the last session reported for every expected pair is Up; after a failed query it does not hold. |
| `BudgetReset.ActionsEscalate` | pkg/bfddsupervisor/recovery.go:410-429 | After a tick that leaves a session at attempt k: it restarts the child iff no expected pair was last reported Up and k is 3, or 2 and the session is not reported; resets iff it is reported and k is 2, or 3 with some pair Up; replays in all other cases; and k is at most 3 or past the ladder. The probe, for no session, is a restart with no pair Up. |
| `BudgetReset.ClearsExactlyWhenStable` | pkg/bfddsupervisor/recovery.go:330-335 | The budget is cleared iff the tick sees every expected pair Up and stably so; that tick chooses nothing and leaves every episode Up, with no attempts, deadlines, action or result. |
| `BudgetReset.RestartsAfterClearing` | pkg/bfddsupervisor/recovery.go:316-335 | After a saved clearing no session makes Reconcile restart the child for GracePeriod + Backoffs[0], and no half-open probe for the whole child ladder and a circuit interval. |
| `BudgetReset.ObservedIsLast` | pkg/bfddsupervisor/recovery.go:300-303 | The observation map holds the last session reported for each pair. |
| `EarlyProbe.ProbeAtTheBound` | pkg/bfddsupervisor/recovery.go:257-261 | For every configuration with a state file, a run reaches the half-open bound exactly. |
| `EarlyProbe.ClearingHoldsOffRestartsIff` | pkg/bfddsupervisor/recovery.go:316-335 | For every configuration: in all runs restarts wait GracePeriod + Backoffs[0] after a clearing, iff there is no state file or the child ladder and one circuit interval last at least that long. |
| `EarlyProbe.RunKeepsNoFile` | pkg/bfddsupervisor/recovery.go:235-256 | Without a state file they always wait that long: the one bootstrap of a process cannot open the circuit. |
| `CircuitLiveness.OnlyOwnCircuitFailsLiveness` | pkg/bfddsupervisor/recovery.go:522-527 | In every reachable state the circuit fails liveness iff it is open and was opened by this process in Reconcile or a failed bootstrap; never when inherited or renewed by a successful half-open bootstrap. |
| `CircuitLiveness.LiveAfterTick` | pkg/bfddsupervisor/recovery.go:502-508 | A tick with a readable status reports live iff the child runs and no circuit of this process is open. |
| `CircuitLiveness.LiveAfterFailedQuery` | pkg/bfddsupervisor/recovery.go:510-520 | After a failed query: live iff no circuit of this process is open and the child runs or its restart window lasts. |
| `CircuitLiveness.NewDeadlineIsLater` | pkg/bfddsupervisor/recovery.go:257-265 | A circuit deadline that a step changes is strictly later than the one before and than the inherited one. |
| `RecoveryReports.ReconcileReports` | pkg/bfddsupervisor/recovery.go:492-520 | For a Reconcile after any run: the report lists the episodes of the expected pairs in order and the child's figures as the call leaves them; failures count up and reset; live iff no circuit opened by this process is open and the child runs, or its restart just failed, or, after a failed query, its window lasts. |
| `RecoveryReports.StartChildReports` | pkg/bfddsupervisor/recovery.go:266-282 | The same for a StartChild that ran: not ready, live iff the child runs or its restart failed, and no circuit of this process is open. |
| `RecoveryFairness.DueSessionIsServed` | pkg/bfddsupervisor/recovery.go:316-329 | In every run: over a crash-free stretch with more than len(expected) ticks, with executions, recordings, failed queries and bootstraps anywhere between, that ends before the shortest gap is over, a session down and due is acted on or put off to the child's window, iff its attempts are not on a rung without an action. |
| `RecoveryFairness.DueSessionIsActedOn` | pkg/bfddsupervisor/recovery.go:214-222 | Where the saves of the stretch are accepted and no action on the session is left to run, it is put off to the child's window or an action on it is executed. |
| `RecoveryFairness.Starves` | pkg/bfddsupervisor/recovery.go:410-429 | A session due on such a rung is neither chosen nor put off nor acted on, for as long as the process runs and it stays down. |
| `FairnessLimits.RungIsReached` | pkg/bfddsupervisor/recovery.go:410-444 | For every configuration with four or more backoffs, a run after which a session is due with three attempts. |
| `FairnessLimits.StretchHasToBeShort` | pkg/bfddsupervisor/recovery.go:383-400 | For every configuration of six sessions whose stable and grace period together are shorter than every backoff and the circuit interval: a run with seven ticks that ends exactly that long after a session became due, in which it is down and never served. |
| `SupervisorObject.Supervisor.constructor` | pkg/bfddsupervisor/recovery.go:180-198 | A new supervisor's memory is what loading the state file gives; it reports neither live nor ready, and no failures. |
| `SupervisorObject.NewSupervisor` | pkg/bfddsupervisor/recovery.go:135-198 | Refuses exactly a grace, stable or circuit period of zero, an empty ladder or an empty set of pairs; an empty child ladder falls back to the session ladder. |
| `SupervisorObject.Supervisor.LoadState` | pkg/bfddsupervisor/recovery.go:580-618 | Episodes whose pair matches, counters and budget come from the state file; the rest start fresh. |
| `SupervisorObject.Supervisor.ReserveChildRestart` | pkg/bfddsupervisor/recovery.go:529-543 | Refuses in the waiting window, else advances the budget by the rules. |
| `SupervisorObject.Supervisor.PlanEpisodeRecovery` | pkg/bfddsupervisor/recovery.go:343-381 | Changes one episode and the budget as the planning rule says, and nothing else. |
| `SupervisorObject.Supervisor.SweepEpisodes` | pkg/bfddsupervisor/recovery.go:323-329 | The loop with its early break equals the recursive sweep. |
| `SupervisorObject.Supervisor.PlanSessionRecovery` | pkg/bfddsupervisor/recovery.go:299-341 | New memory, chosen action and report of a tick are those of the rules. |
| `SupervisorObject.Supervisor.AllExpectedStable` | pkg/bfddsupervisor/recovery.go:554-562 | True iff every expected episode is Up and stable for the stable period. |
| `SupervisorObject.Supervisor.NoneUp` | pkg/bfddsupervisor/recovery.go:304-310 | True iff no expected pair is seen Up. |
| `SupervisorObject.Supervisor.RecordRecoveryResult` | pkg/bfddsupervisor/recovery.go:446-469 | Only the result, the restart counter and the report change. |
| `SupervisorObject.Supervisor.ReconcileControlFailure` | pkg/bfddsupervisor/recovery.go:284-297 | A failed query changes only the report; liveness allows a stopped child inside its window. |
| `SupervisorObject.Supervisor.SaveState` | pkg/bfddsupervisor/recovery.go:639-654 | The file is replaced by the memory's state, or left alone, as the save's outcome says. |
| `SupervisorObject.Supervisor.Reconcile` | pkg/bfddsupervisor/recovery.go:200-233 | Query, plan, save, act, record, save: new memory, file, executed action and report are those of the call's rules. |
| `SupervisorObject.Supervisor.StartChild` | pkg/bfddsupervisor/recovery.go:235-282 | Saved first, executed at most once, undone if the save fails: memory, file and report of the call's rules. |
| `SupervisorCalls.ReconcileResult` | pkg/bfddsupervisor/recovery.go:200-233 | In every state between two calls, whatever its log, clock and history, the steps of one Reconcile end where the rules say and add exactly the clearing or the executed action to the log. |
| `SupervisorCalls.StartChildResult` | pkg/bfddsupervisor/recovery.go:235-282 | The same for one StartChild, including the refused save. |
| `SupervisorCalls.RunsIffSaved` | pkg/bfddsupervisor/recovery.go:214-256 | With a state file, an action or a bootstrap runs iff it is due and the save before it reported success; a save that failed, even after replacing the file, leaves the bootstrap to be tried again. |
| `SupervisorCalls.CallExtendsRun` | pkg/bfddsupervisor/recovery.go:200-282 | A call made after any run extends it to a run with that outcome. |
| `SupervisorObject.Supervise` | cmd/bfdd_supervisor/bfdd_supervisor.go:79-127 | An object built over the file an earlier run left, after any sequence of calls in time order, has the memory and file of the run that boots and goes through the same calls. |
| `ProcessLifecycle.AtMostOneChild` | pkg/bfddsupervisor/process.go:47-69 | Under every interleaving at most one started child is un-reaped, and it is the one `cmd` names. |
| `ProcessLifecycle.StoppingNamesTheCommand` | pkg/bfddsupervisor/process.go:84-90 | `stopping` is nil or equals `cmd`; it is set exactly while a requested command is set. |
| `ProcessLifecycle.DoneMeansCleared` | pkg/bfddsupervisor/process.go:101-118 | A Stop that leaves through `done` finds its target cleared from both fields. |
| `ProcessLifecycle.RefusedOnlyAfterAnotherStart` | pkg/bfddsupervisor/process.go:77-82 | Restart's Start meets "already running" only if another Start came after its Stop began. |
| `ProcessLifecycle.ExpectedExitIffRequested` | pkg/bfddsupervisor/process.go:132-154 | An exit counts as expected iff some Stop had picked that command. |
| `ProcessLifecycle.StopErrorIff` | pkg/bfddsupervisor/process.go:101-130 | A Stop that leaves through `done` returns an error iff it is the first to receive how its command ended and that is neither a clean exit nor by the signal it sent last. |
| `ProcessLifecycle.ErrorToldOnce` | pkg/bfddsupervisor/process.go:152-153 | However many Stops wait for one command, under every interleaving at most one returns an error for how it ended; the others meet the closed channel. |
| `ProcessLifecycle.RestartStartsIff` | pkg/bfddsupervisor/process.go:77-82 | After its Stop, a Restart starts a command iff the Stop returned no error, none is set and the fork succeeds. |
| `ProcessLifecycle.RestartWithoutChild` | pkg/bfddsupervisor/process.go:91-93 | With no command set, a Restart does not wait and starts one. |
| `ProcessLifecycle.ProcessController.Start` | pkg/bfddsupervisor/process.go:47-69 | The locked part of Start is the model's step; it names the new command iff none was set and the fork succeeded, else it changes nothing. |
| `ProcessLifecycle.ProcessController.BeginStop` | pkg/bfddsupervisor/process.go:84-93 | The locked part of Stop: `stopping` becomes the command if one is set, and that command is the one to wait for. |
| `ProcessLifecycle.ProcessController.Clear` | pkg/bfddsupervisor/process.go:132-143 | The locked part of wait: each field is cleared iff it names the command; the exit was expected iff `stopping` did. |
| `Metrics.CountersAgree` | pkg/bfddsupervisor/metrics.go:87-137 | With one Update after each Reconcile, each attempts counter equals the number of rounds that scheduled such an action with that result, resets included, and the restart counter the number of rounds that restarted the child with success. |
| `Metrics.SparseUpdatesLoseNothing` | pkg/bfddsupervisor/metrics.go:102-121 | However few updates there are, over reports of a session whose attempts do not go back, all attempts and child restarts from the first update on are counted. |
| `Metrics.SessionZeroIsRunLength` | pkg/bfddsupervisor/metrics.go:123-131 | session_zero is the time since the current run of updates began in which sessions were reported and none of them was Up, or 0; the up gauge is the number of sessions reported Up. |
| `Metrics.UpCountIsNumberUp` | pkg/bfddsupervisor/metrics.go:95-101 | The count of a report is the number of its sessions that are Up, 0 iff none is. |
| `Metrics.ControlFailuresInARow` | pkg/bfddsupervisor/recovery.go:284-297 | After any rounds the reported control failures are the failed queries since the last one that succeeded, and the error is that of the last. |
| `Metrics.MetricsReporter.CountSessions` | pkg/bfddsupervisor/metrics.go:95-117 | The loop over the sessions computes the Up count, the counters and the remembered attempts. |
| `Metrics.MetricsReporter.Update` | pkg/bfddsupervisor/metrics.go:87-137 | The new state of the reporter is the specified function of the old one and the report. |
| `AclMeaning.CompilationPreservesMeaning` | pkg/controller/cluster_network_policy.go:170-205 | For every packet: in a tier of one kind the ACLs decide exactly as walking the policies by ascending priority and rules in order, whichever ACL of the top priority is taken; in a tier of both kinds, iff no rule outranks the one the walk finds. |
| `AclMeaning.TierKeepsMeaningIff` | pkg/controller/cluster_network_policy.go:924-933 | For all tiers of admin and cluster policies: the ACLs give every packet the verdict of the walk, whatever the address sets hold, iff no rule and later rule of different kinds, with a pod and a port in common and different verdicts, are inverted or tied under 100 a + i against 25 c + j. The policies alone show it. |
| `AclMeaning.MixedTierMeaningIff` | pkg/controller/cluster_network_policy.go:924-933 | The same for given contents of the address sets: iff no packet's deciding rule is overruled by such a later rule before which no other hit is. |
| `AclMeaning.NoInversionKeepsMeaning` | pkg/controller/admin_network_policy.go:214-266 | It is enough that no two rules of different kinds that hit a packet with different verdicts are inverted or tied. |
| `AclMeaning.MixedTierCanInvert` | pkg/controller/admin_network_policy.go:240 | A packet that an admin policy at priority 1 denies and a cluster policy at priority 2 accepts: the walk denies it, the ACLs at 29900 and 29950 let it through. |
| `AclMeaning.ShadowedInversionIsHarmless` | pkg/controller/admin_network_policy.go:240 | For given contents of the address sets, an inverted pair behind a rule that decides first changes no verdict. |
| `AclMeaning.RefreshKeepsMeaning` | pkg/controller/cluster_network_policy.go:320-356 | With address sets refreshed but ACLs not remade, a packet keeps its meaning iff the rule that decides it now had been given ACLs for its family and no other such rule outranks it; `EmittedExactly` says which rules had. |
| `AclMeaning.RuleSkippedWhenEmpty` | pkg/controller/cluster_network_policy.go:186-204 | A deny rule compiled while its addresses were empty does not act on an address that arrives later. |
| `AclMeaning.DomainRuleTakesEffect` | pkg/controller/cluster_network_policy.go:247-266 | The counterpart, for all egress policies with domain names: a rule compiled on whatever contents, empty ones included, decides the packets whose addresses arrive later, in tiers of one kind always and otherwise where no rule outranks it. |
| `AclMeaning.AclsDecideByRank` | pkg/controller/cluster_network_policy.go:170-205 | ACLs decide, with the address sets as they are now, exactly as the emitted rules of the highest ACL priority that hit. |
| `AclCompilation.PriorityReversesOrder` | pkg/controller/cluster_network_policy.go:1158-1160 | (priority, index) to ACL priority reverses the lexicographic order and is injective, for both policy kinds. |
| `AclCompilation.WindowOfAccepted` | pkg/controller/admin_network_policy.go:504-527 | Accepted priorities that are not negative land in 20001..30000, so those of all cluster policies; negative ones that do not overflow land above it; an overflowing one can land inside. |
| `AclCompilation.WindowIsFilled` | pkg/util/const.go:198-206 | Every value of the window is the encoding of some accepted rule. |
| `AclCompilation.CompiledMembers` | pkg/controller/cluster_network_policy.go:232-269 | Exactly one kind of ACL per emitted rule, family and supported port; rules without addresses are skipped unless domain names may fill them. |
| `AclCompilation.EmittedExactly` | pkg/controller/admin_network_policy.go:336-357 | In terms of direction, kind, domain names, ports and addresses alone: a rule has an ACL for a family iff it has no ports or a supported one, and its addresses of the family are not empty or, in egress, it names domains (admin) or some rule of its policy does (cluster). |
| `AclCompilation.EmitAcls` | pkg/controller/admin_network_policy.go:302-360 | The ACL loop emits that list in order. |
| `AclCompilation.NewMatches` | pkg/ovs/ovn-nb-acl.go:1899-1931 | The port part of the matches: one without ports, else one per port number or range, none for named ports. |
| `PriorityMaps.MapsStayInverse` | pkg/controller/cluster_network_policy.go:936-989 | From empty maps, both tiers' maps are mutually inverse throughout a run iff every delete names the recorded priority of its policy. |
| `PriorityMaps.DeleteKeepsInverse` | pkg/controller/cluster_network_policy.go:956-966 | One delete keeps the maps inverse iff the priority is free or the policy's, and the policy unknown or at it. |
| `PriorityMaps.RefusedThenDeleted` | pkg/controller/cluster_network_policy.go:956-966 | Deleting a refused policy lets two policies share a priority. |
| `PriorityMaps.ClusterPoliciesHaveOneTier` | pkg/controller/cluster_network_policy.go:969-989 | In runs of cluster policies each name is in at most one tier, at an accepted priority, whatever is deleted. |
| `PriorityMaps.AnpKeepsOneTier` | pkg/controller/admin_network_policy.go:164-170 | An admin policy keeps that iff no baseline policy has its name. |
| `PriorityMaps.CnpRecordedIff` | pkg/controller/cluster_network_policy.go:1007-1049 | A cluster policy comes to be recorded at its priority iff that is 0 to 399 and held by no other of the tier, it has at most 25 rules in each direction, and its peers are fine. |
| `PriorityMaps.AnpRecordedIff` | pkg/controller/admin_network_policy.go:504-527 | An admin policy iff its priority is at most 99 and held by no other, with at most 100 rules in each direction. |
| `PriorityMaps.AddedIsAccepted` | pkg/controller/cluster_network_policy.go:1007-1049 | What validation accepts in a run is within the limits that the ACL encoding needs. |
| `PriorityMaps.RecordedPoliciesFormATier` | pkg/controller/cluster_network_policy.go:1007-1049 | In every run of policies of both kinds whose deletes name what is recorded: policies that validation accepted in the run and that are recorded in a tier, in order of priority, meet the premise of the ACL theorems, for either direction. |
| `PriorityMaps.Controller.HandleAddAnp` | pkg/controller/admin_network_policy.go:158-171 | Accepts exactly valid policies and updates the admin maps. |
| `PriorityMaps.Controller.HandleDeleteAnp` | pkg/controller/admin_network_policy.go:372-380 | Removes the entry of the spec's priority and that of the name. |
| `PriorityMaps.Controller.ValidateCnpConfig` | pkg/controller/cluster_network_policy.go:992-1049 | Accepts iff tier, availability, bounds, rule counts and peers are fine. |
| `PriorityMaps.Controller.WipeCnpPriorityMapEntries` | pkg/controller/cluster_network_policy.go:969-989 | Removes the policy from both tiers, and no other policy's entry. |
| `PriorityMaps.Controller.HandleAddCnp` | pkg/controller/cluster_network_policy.go:120-136 | Validation and update together are one step of the run. |
| `PriorityMaps.Controller.DeleteCnpPriorityMapEntries` | pkg/controller/cluster_network_policy.go:956-966 | One step of the run; an unknown tier is an error and changes nothing. |
| `QosRelease.NoLostWakeUp` | pkg/controller/qos_policy.go:38-49 | In every reachable state a deleting policy with its finalizer is queued or about to be, with a worker that will not drop it, covered by a pending label change, or still labelled by a resource of its binding type. |
| `QosRelease.QuietMeansInUse` | pkg/controller/qos_policy.go:443-450 | When nothing is pending, an EIP or NAT gateway of such a policy's binding type carries its name. |
| `QosRelease.ReleasedOnlyWhenUnused` | pkg/controller/qos_policy.go:419-456 | A finalizer is removed only after a worker that had read the policy as deleting listed no user of its binding type; a user at the time of removal was labelled since. |
| `QosRelease.Controller.EnqueueQoSPolicyRelease` | pkg/controller/qos_policy.go:45-49 | Enqueues the old label's policy iff the label was cleared or switched. |
| `QosRelease.Controller.HandleDeleting` | pkg/controller/qos_policy.go:404-460 | Removes the finalizer iff every read succeeds and the policy is deleting, unused and has one; fails iff a read, the list or the patch fails. |
| `QosRelease.HandlerIsWorker` | pkg/controller/controller.go:1697-1717 | Taken without interruption, the worker's steps of the run theorems release what the handler releases and leave the key to be retried iff it fails. |
| `PortGc.DeletedWasUnownedTwice` | pkg/controller/gc.go:505-558 | A port is deleted only if unowned now and seen unowned, and not deleted, by the last completed cycle with no restart since. |
| `PortGc.OwnedIsNeverDeleted` | pkg/controller/gc.go:414-558 | A port owned at every completed cycle is never deleted, not even by a cycle that aborts. |
| `PortGc.UnownedTwiceIsDeleted` | pkg/controller/gc.go:505-558 | A port unowned in two consecutive completed cycles is deleted by exactly one of them. |
| `PortGc.PodPortIsNotDeleted` | pkg/controller/gc.go:426-454 | No cycle deletes the port of a pod off the host network that is a StatefulSet pod not to be collected, or any other pod alive. |
| `PortGc.OwnedExactly` | pkg/controller/gc.go:426-497 | A port is owned iff by an allocated OVN attachment of such a pod, a node's allocation or EIP, a virtual machine, or a typed virtual IP with its subnet. |
| `PortGc.CycleByAnswers` | pkg/controller/gc.go:505-558 | A cycle completes iff it could list and every deletion it tries goes through with its cleanup; it deletes exactly what it tries up to the first that does not, that one too if only its cleanup failed. |
| `PortGc.Controller.MarkAndCleanLSP` | pkg/controller/gc.go:414-569 | The loops with their aborts compute the cycle's deletions and the remembered set. |
| `PortGc.Controller.KeptByPods` | pkg/controller/gc.go:426-454 | The ports of pods that count, per allocated OVN attachment. |
| `PortGc.Controller.KeptByNodes` | pkg/controller/gc.go:455-464 | The ports of nodes, by allocation and by EIP. |
| `PortGc.Controller.KeptByVips` | pkg/controller/gc.go:475-497 | The ports of typed virtual IPs whose subnet is found. |
| `ShareDnat.MapIsLastWritten` | pkg/controller/nft_dnat.go:239-256 | In every run of additions, spec changes, cleanups, redos, gateway restarts and cache changes, under any lister orders, the map is what the last event that got through made of it: the labelled live backends of the others and its own, sorted and distinct, absent iff none. |
| `ShareDnat.MapByFields` | pkg/controller/nft_dnat.go:204-226 | In fields: a backend is in that map iff it is the added one, or the address and port of another rule with the identity's labels and spec that is share, not deleting, and complete. |
| `ShareDnat.AbsentUntilWritten` | pkg/controller/nft_dnat.go:78-106 | Until an event gets through, from the start or since a restart of the gateway, there is no map. |
| `ShareDnat.MapIsLiveIff` | pkg/controller/nft_dnat.go:172-226 | It holds exactly the live backends of that event, iff every live rule that the listing does not give, for want of a label or as the event's own, has its backend written all the same, and what is added is live in the cache. |
| `ShareDnat.LabelledIsComplete` | pkg/controller/nft_dnat.go:160-171 | Labels on the other live rules are enough when a live rule is added or one that is not live is cleaned up. |
| `ShareDnat.RebuildIsOrderIndependent` | pkg/controller/nft_dnat.go:160-165 | Two runs whose last events that got through met that condition and saw the same live backends leave the same map, whatever was added or cleaned up before and in which order. |
| `ShareDnat.TwoFirstAddsLoseOne` | pkg/controller/vpc_nat_gw_nat.go:584-611 | For any two rules of an identity added before either is labelled: the map loses the first one's backend, and stays without it when both are labelled. |
| `ShareDnat.ChangeHalfDone` | pkg/controller/vpc_nat_gw_nat.go:740-769 | For any change of the backend of a rule alone in its identity: after the cleanup, if the addition does not get through, there is no map although the rule is live. |
| `ShareDnat.ListingIsLabelled` | pkg/controller/nft_dnat.go:196-202 | Whatever the order of the listing, an addition or cleanup sees the live rules that carry the labels, and no others. |
| `ShareDnat.AscendingIsUnique` | pkg/controller/nft_dnat.go:82-87 | A sorted duplicate-free list is determined by its elements, so an unchanged set gives an identical map. |
| `ShareDnat.DedupSortedBackends` | pkg/controller/nft_dnat.go:134-155 | Strictly ascending, with exactly the non-empty backends. |
| `ShareDnat.GetShareBackends` | pkg/controller/nft_dnat.go:172-226 | Exactly the backends of the listed live share rules of the identity but the named one. |
| `ShareDnat.Controller.CreateNftDnatMapInPod` | pkg/controller/nft_dnat.go:78-106 | Sets the map to the canonical backends, or fails and changes nothing. |
| `ShareDnat.Controller.DeleteNftDnatMapInPod` | pkg/controller/nft_dnat.go:110-131 | Removes the map unless the gateway is gone or unreachable. |
| `ShareDnat.Controller.CleanupShareDnatInPod` | pkg/controller/nft_dnat.go:239-256 | One step of the rebuilding, with its exact success condition. |
| `ShareDnat.Controller.AddShareDnat` | pkg/controller/vpc_nat_gw_nat.go:584-597 | The share case of adding a rule is one step of the rebuilding. |
| `ShareDnat.IsDnatDuplicated` | pkg/controller/nft_dnat.go:271-301 | True iff another listed rule has the EIP and protocol and not both are share. |
| `Selector.SelectionIsMonotone` | hack/e2e_selector.py:340-391 | Adding changed paths, labels or requested groups never removes a job from the matrix. |
| `Selector.SelectionFailsClosed` | hack/e2e_selector.py:637-674 | The same with the fallback on errors, given a workflow that defines the catalog's jobs. |
| `Selector.MatrixExact` | hack/e2e_selector.py:386-391 | No job twice; the jobs are smoke and, for every group asked for, each choice of one value per axis of each of its jobs, or its included entries, no more and no fewer; a full plan covers the catalog so. |
| `Selector.SmokeComesFirst` | hack/e2e_selector.py:388-391 | The matrix begins with the smoke jobs in the catalog's order. |
| `Selector.ExpandJobExact` | hack/e2e_selector.py:214-224 | A job expands to exactly the included entries, or else the assignments of one value per axis, or the empty one if an axis has none, each under the job's name; and as many of them. |
| `Selector.ExpandedCatalog` | hack/e2e_selector.py:227-237 | The expansion of the catalog is that of all its jobs. |
| `Selector.PlanReports` | hack/e2e_selector.py:370-418 | Full iff forced, needed or requested; the reason given; requestedFull, automatic and recommended groups, in the catalog's order, and when approval is asked for. |
| `Selector.RefusedIff` | hack/e2e_selector.py:354-364 | Refused iff a requested group or a group label is unknown to the catalog, the former told first. |
| `Selector.EffectiveIsWanted` | hack/e2e_selector.py:356-388 | A group is effective iff it is known and the suite is needed, requested or forced, or the group is requested, labelled, or named by a rule one of whose patterns matches a changed path. |
| `Selector.TagsExact` | hack/e2e_selector.py:327-337 | The selection field is smoke, group or smoke+group by where the job comes from. |
| `Selector.ExecutionCovers` | hack/e2e_selector.py:421-463 | Per event: no job twice, smoke always, push and full run everything, dispatch runs the plan and asks for no approval, and a pull request defers no group without asking for approval. |
| `Selector.FullReasonExact` | hack/e2e_selector.py:288-307 | A reason is given iff the full suite is needed: the first true one of catalog, label, shared path, unclassified production path and number of groups, with the first such path. |
| `Selector.CombinationsAreChoices` | hack/e2e_selector.py:214-224 | The product of a job's matrix holds exactly the assignments of one value per key. |
| `Selector.DedupKeepsJobs` | hack/e2e_selector.py:327-337 | Deduplication keeps every job once and merges its tags. |
| `Selector.DeduplicateMatrix` | hack/e2e_selector.py:327-337 | The loop with its index map computes that list. |
| `Selector.MatchedPathGroups` | hack/e2e_selector.py:264-285 | The loop yields the groups of all matching rules and the paths they match. |
| `Selector.ComputePlan` | hack/e2e_selector.py:340-418 | The plan of the specification, of which `MatrixExact` and `PlanReports` speak, or the error of `RefusedIff`. |
| `NameStatus.RoundTrip` | hack/e2e_selector.py:587-608 | Parsing the encoding of any valid records gives them back, and so their paths. |
| `NameStatus.RenameHasTwoPaths` | hack/e2e_selector.py:596-607 | R or C with any digits, NUL, p, NUL, q, NUL, in front of any further records, gives p, q and their paths. |
| `NameStatus.ChangeHasOnePath` | hack/e2e_selector.py:596-607 | A, D, M or T with any digits, NUL, p, NUL, in front of any further records, gives p and their paths. |
| `NameStatus.OtherStatusIsRefused` | hack/e2e_selector.py:598-599 | A first field of any other form is refused as an invalid record, whatever follows. |
| `NameStatus.AcceptedIffEncoded` | hack/e2e_selector.py:590-599 | Input is accepted iff it is the encoding of valid records, and then of those parsed. |
| `NameStatus.TruncatedOutput` | hack/e2e_selector.py:590-602 | Output cut short is rejected unless cut between records; then exactly the records before the cut are read. Inside a field the error is the missing NUL, between fields the incomplete record. |
| `NameStatus.ChangedPathsFromNameStatus` | hack/e2e_selector.py:587-608 | The index loop returns the paths, or the first error, of the specification, and terminates. |

## Left out

- SupervisorObject.NewSupervisor: does not parse addresses, pair them by family or sort them, and has no nil dependencies; the expected pairs are a sequence, repetitions allowed, and a pair is its own map key.
- JSON, file renaming and the isolation of a corrupt state file: the file is a value replaced at once, written for the same configuration.
- `time.Duration` values below zero: delays are natural numbers; zero backoffs are allowed, and then pacing is as weak as they are.
- RecoveryPacing.ActionsArePaced: actions are timed by the clock reading of the tick that planned them, as the source times its windows.
- RecoveryFairness.DueSessionIsServed: a session is served when a tick chooses it or puts it off; a save that fails then keeps the chosen action from running; `DueSessionIsActedOn` is for saves that succeed.
- SupervisorObject.Supervisor.Reconcile: the report's circuit flag is computed from the step's own clock reading, where the source reads the clock again.
- Sockets, the control protocol, process groups and signals: Status, Configure, Reset and Restart are arbitrary successes or failures.
- Metrics.MetricsReporter.Update: leaves out the phase, circuit and expected-session gauges, which only copy the report.
- Log annotations, port-group membership and address-set names of policies; an ACL names its address set by policy, rule and family, and a network is a range of addresses.
- The per-peer limits on domains and networks are one flag of a policy; the baseline admin policy, of which there is one, is not modelled.
- AclMeaning.TierKeepsMeaningIff: policies of a tier have priorities that are not negative, as their schemas demand; policies of different kinds with one name, which would share a port group, are not modelled.
- QoS policies: bandwidth rules, validation and the add queue are not modelled; an empty label is no label, and a finalizer set by others does not count.
- QosRelease.ReleasedOnlyWhenUnused: it speaks of the cache; a policy deleted and re-created under its name while a worker runs is covered only as far as the cache shows it.
- IP resources and address release after a port is deleted: only whether that cleanup fails, and so aborts the cycle, is modelled.
- Share DNAT: shell commands and nftables syntax; an identity is a key of its own, with one EIP per address; which backend a redo takes from the status, and when it is skipped, is left open.
- Selector.FullReasonExact: takes the changed paths in sorted order as given, and does not sort them itself.
- Selector.MatchedPathGroups: leaves out the list of reasons, which only reports the matches.
- Selector.ComputePlan: leaves out the reasons, the catalog revision and the nonce of a plan.
- The selector's glob and regular-expression engines (matching is a parameter), hashes and nonces, summaries, the count and the fixed smoke list of the catalog, and the reading of workflow files.
- UTF-8 decoding of paths, which is per path and injective: paths stay byte strings.
- IPAM, NAT, node, security-group and endpoint handlers, the kernel modules and the TLS code.
