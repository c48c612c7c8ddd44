# Kovert: a verified model of the daemon's state machines

Kovert is an event-condition-action daemon. Sensors turn what happens on a host into events; a policy engine keeps a
snapshot of the host and one small state machine per rule; each event yields a conflict-free plan of actions; the
runtime executes the plan between durable ledger and audit records. This project models that core in Dafny and proves
what holds over every run of it.

Each part has two layers. The code that works step by step (engine, audit store, runtime, poller, hotkey loop,
requirement collector, snapshot, validator, field parser) is written as classes and methods with loops, and every such
method is proved to compute a function of its inputs or of its old state. The properties are then proved about those
functions over whole histories.

| files | what they hold |
|---|---|
| `Options`, `Ordering` | optional values, filtering, text order and the stable sort |
| `Config`, `Events` | the policy language, conflict keys, events and the snapshot |
| `Matching`, `Correspondence` | triggers against events, conditions against snapshots, and the two against each other |
| `RuleRuntimes`, `RuleRuns`, `SequenceExactness` | one rule: a step, all its histories, the exact meaning of a sequence |
| `Conflicts`, `Engine`, `EngineRuns`, `FaultRuns` | conflict resolution, the evaluation loop, runs with reloads and recovery, misfit sequences |
| `Encoding`, `Audit` | the hashed bytes, the hash chain with retention against an unbounded log |
| `Keys`, `Validation`, `Requirements`, `Executor` | key names, configuration checks, sensor selection, the executor's own checks |
| `Ledger`, `Runtime`, `RuntimeRuns`, `EffectRuns` | one planned action, the daemon as a step machine, its reachable states, the effect of each step |
| `Polling`, `EmissionRuns`, `PollingRuns`, `MountRuns`, `HealthRuns`, `DeliveryRuns` | change detection, what is emitted, agreement with the snapshot, stale mounts, sensor health, lost events |
| `Hotkeys`, `MountEscapes`, `Nmcli` | the key-sequence window and two text decoders |
| `Witnesses` | runs from the first start, on valid configurations, in which an expectation fails |

Conventions. Times are integers on one line (nanoseconds) and nothing makes them increase unless a lemma asks for it;
the elapsed time is clamped at zero as in the source. A path is its list of components, which is what Rust compares;
actions keep the spelling of their paths, which is what conflict keys and hashes are made from.
File existence, clock-text parsing, local time, probe results, command answers, JSON texts, digests, identifiers,
storage failures and the order in which sorted collections are walked are parameters, so every statement holds for all
of them. The fields one sensor reports together are grouped in one record of the snapshot.

Where the code does not do what one might expect, it is kept as it is and the exact condition is proved:

- A reload carries a sequence index over by rule identifier, and a shorter sequence then makes the daemon index out of
  range. `Witnesses.ReloadCanFault` gives a run of the daemon, `EngineRuns.FaultFreeExact` says exactly when the next event
  can do it, `FaultRuns.ThreatExact` when some continuation can, `EngineRuns.RunsNeverFault` that nothing but a reload
  brings it about. Methods that would panic there require that it does not happen.
- Conflict keys of unmounts are made from the spelling of the path, so `/m` and `/m/` are one mount point with two keys:
  `Witnesses.MountUnmountedTwice`, with the exact condition in `EngineRuns.ResourcePlannedOnceExact`.
- A trigger with a negation can match the failure of a sensor it does not use: `Matching.NegationEscapesSeparation`,
  with the exact condition in `Matching.FailureSeparationExact`.
- A reload does not re-check the current mode: `Witnesses.ReloadLeavesUndeclaredMode`, with the exact condition in
  `RuntimeRuns.ModeKnownExact`.
- After a reset of the polling state, vanished mounts can stay in the snapshot: `PollingRuns.StaleMountSurvivesReset`,
  with the exact condition in `MountRuns.MountsFollowExact`.
- A sensor that recovers with an unchanged value stays marked unhealthy: `HealthRuns.RecoveryGoesUnnoticed`, with the
  exact condition over runs in `HealthRuns.HealthExact`.
- An event whose audit record cannot be written never reaches the engine, so the snapshot can fall behind the sensors:
  `DeliveryRuns.LostReport`, with the exact condition in `DeliveryRuns.DaemonFollowsProbesExact`.
- The recursive flag of a watched path is the last writer's: `Requirements.RecursiveFlagOverwritten`, with the exact
  conditions in `Requirements.WatchFlagExact` and `Requirements.WatchCoversExact`.
- An absent and an empty identifier hash alike: `Audit.AbsentAndEmptyHashAlike`.
- `docs/ARCHITECTURE.md` (line 59) says that a provider failure is emitted only on transition. The code does so for
  every probe (`PollingRuns.FailureReportedOnTransition`) except the integrity check, which reports an unreadable file
  in every cycle (`PollingRuns.IntegrityReportsEveryTime`).

## Model

| member | source | states |
|---|---|---|
| `SequenceExactness.SequenceExact` | crates/kovert-core/src/engine.rs:239-273 | For two or more steps, nondecreasing times and no event serving as first and later step, a sequence completes at event j if and only if the greedy match of the later steps, begun after the latest first-step event before j, ends exactly at j inside the window. |
| `SequenceExactness.ProgressMeaning` | crates/kovert-core/src/engine.rs:245-273 | After any fed events the stored index and start time are those of the greedy match from the latest first step, or nothing once that match is finished or its window has passed. |
| `SequenceExactness.LatestStartIsLast` | crates/kovert-core/src/engine.rs:255-262 | The start used as reference really is the last event matching the first step. |
| `SequenceExactness.RuleFollowsAutomaton` | crates/kovert-core/src/engine.rs:116-208 | Inside a whole rule, with cooldowns, arming, failures and recovery around it, the stored progress is that of the automaton run on exactly the events that reach the trigger since the last recovery. |
| `SequenceExactness.HitIsCompletion` | crates/kovert-core/src/engine.rs:191-196 | The rule's trigger is hit at an observation if and only if that event is fed to the automaton and completes it. |
| `RuleRuns.SequenceSound` | crates/kovert-core/src/engine.rs:239-277 | For any steps and any timestamps, every completion has an in-order list of events matching all steps, each within the window of the first, all later than any earlier completion and any recovery. |
| `RuleRuns.ProgressWitness` | crates/kovert-core/src/engine.rs:245-273 | In every run the stored index stays below the number of steps, is positive exactly while a start time is stored, and is accounted for by a list of matching events. |
| `RuleRuns.SequenceNeverFaults` | crates/kovert-core/src/engine.rs:255-255 | With the steps kept, the stored index is always in range for the next event. |
| `RuleRuns.SustainExact` | crates/kovert-core/src/engine.rs:121-208 | A sustained rule fires at j if and only if an earlier event armed it with trigger and condition both true, the condition held ever since except at failures of its own sensors, no recovery lies in between, and the sustain time is now up for the first time. |
| `RuleRuns.ArmedHasWitness` | crates/kovert-core/src/engine.rs:176-208 | Whenever a rule is armed there is an arming event since which it has been waiting without interruption. |
| `RuleRuns.StaysArmed` | crates/kovert-core/src/engine.rs:176-189 | Conversely, once armed and waiting, the rule is still armed with the time of that event and nothing suppresses it. |
| `RuleRuns.ImmediateExact` | crates/kovert-core/src/engine.rs:117-208 | A rule without sustain time fires if and only if trigger and condition hold at an event that is no failure of its own sensors, it is enabled, and its own earlier firings leave it neither in cooldown nor spent. |
| `RuleRuns.LastFiringRemembered` | crates/kovert-core/src/engine.rs:184-206 | The stored last-fired time and fired-once flag are exactly the last of, and whether there were, normal firings; alert and fail-closed answers never count. |
| `RuleRuns.CooldownSeparates` | crates/kovert-core/src/engine.rs:125-130 | Consecutive firings are at least a cooldown apart in event time even when timestamps go backwards in between. |
| `RuleRuns.FiringsSpan` | crates/kovert-core/src/engine.rs:125-130 | The k-th later firing of a history is at least k cooldowns after the first. |
| `RuleRuns.OncePerBootFiresOnce` | crates/kovert-core/src/engine.rs:122-124 | A history whose rule stays once-per-boot contains at most one firing. |
| `RuleRuns.BarrierForgetsProgressOnly` | crates/kovert-core/src/engine.rs:74-83 | Switching recovery on clears arming and sequence progress and keeps cooldown and once-per-boot memory. |
| `RuleRuns.RecoveryBarrier` | crates/kovert-core/src/engine.rs:74-83 | After recovery, every sequence completion and every sustained firing is witnessed by later events alone. |
| `RuleRuntimes.SequenceMatches` | crates/kovert-core/src/engine.rs:239-273 | The in-place update of the runtime is one automaton step and leaves cooldown, arming and once-per-boot memory alone. |
| `RuleRuntimes.SequenceStepExact` | crates/kovert-core/src/engine.rs:245-273 | One event, case by case: after the window it is compared as if nothing had been seen; the awaited step comes before starting over, even for an event that matches both; only the first step starts over, with a new window; anything else is passed over. |
| `RuleRuntimes.Evaluate` | crates/kovert-core/src/engine.rs:116-209 | The loop body, branch by branch, yields the per-rule step's runtime and appends exactly its plans. |
| `RuleRuntimes.AppendActions` | crates/kovert-core/src/engine.rs:215-224 | Appends one plan per action, in order, carrying the rule's identifier and priority and the event's identifier. |
| `RuleRuntimes.FaultExact` | crates/kovert-core/src/engine.rs:248-255 | Some event indexes past the steps if and only if the stored index does not fit them. |
| `RuleRuntimes.FailureNeverTriggers` | crates/kovert-core/src/engine.rs:132-208 | On a sensor failure, an unarmed rule with a validated negation-free trigger never arms, advances its sequence or fires; it contributes at most an alert or lock, isolate and mode actions. |
| `RuleRuntimes.FailClosedContribution` | crates/kovert-core/src/engine.rs:150-167 | Fail-closed plans an action if and only if it is one of the rule's lock-vault, isolation-on or set-mode actions, in their order, and leaves the runtime unchanged. |
| `RuleRuntimes.AlertAndIgnoreExact` | crates/kovert-core/src/engine.rs:132-148 | At a failure of an own sensor, policy ignore plans nothing and policy alert exactly one critical notification titled "Kovert sensor failure" with the sensor and its message; the runtime is unchanged and nothing fires. |
| `RuleRuntimes.FiringPlansActions` | crates/kovert-core/src/engine.rs:176-224 | Otherwise a rule plans something exactly when it fires, and then each of its actions in order, under its identifier and priority and the event's identifier. |
| `Matching.UnusedSensorMatchesByShape` | crates/kovert-core/src/engine.rs:279-474 | Against the failure of a sensor it does not use, a trigger matches if and only if its shape alone, with every leaf false, is satisfied. |
| `Matching.FailureSeparationExact` | crates/kovert-core/src/engine.rs:606-634 | Matching a sensor failure implies using the sensor, if and only if the trigger is not satisfied by shape alone or uses the sensor. |
| `Matching.FailureSeparation` | crates/kovert-core/src/engine.rs:606-634 | A negation-free trigger without empty composites that matches a sensor failure uses that sensor. |
| `Matching.NegationFreeNeedsALeaf` | crates/kovert-core/src/validation.rs:245-269 | Validated composites without negation are never satisfied by shape alone. |
| `Matching.NegationEscapesSeparation` | crates/kovert-core/src/engine.rs:470-470 | A negated trigger that matches the failure of a sensor it does not use. |
| `Correspondence.WifiExact` | crates/kovert-core/src/engine.rs:279-575 | A Wi-Fi trigger matches an event if and only if each given field agrees, the station address up to case, and so does the condition of the same fields on the snapshot the event leaves. |
| `Correspondence.NetworkExact` | crates/kovert-core/src/engine.rs:279-575 | The same of network triggers and conditions. |
| `Correspondence.SessionExact` | crates/kovert-core/src/engine.rs:279-575 | The same of session triggers and conditions. |
| `Correspondence.PowerExact` | crates/kovert-core/src/engine.rs:279-575 | The same of power, a battery limit asking for a known charge strictly below it. |
| `Correspondence.ProcessExact` | crates/kovert-core/src/engine.rs:279-575 | The same of processes, with or without a name and a state. |
| `Correspondence.ServiceExact` | crates/kovert-core/src/engine.rs:279-575 | The same of services. |
| `Correspondence.PortExact` | crates/kovert-core/src/engine.rs:279-575 | The same of ports. |
| `Correspondence.MountExact` | crates/kovert-core/src/engine.rs:279-575 | The same of mounts, any event but a removal leaving the path mounted. |
| `Correspondence.FileExact` | crates/kovert-core/src/engine.rs:577-583 | A file trigger matches its path, with the recursive flag also everything below, and the operations it lists or any. |
| `Correspondence.UsbExact` | crates/kovert-core/src/engine.rs:279-474 | A USB trigger compares vendor and product up to case and the serial exactly. |
| `Correspondence.NamedExact` | crates/kovert-core/src/engine.rs:279-474 | Tick, hotkey and manual triggers match exactly the event of their name. |
| `Correspondence.FailuresExact` | crates/kovert-core/src/engine.rs:279-474 | Integrity triggers match violations, failure triggers failures, of the named component or of any. |
| `Correspondence.TriggerConnectives` | crates/kovert-core/src/engine.rs:464-469 | All and any mean every and some part. |
| `Correspondence.NotAndSequence` | crates/kovert-core/src/engine.rs:470-471 | Not means the opposite; a sequence inside another trigger never matches. |
| `Correspondence.ConditionConnectives` | crates/kovert-core/src/engine.rs:478-484 | The same connectives of conditions. |
| `Correspondence.HealthAndModeExact` | crates/kovert-core/src/engine.rs:535-573 | A health condition asks whether the sensor is known and healthy, a mode condition for the mode, a path condition for the file's presence. |
| `Correspondence.TimeWindowExact` | crates/kovert-core/src/engine.rs:485-507 | A time window holds on its weekdays when the time of day, going round the clock from its start, comes no later than its end, so also across midnight; `outside` asks for the opposite. |
| `Correspondence.UnreadableWindow` | crates/kovert-core/src/engine.rs:491-496 | A window whose times cannot be read never holds, inside or outside. |
| `Correspondence.LeafUsesItsSource` | crates/kovert-core/src/engine.rs:606-634 | A leaf uses exactly the sensor under whose name the events it matches are published. |
| `Correspondence.CompositeUses` | crates/kovert-core/src/engine.rs:606-634 | All and any use the sensors of their parts and no others. |
| `Correspondence.SequenceUses` | crates/kovert-core/src/engine.rs:606-634 | So do not and sequences. |
| `Correspondence.PollingPublishes` | crates/kovert-sensors/src/polling.rs:126-380 | The polling sensors publish every kind of event under the name by which triggers know it. |
| `Correspondence.KnownSensorsExact` | crates/kovert-core/src/validation.rs:312-335 | Health conditions may name exactly the sources events are published under, the two components whose integrity is checked, and the polling task. |
| `Engine.EvaluateRules` | crates/kovert-core/src/engine.rs:115-209 | The loop that writes runtimes back as it goes ends with the runtimes and candidates of independent per-rule steps taken from the starting runtimes. |
| `Engine.MoveRuntimes` | crates/kovert-core/src/engine.rs:97-103 | Moving runtimes out of the old map yields, for each new rule, its old runtime by identifier or a fresh one; a repeated identifier ends with a fresh one. |
| `Engine.ReactionsMakeNextRuntime` | crates/kovert-core/src/engine.rs:115-209 | Per-rule results, looked up by identifier, determine the whole next runtime map. |
| `Engine.SortedRules` | crates/kovert-core/src/engine.rs:40-45 | Sorting keeps the same rules with unique identifiers. |
| `Engine.SortedRulesRanked` | crates/kovert-core/src/engine.rs:40-45 | Of two rules in evaluation order the first has the higher priority, or the same and an identifier that is a prefix of the other or smaller at the first difference. |
| `Ordering.TextLeExact` | crates/kovert-core/src/engine.rs:44-44 | The text order puts a before b if and only if a is a prefix of b or has the smaller character at the first place where they differ. |
| `Engine.PolicyEngine.constructor` | crates/kovert-core/src/engine.rs:39-60 | A new engine holds the sorted rules, a fresh runtime for each, the default snapshot in the given mode, and recovery off. |
| `Engine.PolicyEngine.SetRecoveryMode` | crates/kovert-core/src/engine.rs:74-83 | Switching on clears arming and progress of every rule; switching off changes no runtime. |
| `Engine.PolicyEngine.SetMode` | crates/kovert-core/src/engine.rs:85-87 | Changes the mode and nothing else. |
| `Engine.PolicyEngine.ReplaceRules` | crates/kovert-core/src/engine.rs:90-106 | Installs the sorted replacement with the moved runtimes and leaves recovery; with unique identifiers every runtime is carried over and nothing else changes. |
| `Engine.PolicyEngine.Handle` | crates/kovert-core/src/engine.rs:109-212 | The snapshot absorbs the event; under recovery nothing else happens; otherwise every rule takes its own step and the resolved candidates are returned. |
| `EngineRuns.RunKeepsInForce` | crates/kovert-core/src/engine.rs:90-106 | In every run rules stay sorted with unique identifiers and each has exactly one runtime. |
| `EngineRuns.RulesLiveTheirHistories` | crates/kovert-core/src/engine.rs:109-212 | In every run of events, mode changes, recovery toggles and reloads, a rule's runtime is that of its own history and of nothing else. |
| `EngineRuns.OtherRulesDoNotMatter` | crates/kovert-core/src/engine.rs:109-212 | Two engines that hold, and at every reload are given, the same rule among any other rules keep the same runtime for it and fire it at the same times, also when reloads drop it and bring it back. |
| `EngineRuns.FiringTimesFromHistory` | crates/kovert-core/src/engine.rs:109-212 | The engine's firings of a rule are exactly those of the rule's history, across reloads that keep it. |
| `EngineRuns.EngineRateBound` | crates/kovert-core/src/engine.rs:74-130 | Across any interleaving that keeps identifier and cooldown c, firing number k comes at least k times c after the first. |
| `EngineRuns.EngineFiresOncePerBoot` | crates/kovert-core/src/engine.rs:122-124 | A rule kept once-per-boot fires at most once in any such run. |
| `EngineRuns.RecoveryIsInert` | crates/kovert-core/src/engine.rs:109-113 | While recovery lasts, over any events and mode changes, every plan is empty and no runtime changes, while the snapshot follows every event. |
| `EngineRuns.EngineFiresExact` | crates/kovert-core/src/engine.rs:109-208 | A rule that is not waiting and has no sustain time fires if and only if nothing suppresses it, its trigger is satisfied and its condition, if any, matches the snapshot that has already absorbed the event. |
| `EngineRuns.EngineWaitsExact` | crates/kovert-core/src/engine.rs:171-189 | A waiting rule fires if and only if that condition matches and the time is up, and stops waiting if and only if it fires or the condition does not match; its sequence does not move. |
| `EngineRuns.ExposedExact` | crates/kovert-core/src/engine.rs:117-255 | A rule can be made to index out of range by some next event if and only if its index does not fit, it is neither spent nor armed, and its window outlasts its cooldown. |
| `EngineRuns.FaultFreeExact` | crates/kovert-core/src/engine.rs:239-255 | No next event makes the engine index out of range if and only if recovery is on or no rule in force is so exposed. |
| `EngineRuns.ReloadSafeExact` | crates/kovert-core/src/engine.rs:97-103 | After a reload no event can overrun a sequence automaton if and only if every carried-over index fits its new steps. |
| `Witnesses.ReloadCanFault` | crates/kovert-core/src/engine.rs:97-103 | From the first start on a valid three-step configuration, two recorded ticks and the adopted reload of a valid two-step one: the next tick indexes out of range. |
| `EngineRuns.RunsNeverFault` | crates/kovert-core/src/engine.rs:239-273 | If every reload fits the state it meets, no event of any run faults. |
| `FaultRuns.ThreatExact` | crates/kovert-core/src/engine.rs:116-273 | Some continuation of events makes a rule index out of range if and only if its stored index does not fit, it is neither switched off nor spent, and its window outlasts its cooldown, counted from the firing it must make first when it waits without a condition. |
| `FaultRuns.UnthreatenedRunsOn` | crates/kovert-core/src/engine.rs:109-273 | If no rule is so threatened, no run of events, mode changes and recovery faults before the next reload. |
| `FaultRuns.ThreatWasThere` | crates/kovert-core/src/engine.rs:116-273 | No event creates such a threat; only a reload can. |
| `EngineRuns.CandidatesNeedNoSort` | crates/kovert-core/src/engine.rs:211-227 | Candidates come out in rank order, so the stable sort moves nothing and the plan is the surviving candidates. |
| `EngineRuns.ConflictsResolvedByRank` | crates/kovert-core/src/engine.rs:211-237 | For every candidate with a conflict key exactly one planned action has that key, the first candidate with it: it has the higher priority, or the same and an identifier that is a prefix of the other or smaller at the first difference, or comes earlier in its rule. |
| `EngineRuns.ResourcePlannedOnceExact` | crates/kovert-core/src/engine.rs:211-237 | A resource that candidates act upon is acted upon by exactly one planned action if and only if the candidates do not spell it, as a mount point, in two ways. |
| `EngineRuns.PlanKeepsOrder` | crates/kovert-core/src/engine.rs:226-237 | The plan lists its actions in the order of the candidates. |
| `EngineRuns.SpellingsBothPlanned` | crates/kovert-core/src/engine.rs:226-237 | A rule that unmounts one place under two spellings has both unmounts planned. |
| `Witnesses.MountUnmountedTwice` | crates/kovert-core/src/config.rs:466-466 | A valid configuration of a freshly started daemon in which a tick plans two unmounts of one mount point. |
| `EngineRuns.KeylessActionsAllPlanned` | crates/kovert-core/src/engine.rs:226-237 | Actions without a conflict key are all planned, in their order. |
| `Conflicts.ResolveConflicts` | crates/kovert-core/src/engine.rs:226-237 | The filter with its growing set of claimed keys keeps exactly the first claim of each key and every keyless action of the sorted candidates. |
| `Conflicts.FirstClaimSurvivesOnce` | crates/kovert-core/src/engine.rs:229-236 | The first claimant of a key survives, and no other survivor has that key. |
| `Conflicts.KeylessAllSurvive` | crates/kovert-core/src/engine.rs:229-236 | Filtering keeps the keyless actions and their order. |
| `Conflicts.SurvivorsInOrder` | crates/kovert-core/src/engine.rs:229-236 | Survivors stand in the order they had as candidates. |
| `Conflicts.SurvivorsComeFromCandidates` | crates/kovert-core/src/engine.rs:229-236 | Every survivor is a candidate that is the first claim of its key or keyless. |
| `Ordering.SortSorts` | crates/kovert-core/src/engine.rs:40-45 | The stable sort orders by any total preorder. |
| `Ordering.SortPermutes` | crates/kovert-core/src/engine.rs:40-45 | The stable sort is a permutation. |
| `Ordering.SortKeepsSorted` | crates/kovert-core/src/engine.rs:227-227 | The stable sort leaves a sorted sequence as it is. |
| `Config.KeysIdentifyResources` | crates/kovert-core/src/config.rs:457-470 | Equal conflict-key texts always mean one resource of one kind; one resource gives equal key texts if and only if it is not a mount point that two unmounts spell differently. |
| `Config.SpellingSplitsKey` | crates/kovert-core/src/config.rs:466-466 | Every nonempty spelling of a mount point has a rival, the same with a trailing slash, that means the same path and has another key. |
| `Config.PlainSpellingReadsBack` | crates/kovert-core/src/config.rs:466-466 | Every absolute path without dots is read back from its plain spelling with one slash before each component. |
| `Config.PlainKeysIdentify` | crates/kovert-core/src/config.rs:457-470 | Among plainly spelled unmounts, and all other actions, key texts are equal if and only if the resources are. |
| `Config.SilentDot` | crates/kovert-core/src/config.rs:466-466 | A dot behind a slash does not change the path a spelling means. |
| `Config.DoubledSlash` | crates/kovert-core/src/config.rs:466-466 | A doubled slash does not change the path a spelling means. |
| `Events.SystemSnapshot.constructor` | crates/kovert-core/src/event.rs:127-150 | The default snapshot. |
| `Correspondence.NothingKnownAtFirst` | crates/kovert-core/src/event.rs:127-150 | Before any event nothing is known, mounted, running, open or healthy. |
| `Events.SystemSnapshot.Apply` | crates/kovert-core/src/event.rs:155-238 | Field-by-field update: the clock and the source's health first, then the payload, and nothing else. |
| `Correspondence.EventSetsHealth` | crates/kovert-core/src/event.rs:155-238 | Every event sets the clock and marks its source healthy; a failure marks the sensor it names unhealthy and an integrity verdict its component as it says; no event changes the mode. |
| `Audit.AuditRefinement` | crates/kovert-daemon/src/audit.rs:99-160 | After any run of appends with limits changing between openings, failures anywhere and other writes in between, the rows are the end of the unbounded log, the anchor is the hash just before them (genesis if nothing was pruned), the chain verifies, and an accepted append leaves at most the nonzero limit. |
| `Audit.RetentionExact` | crates/kovert-daemon/src/audit.rs:99-160 | In any run an accepted append under limit m leaves exactly the last k records of the log, k being the previous count plus one, or m if that is smaller and not zero; the new record is always the last of them. |
| `Audit.HashesStayDistinct` | crates/kovert-daemon/src/audit.rs:99-160 | In any run no two retained records share a hash. |
| `Audit.AppendRefines` | crates/kovert-daemon/src/audit.rs:99-160 | One append extends the log by exactly the new row and keeps exactly as many rows as the limit allows, or changes nothing. |
| `Audit.PruneDropsExcess` | crates/kovert-daemon/src/audit.rs:375-398 | Pruning keeps exactly the last rows: all of them without a limit or up to it, and otherwise as many as the limit allows, anchored on the last one dropped. |
| `Audit.RepresentsVerifies` | crates/kovert-daemon/src/audit.rs:200-243 | Retained rows of the log always form a chain from the stored anchor. |
| `Audit.ChainUnique` | crates/kovert-daemon/src/audit.rs:200-243 | Two verifying tables with the same anchor, row count and final hash agree row by row on every hashed field, or their rows at some position, behind which they agree, are two different byte strings with one digest. |
| `Audit.HashDeterminesRecord` | crates/kovert-daemon/src/audit.rs:352-373 | Equal record hashes mean equal hashed fields, up to absent versus empty text, or the two records' own bytes collide. |
| `Audit.AbsentAndEmptyHashAlike` | crates/kovert-daemon/src/audit.rs:364-366 | An absent identifier and an empty one give the same hash. |
| `Audit.ComputeHash` | crates/kovert-daemon/src/audit.rs:352-373 | Feeding the six fields one by one hashes their length-delimited encoding. |
| `Audit.RecordBytesExact` | crates/kovert-daemon/src/audit.rs:361-368 | What is hashed is previous hash, time, event, kind, rule and payload, in this order, absent texts as empty ones. |
| `Audit.ZerosAreZeros` | crates/kovert-daemon/src/audit.rs:31-97 | The genesis text has exactly the given number of characters, all of them zeros. |
| `Audit.AuditStore.constructor` | crates/kovert-daemon/src/audit.rs:31-97 | Opening takes the stored tables and the configured limit; the genesis hash is 64 zeros. |
| `Audit.AuditStore.PruneRows` | crates/kovert-daemon/src/audit.rs:375-398 | The table update is the specified retention; only rows and the anchor change. |
| `Audit.AuditStore.Append` | crates/kovert-daemon/src/audit.rs:99-160 | Insertion chained to the last hash or the anchor, then retention, all or nothing. |
| `Audit.AuditStore.Verify` | crates/kovert-daemon/src/audit.rs:200-243 | Succeeds, with the row count, if and only if the rows form an unbroken chain from the anchor; otherwise names the first bad row and which of the two checks it fails. |
| `Audit.AuditStore.SetState` | crates/kovert-daemon/src/audit.rs:255-262 | Writes one state key or nothing. |
| `Audit.AuditStore.ActionCompleted` | crates/kovert-daemon/src/audit.rs:264-281 | True if and only if the ledger holds "succeeded" for the key. |
| `Audit.AuditStore.RecordAction` | crates/kovert-daemon/src/audit.rs:283-309 | Writes one ledger entry or nothing. |
| `Encoding.EncodeFieldsInjective` | crates/kovert-daemon/src/audit.rs:361-372 | Equal length-delimited encodings come from equal field lists. |
| `Encoding.LittleEndianInjective` | crates/kovert-daemon/src/audit.rs:369-369 | The eight-byte length determines the length. |
| `Encoding.LittleEndianReadsBack` | crates/kovert-daemon/src/audit.rs:369-369 | The bytes of a length, least significant first, spell that length. |
| `Encoding.Utf8Injective` | crates/kovert-daemon/src/audit.rs:361-372 | The byte form of a text determines the text. |
| `Encoding.CodePointReadsBack` | crates/kovert-daemon/src/audit.rs:361-372 | The bytes of a character decode to that character. |
| `RuntimeRuns.LedgerSafety` | crates/kovert-daemon/src/runtime.rs:128-223 | Over every run, across storage failures, reloads and restarts, nothing is executed or recorded for an event, rule and action after their success. |
| `RuntimeRuns.ExecutionsAnnounced` | crates/kovert-daemon/src/runtime.rs:144-168 | Over every run each execution comes right after its "started" ledger entry and its action_started audit record, under the hash of the very action executed, and that record is in the log. |
| `RuntimeRuns.AuditAlwaysVerifies` | crates/kovert-daemon/src/runtime.rs:128-238 | In every reachable state the log holds exactly the audited entries in their order, and the retained rows end the log and verify from the stored anchor. |
| `RuntimeRuns.PlansPassExecutor` | crates/kovert-daemon/src/runtime.rs:335-379 | In every reachable state, after any successful or refused reloads, no planned action is turned away by the executor's checks and every planned program has a digest pinned. |
| `RuntimeRuns.ConsistentPlanPasses` | crates/kovert-daemon/src/runtime.rs:335-379 | The same for any state whose rules and executor belong to one valid configuration, with planned modes being declared ones. |
| `RuntimeRuns.PlanOrigin` | crates/kovert-core/src/engine.rs:109-237 | A planned action belongs to a rule in force or is the built-in alert. |
| `RuntimeRuns.RunsKeepInv` | crates/kovert-daemon/src/runtime.rs:128-357 | Every command keeps rules, executor and configuration together and keeps the store's invariants. |
| `RuntimeRuns.ModeKnownExact` | crates/kovert-daemon/src/runtime.rs:296-357 | A command keeps the mode a declared one if and only if it is not an adopted reload whose configuration declares modes but not the current one. |
| `Witnesses.ReloadLeavesUndeclaredMode` | crates/kovert-daemon/src/runtime.rs:335-357 | Two valid configurations, the second adopted by a reload, after which the daemon is in a mode the second does not declare. |
| `RuntimeRuns.KeysAreNotTheAnchor` | crates/kovert-daemon/src/runtime.rs:225-238 | No state key the runtime writes is the audit anchor. |
| `RuntimeRuns.SettingsSurviveRestart` | crates/kovert-daemon/src/runtime.rs:51-68 | A stored mode comes back after a restart if still declared, a stored recovery setting always, even after the audit append that follows it. |
| `Ledger.RunPlanKeepsInv` | crates/kovert-daemon/src/runtime.rs:144-223 | Wherever storage fails, processing a plan keeps the ledger, the trace and the audit log safe, and the log equal to the audited entries of the trace. |
| `Ledger.PlanTraceExact` | crates/kovert-daemon/src/runtime.rs:144-223 | A plan that ends leaves all five steps in order; a completed one leaves nothing; a storage error leaves a proper beginning of the five. |
| `Ledger.ConclusionExact` | crates/kovert-daemon/src/runtime.rs:168-222 | When a plan ends, the ledger holds "succeeded" if and only if the outcome reports success and "failed" for every other outcome and for errors, and the trace is, written out: started, action_started record, execution, that status, and an action_succeeded or action_failed record to match. |
| `Ledger.ExecutesUnlessDone` | crates/kovert-daemon/src/runtime.rs:148-168 | When nothing fails before it, an action is executed if and only if the ledger does not hold its success. |
| `Ledger.FailureIsRetried` | crates/kovert-daemon/src/runtime.rs:148-222 | An action that ended without success is executed again when the same event is processed again. |
| `Ledger.RerunSkips` | crates/kovert-daemon/src/runtime.rs:144-158 | An action that succeeded is skipped when its event is processed again. |
| `Ledger.SuccessIsTerminal` | crates/kovert-daemon/src/audit.rs:264-309 | In a safe trace nothing is executed or recorded for a key after its success. |
| `Ledger.ExecutionIsBracketed` | crates/kovert-daemon/src/runtime.rs:159-168 | In a safe trace each execution directly follows its ledger entry and audit record, and its key carries the action's own hash. |
| `Runtime.Daemon.constructor` | crates/kovert-daemon/src/runtime.rs:40-81 | Start-up takes the stored mode if still declared, else the configured one, and the stored recovery setting. |
| `EffectRuns.StartModeExact` | crates/kovert-daemon/src/runtime.rs:51-63 | A daemon starts in the stored mode if that is declared or none is; otherwise in the mode marked initial, without one in the first, without any in "normal". |
| `EffectRuns.StartFresh` | crates/kovert-daemon/src/runtime.rs:64-68 | It starts in recovery if and only if "true" was stored, and with every rule fresh. |
| `Runtime.Daemon.Attempt` | crates/kovert-daemon/src/runtime.rs:144-223 | The sequence of store calls around an execution is the specified one, stopping at the first failure. |
| `Runtime.Daemon.ApplyEffect` | crates/kovert-daemon/src/runtime.rs:225-238 | Only a successful, real outcome changes the mode or stores the isolation flag. |
| `EffectRuns.PlanEffectExact` | crates/kovert-daemon/src/runtime.rs:205-238 | Executing a plan sets the mode if and only if a mode action really succeeds, and to the mode it names, and stores it or the isolation flag if and only if the action really succeeds and storage holds; dry runs, failures and refusals change neither. |
| `Runtime.Daemon.RunPlans` | crates/kovert-daemon/src/runtime.rs:138-140 | Plans run in order until the first storage error. |
| `EffectRuns.PlansExecuteInOrder` | crates/kovert-daemon/src/runtime.rs:138-140 | The plans of an event are executed in their order, each at most once, under event, rule and the hash of the action. |
| `Runtime.Daemon.Process` | crates/kovert-daemon/src/runtime.rs:128-142 | The event is logged first; without that the engine does not see it. |
| `EffectRuns.ProcessExact` | crates/kovert-daemon/src/runtime.rs:128-142 | A recorded event has its record before everything else, moves the engine once, and has the engine's plan executed in order. |
| `EffectRuns.UnrecordedChangesNothing` | crates/kovert-daemon/src/runtime.rs:130-135 | An event that cannot be recorded changes nothing at all. |
| `Runtime.Daemon.Announce` | crates/kovert-daemon/src/runtime.rs:84-123 | The start and stop records change the audit tables alone and are refused exactly when the append is. |
| `Runtime.Daemon.RequestMode` | crates/kovert-daemon/src/runtime.rs:296-305 | An undeclared mode is refused; otherwise mode, state and audit follow in that order. |
| `EffectRuns.ModeRequestExact` | crates/kovert-daemon/src/runtime.rs:296-305 | An undeclared mode leaves everything as it was; a declared one is in force at once, stored unless storage fails and noted as mode_changed, with rules, runtimes and recovery untouched. |
| `Runtime.Daemon.RequestRecovery` | crates/kovert-daemon/src/runtime.rs:306-324 | Recovery, state and audit follow in that order. |
| `EffectRuns.RecoveryRequestExact` | crates/kovert-daemon/src/runtime.rs:306-324 | Recovery is as requested at once, stored as "true" or "false" unless storage fails and noted as recovery_mode_changed, with mode and snapshot untouched. |
| `Runtime.Daemon.Reload` | crates/kovert-daemon/src/runtime.rs:335-357 | An unavailable or invalid configuration changes nothing; otherwise rules, executor and configuration change together. |
| `EffectRuns.ReloadExact` | crates/kovert-daemon/src/runtime.rs:335-357 | An unreadable or invalid configuration changes nothing; any other brings its rules, executor and itself into force with the runtimes of the rules it keeps, and leaves snapshot, recovery and retention limit. |
| `Runtime.StoppedStays` | crates/kovert-daemon/src/runtime.rs:138-140 | Once a plan has stopped with an error, the remaining plans change nothing. |
| `Executor.ValidatedActionPasses` | crates/kovert-actions/src/lib.rs:127-366 | No action of a validated configuration is turned away by the vault lookup, path, interface, unit, managed-process or allowlist checks, and each program has a well-formed digest. |
| `Executor.RefusesExact` | crates/kovert-actions/src/lib.rs:127-366 | Under a valid configuration an action is turned away, with the reason given, if and only if its vault is undeclared, a path relative, a name malformed, its process unmanaged or its program unlisted. |
| `Executor.ValidationMatchesExecutor` | crates/kovert-core/src/validation.rs:340-421 | Under a valid configuration an action is valid if and only if the executor does not turn it away and, which the executor does not check, its mode is declared or its program has a well-formed digest and environment. |
| `Executor.OutcomeExact` | crates/kovert-actions/src/lib.rs:127-330 | An execution succeeds if and only if it is a dry run, or is not turned away and sets the mode or exits successfully; only then, and not in a dry run, does it carry the effect its action names. |
| `Executor.NamedVaultFound` | crates/kovert-actions/src/lib.rs:324-330 | A vault name that is declared is found. |
| `Validation.ValidateConfig` | crates/kovert-core/src/validation.rs:27-212 | For every configuration, no error is reported if and only if it is valid, and the problems reported are exactly its defects, each naming the mode, vault, hotkey or rule concerned. |
| `Validation.ValidateDaemon` | crates/kovert-core/src/validation.rs:27-59 | Reports exactly the defects among version, paths, interval, buffer and allowlist. |
| `Validation.ValidateModes` | crates/kovert-core/src/validation.rs:61-84 | Reports exactly the malformed names, the repeated names and more than one initial mode; the names are collected. |
| `Validation.ValidateVaults` | crates/kovert-core/src/validation.rs:86-135 | Reports exactly the defects of each vault and the repeated names; the names are collected. |
| `Validation.ValidateHotkeys` | crates/kovert-core/src/validation.rs:137-175 | Reports exactly the defects of each hotkey, with the first unknown key, and the repeated names; the names are collected. |
| `Keys.KeyTablesAgree` | crates/kovert-core/src/validation.rs:434-477 | For every text, validation accepts it as a key name if and only if the hotkey sensor has a code for it. |
| `Keys.SpellingsOfAKey` | crates/kovert-core/src/validation.rs:434-436 | White space around a key name, the case of its letters and the KEY_ prefix do not matter. |
| `Keys.ValidSequenceTranslates` | crates/kovert-sensors/src/hotkey.rs:12-16 | Every key of a sequence that passes validation has a code, so the sensor can start. |
| `Validation.ValidateRules` | crates/kovert-core/src/validation.rs:177-205 | Reports exactly the malformed and repeated identifiers, missing actions and invalid triggers, conditions and actions of each rule. |
| `Validation.ValidateTrigger` | crates/kovert-core/src/validation.rs:214-272 | The recursion adds reports about the rule's trigger, and nothing else, if and only if the trigger is not valid at its depth. |
| `Validation.ValidateCondition` | crates/kovert-core/src/validation.rs:274-338 | The recursion adds reports about the rule's condition, and nothing else, if and only if the condition is not valid at its depth. |
| `Validation.ValidateAction` | crates/kovert-core/src/validation.rs:340-421 | Adds reports about the rule's actions, and nothing else, if and only if the action is not valid against declared vaults, modes and allowlists. |
| `Validation.DepthLimitExact` | crates/kovert-core/src/validation.rs:214-272 | The depth-counting recursion accepts exactly the well-shaped triggers with at most sixteen levels below the top. |
| `Validation.ConditionDepthExact` | crates/kovert-core/src/validation.rs:274-338 | The recursion over conditions accepts exactly the well-shaped ones with at most sixteen levels below the top. |
| `Validation.IdentifierExact` | crates/kovert-core/src/validation.rs:430-432 | Identifiers are the nonempty texts of letters, digits, underscores, dots and hyphens, by their codes. |
| `Validation.InterfaceNameExact` | crates/kovert-core/src/validation.rs:479-485 | Interface names may besides hold a colon and have at most 15 characters. |
| `Validation.UnitNameExact` | crates/kovert-core/src/validation.rs:487-494 | Unit names may besides hold an at sign and have at most 255 characters. |
| `Validation.DigestAndVariableExact` | crates/kovert-core/src/validation.rs:385-417 | A digest is 64 hexadecimal digits, and a variable is written in capitals, digits and underscores. |
| `Validation.LimitsOfValid` | crates/kovert-core/src/validation.rs:27-212 | The numeric limits a valid configuration keeps: version 1, buffer of 16, sequences of 1 to 32 keys, keyring texts of 1 to 128 bytes, sixteen levels. |
| `Validation.ValidTriggersAreUsable` | crates/kovert-core/src/validation.rs:245-269 | Valid triggers have no empty composite, name their processes, services and ports, and have two or more sequence steps. |
| `Validation.OneInitial` | crates/kovert-core/src/validation.rs:62-84 | Counting initial modes up to one means no two of them are initial. |
| `Requirements.ConditionFootprint` | crates/kovert-sensors/src/requirements.rs:86-122 | Snapshots that agree on clock, mode, health and everything collected for a condition give it the same verdict, however nested. |
| `Requirements.ConfigurationFootprint` | crates/kovert-sensors/src/requirements.rs:23-32 | The same for the sensors of a whole configuration and the condition of each of its rules. |
| `Requirements.NeedsExact` | crates/kovert-sensors/src/requirements.rs:23-122 | A file, sensor, process, service or port is collected if and only if a leaf of a trigger or condition of some rule is about it. |
| `Requirements.CollectedIsProvided` | crates/kovert-sensors/src/requirements.rs:86-122 | Collection selects a source for every leaf of a condition. |
| `Requirements.MatchesAreWatched` | crates/kovert-sensors/src/requirements.rs:35-84 | Whatever a validated negation-free trigger can match, a collected sensor can report. |
| `Requirements.WatchFlagExact` | crates/kovert-sensors/src/requirements.rs:23-84 | A path is watched, recursively or not, exactly as the last file trigger of the configuration naming it says. |
| `Requirements.WatchCoversExact` | crates/kovert-sensors/src/requirements.rs:36-41 | The watch collected for a path covers everything a file trigger on it matches if and only if the trigger is not recursive or the last trigger naming the path is. |
| `Requirements.RecursiveFlagOverwritten` | crates/kovert-sensors/src/requirements.rs:36-41 | A later non-recursive trigger narrows an earlier recursive watch of the same path. |
| `Requirements.SensorRequirements.AddTrigger` | crates/kovert-sensors/src/requirements.rs:35-84 | The accumulator ends with the needs collected from the trigger. |
| `Requirements.SensorRequirements.AddCondition` | crates/kovert-sensors/src/requirements.rs:86-122 | The accumulator ends with the needs collected from the condition. |
| `Requirements.SensorRequirements.AddRules` | crates/kovert-sensors/src/requirements.rs:23-32 | All rules, each with its trigger and then its condition. |
| `PollingRuns.SnapshotFollowsProbes` | crates/kovert-sensors/src/polling.rs:67-380 | After any cycles with any probe failures, resets and unrelated events, the snapshot that has replayed the events sent equals the last successful probe of every required sensor; after a reset mounts are at least that. |
| `PollingRuns.ReplayShows` | crates/kovert-sensors/src/polling.rs:67-123 | Replaying the events sent, from an empty snapshot, shows of the sensors exactly what their payloads add up to. |
| `DeliveryRuns.DaemonFollowsProbesExact` | crates/kovert-daemon/src/runtime.rs:128-142 | The daemon's snapshot is the one that replays everything the sensors sent if and only if, for every Wi-Fi, network, session or power value and every mount, process, service and port, the last recorded report says what the last sent one says; then it follows the probes. |
| `DeliveryRuns.SnapshotIsRecorded` | crates/kovert-daemon/src/runtime.rs:128-142 | Between restarts the polled part of the snapshot is made by the recorded events alone, whatever actions, mode changes, recovery and reloads happen in between. |
| `DeliveryRuns.ReadingIsLastReport` | crates/kovert-core/src/event.rs:155-238 | A snapshot says of each subject what was last reported about it. |
| `DeliveryRuns.LostReport` | crates/kovert-daemon/src/runtime.rs:128-136 | A Wi-Fi report whose audit record fails is lost: the snapshot goes on showing no connection. |
| `PollingRuns.RunAgrees` | crates/kovert-sensors/src/polling.rs:126-380 | In every run the snapshot agrees with the polling state, sensor by sensor. |
| `PollingRuns.RunRemembers` | crates/kovert-sensors/src/polling.rs:126-380 | In every run the polling state holds each sensor's last successful probe since the reset. |
| `PollingRuns.CycleAgrees` | crates/kovert-sensors/src/polling.rs:126-354 | One cycle carries agreement over, whatever probes fail. |
| `PollingRuns.ReplayAbsorbs` | crates/kovert-core/src/event.rs:155-238 | Replaying published events through the snapshot depends on their payloads alone for everything polled. |
| `PollingRuns.StaleMountSurvivesReset` | crates/kovert-sensors/src/polling.rs:119-119 | A mount that vanished across a reset stays in the snapshot although the last probe does not list it. |
| `PollingRuns.FailureReportedOnTransition` | crates/kovert-sensors/src/polling.rs:356-380 | In every run a cycle reports a sensor's failure if and only if its probe fails now and did not fail in the cycle before. |
| `PollingRuns.IntegrityReportsEveryTime` | crates/kovert-sensors/src/polling.rs:675-706 | The integrity check reports a failure in every cycle in which a file is unreadable, and in no other. |
| `MountRuns.MountsFollowExact` | crates/kovert-sensors/src/polling.rs:119-225 | After resets the mounts of the replayed snapshot equal the last successful probe if and only if every mount held at the reset was seen again since. |
| `MountRuns.MountsExactly` | crates/kovert-sensors/src/polling.rs:181-225 | The snapshot's mounts are those probed last together with the mounts held at the reset and never seen since. |
| `HealthRuns.HealthAfterCycle` | crates/kovert-sensors/src/polling.rs:126-380 | A sensor whose probe worked is called healthy after the cycle if and only if it was so before or its value changed; one whose probe failed is called unhealthy once the failure has been reported. |
| `HealthRuns.HealthExact` | crates/kovert-sensors/src/polling.rs:126-380 | After any run, with any failures and resets, the snapshot calls a sensor healthy if and only if some probe of it found a change and every probe of it since has worked. |
| `HealthRuns.RecoveryGoesUnnoticed` | crates/kovert-sensors/src/polling.rs:134-148 | A Wi-Fi probe that works, fails and works again with the same result leaves the sensor marked unhealthy. |
| `HealthRuns.ReplayHealth` | crates/kovert-core/src/event.rs:155-238 | The last event a sensor emitted decides its health: a failure marks it unhealthy, anything else healthy. |
| `HealthRuns.CollectionSpeaks` | crates/kovert-sensors/src/polling.rs:164-301 | A successful probe of a collection emits nothing if and only if the collection is unchanged. |
| `HealthRuns.ScalarSpeaks` | crates/kovert-sensors/src/polling.rs:134-348 | A successful probe of a single value emits nothing if and only if the value is unchanged and this is not the first cycle. |
| `Polling.Poller.constructor` | crates/kovert-sensors/src/polling.rs:50-65 | Polling starts with nothing known and nothing failed. |
| `Polling.Poller.ProbeValue` | crates/kovert-sensors/src/polling.rs:356-380 | Success clears the failed mark; failure sets it and reports only the transition. |
| `Polling.Poller.PushChanged` | crates/kovert-sensors/src/polling.rs:226-268 | The loop over names emits exactly the changed ones, in walking order. |
| `Polling.Poller.TakeUsb` | crates/kovert-sensors/src/polling.rs:164-180 | The device loops emit the specified additions and removals and store the new set. |
| `Polling.Poller.TakeMounts` | crates/kovert-sensors/src/polling.rs:181-225 | The mount loops emit the specified additions and removals, all mounts in the first cycle, and store the new table. |
| `Polling.Poller.TakePorts` | crates/kovert-sensors/src/polling.rs:269-301 | Every required port is reported in the first cycle and every changed one later. |
| `Polling.Poller.TakeSession` | crates/kovert-sensors/src/polling.rs:302-332 | A changed session is reported, after a login when it comes out of the logged-out state. |
| `Polling.Poller.CheckIntegrity` | crates/kovert-sensors/src/polling.rs:675-706 | An unreadable file is reported as a failure, a changed hash as a violation, and the last readable hash is kept. |
| `EmissionRuns.CycleEmits` | crates/kovert-sensors/src/polling.rs:126-354 | A cycle emits exactly what each sensor emits against the state before the cycle. |
| `EmissionRuns.CycleInOrder` | crates/kovert-sensors/src/polling.rs:126-354 | The events of a cycle come sensor by sensor, from Wi-Fi to integrity. |
| `EmissionRuns.PluggedFollowsProbes` | crates/kovert-sensors/src/polling.rs:164-180 | In every run, whatever probes fail, the USB additions and removals emitted since the last reset add up to exactly the devices of the last successful probe. |
| `EmissionRuns.UsbEmitted` | crates/kovert-sensors/src/polling.rs:164-180 | A device is reported added if and only if it was found and is new or the cycle is the first, and removed if and only if it was held and is not found. |
| `EmissionRuns.MountEmitted` | crates/kovert-sensors/src/polling.rs:181-225 | The same of mounts, each with the source it is or was mounted from. |
| `EmissionRuns.ProcessEmitted` | crates/kovert-sensors/src/polling.rs:226-247 | A process is reported, with what was probed, if and only if that differs from what was held or the cycle is the first. |
| `EmissionRuns.ServiceEmitted` | crates/kovert-sensors/src/polling.rs:248-268 | The same of services. |
| `EmissionRuns.PortEmitted` | crates/kovert-sensors/src/polling.rs:269-301 | A port is reported as it is if and only if it opened or closed, or is required and the cycle is the first. |
| `EmissionRuns.SessionEmitted` | crates/kovert-sensors/src/polling.rs:302-332 | A session is reported if and only if it changed or is the first, with a login besides when it leaves the logged-out state or is found at first in another. |
| `EmissionRuns.WifiEmitted` | crates/kovert-sensors/src/polling.rs:134-148 | A Wi-Fi value is reported if and only if it was probed and is new or the first. |
| `EmissionRuns.NetworkEmitted` | crates/kovert-sensors/src/polling.rs:149-163 | The same of the network. |
| `EmissionRuns.PowerEmitted` | crates/kovert-sensors/src/polling.rs:333-348 | The same of power. |
| `EmissionRuns.FailureEmitted` | crates/kovert-sensors/src/polling.rs:356-380 | A failure is reported with the sensor's name and the probe's error if and only if the probe fails and the sensor was not marked failed. |
| `EmissionRuns.ViolationExact` | crates/kovert-sensors/src/polling.rs:675-706 | In every run a violation of a component is reported if and only if its hash can be read and differs from the last one read since the reset; nothing is ever reported intact. |
| `Polling.Poller.PollCycle` | crates/kovert-sensors/src/polling.rs:126-354 | The cycle visits its sensors in order, each acting on the state the earlier ones left, and marks the state initialized. |
| `Hotkeys.HotkeyExact` | crates/kovert-sensors/src/hotkey.rs:23-74 | With monotone times the loop fires at press j if and only if the last n presses, none used by an earlier match, spell the sequence and the first of them is at most the window old. |
| `Hotkeys.BufferExplained` | crates/kovert-sensors/src/hotkey.rs:43-60 | In every run the buffer is a suffix of the presses, and what it leaves out is used up, too far back or expired. |
| `Hotkeys.DropExpiredIsExact` | crates/kovert-sensors/src/hotkey.rs:48-53 | Evicting from the front removes exactly the expired presses. |
| `Hotkeys.HotkeyMatcher.KeyDown` | crates/kovert-sensors/src/hotkey.rs:43-60 | Both eviction loops and the comparison together act as the window specification says; a match clears the buffer. |
| `MountEscapes.MountRoundTrip` | crates/kovert-sensors/src/polling.rs:725-731 | For every text, decoding its escaped form returns it. |
| `MountEscapes.PassesEqualDecoder` | crates/kovert-sensors/src/polling.rs:725-731 | For every text, the four successive whole-text replacements equal one left-to-right decoder. |
| `MountEscapes.DecodeEscaped` | crates/kovert-sensors/src/polling.rs:725-731 | The one-pass decoder inverts the escaping. |
| `Nmcli.ParseFields` | crates/kovert-sensors/src/polling.rs:423-444 | The loop with its escape flag computes the fields of the terse format, a dangling backslash standing for itself. |
| `Nmcli.FieldsRoundTrip` | crates/kovert-sensors/src/polling.rs:423-444 | Fields of any content, written with colons and backslashes escaped, are read back unchanged. |
| `Nmcli.DanglingBackslash` | crates/kovert-sensors/src/polling.rs:439-442 | A backslash left over at the end belongs to the last field. |

## Left out

- Validation.ValidateConfig: the wording of messages is not modelled, and the several checks of one trigger, condition or action share one report that names the rule.
- Executor.ValidatedActionPasses: leaves out the keyring description that unlocking needs and validation does not demand, the executable's file permissions and its digest on disk.
- Requirements.MatchesAreWatched: states that a file watch stands on the path or above it; whether its recursive flag suffices is the subject of `Requirements.WatchCoversExact`.
- Engine.PolicyEngine.Handle: requires unique identifiers, which validation establishes, and that no rule indexes past its sequence, where the daemon would panic; when that is so is proved in `EngineRuns.FaultFreeExact`, `FaultRuns.ThreatExact` and `EngineRuns.RunsNeverFault`.
- HealthRuns.HealthExact: is about the events of the polling task alone; events of other origin published under a sensor's name are not considered.
- FaultRuns.ThreatExact: lets the verdict of a rule's condition be whatever the machine makes of it; which verdicts a particular condition can have is not analysed.
- Witnesses.ReloadCanFault: takes no record to hash to the hash before it; otherwise the second event would be refused and dropped.
- PollingRuns.SnapshotFollowsProbes: assumes that probes report all named processes and services and only required ports, as the probe functions do.
- Audit.ChainUnique: takes texts as shorter than two to the power 64 bytes, the length its prefix can hold.
- Keys.KeyTablesAgree: the code numbers are the table itself; only that both tables know the same names is proved.
- Path texts that are not valid Unicode.
- Bounds of durations, timestamps, identifiers and counters; all are unbounded integers.
- Command spawning, time limits, output limits, vault adapters, keyring reads, evidence files, desktop notifications: an execution is an arbitrary answer.
- Probe bodies, the inotify watcher, the input device: their results are arbitrary inputs.
- SQLite itself (a transaction either happens or does not), file permissions, JSON and TOML parsing, the content of BLAKE3 and SHA-256, identifier generation, time zones.
- The socket server, the command line, daemon start-up, and the requests that only read: status, rules, audit listing, simulation.
- Overlap of old and new sensors while a reload replaces them.
