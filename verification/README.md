# A model of the ENDAP firmware's runtime, and proofs about it

ENDAP is automation firmware for small networked controllers. This project models the parts of it that
are state machines and data structures, and proves what they keep over whole runs:

- **Automation** (`AutomationRules`, `RuleTimers`, `Automation`, `AutomationRuns`, `AutomationOutcomes`,
  `AutomationEngine`): the rule table and its conflict discipline, seven rule modes, timers on a wrapping
  millisecond counter, interlocks, the event handler, the tick, the remote command queue and the persisted
  table; with the fail-safe gate (`FailSafe`), the state store (`StateStore`) and the event bus (`EventBus`) they act on.
- **Node registry** (`NodeRegistry`, `RegistryOutcomes`): ten slots, the admission they record, and their copy in flash.
- **Resource catalog** (`Catalog`, `Persistence`, `CatalogText`, `CatalogApi`, `ResourceEvents`): the sorted
  record array, its dirty-bit journal under base-36 keys, the cursor-paged listing, and the drop-oldest event ring.
- **Cluster** (`ClusterManager`, `ClusterIo`, `ClusterFailover`): membership by heartbeat age, the master,
  takeover and return of I/O, and several nodes each with its own view; and the transport failover
  machine (`Network`).

Where the firmware changes state in place, a class changes the same fields in the same order: arrays,
ring indices, counters, loops. Each of its methods is proved against a function on values (`View()` before
and after), and the results about runs are lemmas on those functions. Every critical section, API call and
handled event is one atomic step. Clocks are parameters: a 32-bit reading, taken once per call, of a true
time that is unbounded. A write to flash succeeds or leaves the old content, as a parameter says. The sizes
are those of the headers: 16 rules, 16 fail-safe outputs, 64 bus events, 256 state ids, 10 nodes, 256 I/O
entries, 1024 resources, 256 resource events.

How the main results are built:

- A rule's runtime with its wrapping deadline refines a clock-free countdown (`EvalRefines`, `TickRefines`,
  `TripRefines`), and that countdown is characterised by the rule's history of evaluations, trips and ticks
  (`ExpiresExactly`, `OnDelayFilters`, `OffDelayFilters`, `PulseEndsExactly`, `NoPulseLeftOn`). Every step of
  the engine keeps the two together (`ApplyInv`), through table edits that shift the arrays, so the results
  hold in every reachable state (`TimersExact`, `NextTickIsExact`, `DelaysFilter`, `PulsesEnd`). Beside each rule
  a log records what it observed and each action handed to the dispatcher on its behalf, and the invariant says
  that it did exactly what its history calls for; nothing the engine does depends on the log. What a history
  calls for is told mode by mode (`EvaluationEmits`), and so is the value that an event, a tick or a new rule
  leaves on an output (`EventSets`, `RuleSets`, `ForcePairSets`,
  `DelayedOutputSwitches`, `AddedRuleActs`).
- The registry's answers are read off by `Answer`, independent of which slot holds what; every operation is
  proved to have its outcome on the answers and on what a reboot would answer (`StepOutcome`), so over every run
  a reboot answers what the registry answered after the last write that succeeded (`RebootAnswers`), which is
  what it answers now unless replacements failed since (`RebootTransparent`). The rule table is treated alike
  (`StepStores`, `RebootRestoresTable`).
- The catalog array refines a finite map (`RunRefines`), is determined by its members (`Canonical`), and so
  survives a flush and a restore in any order (`FlushThenRestore`). A page sent to a client reads back as its
  records, for a reader that knows the labels only (`LineReadsBack`, `PageReadsBack`).
- The transport machine is told in true time: where each state goes and when (`ProcessMoves`), that a failover is
  due and spaced (`FailoverIsDue`, `FailoversSpaced`), and that recovery is due (`RecoveryIsDue`).
- The events a node publishes determine its table (`EventsTellStates`), its own entry stays ONLINE
  (`SelfStaysOnline`), hence what it takes over and gives back (`OwnershipFollowsEvents`,
  `OnlineOwnersHaveTheirIo`). Of two nodes with distinct ids that see each other at most one believes itself
  master (`AtMostOneMaster`), and of two takeovers anywhere in a run, by nodes with distinct ids, one at least
  was made by a node that did not see the other, or was not seen by it (`AtMostOneTakesOver`).

Findings about the code, each stated as a lemma:

- A `node_registry_replace` whose save fails clears the old id before its rollback looks for it, so the
  rollback does nothing. The table and the flash, if they agreed, then still agree exactly when neither node had
  been admitted (`ReplaceStep`); `FailedReplaceShows` gives an input where they do not. The next write or reboot
  mends this (`StepOutcome`), and so may a second failed replacement (`FailedReplacesCancel`).
- An edit of the rule table stands in RAM when its save fails, so a reboot takes it back
  (`UnsavedRuleIsLost`, `FirstRuleIsLost`).
- An update received for an unknown I/O enters that I/O as the node's own and is then refused as a conflict,
  so updates never bring another node's I/O into a table (`UpdateOutcome`, `UpdatesNeverBringRemoteIo`).
- Two nodes that were given one id, be it 0 or not, see each other ONLINE and both believe themselves master
  (`SharedIdMakesTwoMasters`), so the results on a single master and a single takeover need distinct ids. They do
  not need nonzero ones.
- A true evaluation that an interlock blocks still consumes the rising edge of a pulse, a toggle or a force, and
  does not stop an OFF_DELAY timer (`BlockedEvaluation`); the timer results say so by naming the last *permitted*
  evaluation.

## Model

| member | source | states |
|---|---|---|
| AutomationRules.AcceptedIffDisciplined | components/runtime/automation/automation_engine.c:1157-1222 | a candidate rule is accepted exactly when the table with it is still within capacity, valid, conflict-free and without duplicates |
| AutomationRules.SharedOutputIsForcePair | components/runtime/automation/automation_engine.c:262-283 | two rules of a disciplined table on one output are one FORCE_ON and one FORCE_OFF |
| AutomationRules.AtMostTwoRulesPerOutput | components/runtime/automation/automation_engine.c:268-283 | no output has three rules |
| AutomationRules.EditsKeepDiscipline | components/runtime/automation/automation_engine.c:1157-1336 | every table built by additions, removals and clears is disciplined |
| RuleTimers.EvalRefines | components/runtime/automation/automation_engine.c:1020-1089 | one evaluation of any mode keeps the timer invariant and is one step of the clock-free countdown; what it asks of the output is in `EvaluationEmits` |
| RuleTimers.TickRefines | components/runtime/automation/automation_engine.c:1343-1394 | one tick of the wrapping counter keeps the invariant and is one step, with the same action, of the countdown |
| RuleTimers.TripRefines | components/runtime/automation/automation_engine.c:1111-1150 | an interlock trip is one step of the countdown |
| RuleTimers.ArmedCountsDown | components/runtime/automation/automation_engine.c:415-423 | an undisturbed timer has as many ticks left as its duration less the ticks since it was armed |
| RuleTimers.RunningWasArmed | components/runtime/automation/automation_engine.c:1042-1089 | every running timer was armed by some observation that nothing has disturbed since |
| RuleTimers.ExpiresExactly | components/runtime/automation/automation_engine.c:1343-1384 | a timer expires at a tick if and only if it was armed exactly its duration of ticks earlier and neither re-armed nor cancelled since |
| RuleTimers.OnDelayFilters | components/runtime/automation/automation_engine.c:1061-1075 | ON_DELAY drives its true branch if and only if a permitted true evaluation lies exactly the duration back, undisturbed, with no false evaluation since |
| RuleTimers.OffDelayFilters | components/runtime/automation/automation_engine.c:1077-1089 | at a tick OFF_DELAY drives its false branch if and only if a false evaluation lies exactly the duration back, undisturbed, with no true evaluation since, permitted or not |
| RuleTimers.PulseEndsExactly | components/runtime/automation/automation_engine.c:1358-1368 | a pulse ends at a tick if and only if it was started exactly the duration back and neither restarted nor tripped |
| RuleTimers.NoPulseLeftOn | components/runtime/automation/automation_engine.c:1051-1059 | once the duration has passed since a pulse last started, its false branch has been driven after that start and within the duration, by the timer or by a trip |
| RuleTimers.UntimedNeverRuns | components/runtime/automation/automation_engine.c:1020-1050 | modes without a duration never run a timer and ask nothing at a tick |
| RuleTimers.BlockedEvaluation | components/runtime/automation/automation_engine.c:1020-1050 | a blocked true evaluation asks nothing of the output and leaves the timer alone, and a permitted true one right after it starts no pulse, toggle or force |
| RuleTimers.EvaluationEmits | components/runtime/automation/automation_engine.c:1020-1106 | over every history, what an evaluation asks of the output: nothing if blocked; FOLLOW the branch of the condition, ON_DELAY the false branch, OFF_DELAY the true branch on a true condition; PULSE its true branch, TOGGLE a toggle and the forces their value exactly on a permitted true evaluation after a false one |
| RuleTimers.TripEmits | components/runtime/automation/automation_engine.c:1138-1147 | over every history a trip asks for the false branch, in every mode |
| RuleTimers.TicksEmit | components/runtime/automation/automation_engine.c:1343-1394 | at a tick ON_DELAY can ask only for its true branch, OFF_DELAY and PULSE only for their false one |
| RuleTimers.LatchedIsLastBranch | components/runtime/automation/automation_engine.c:1048-1081 | the latched flag is the branch that a FOLLOW or delay rule asked for last, and no other mode sets it |
| RuleTimers.DoingsAreEmitted | components/runtime/automation/automation_engine.c:999-1151 | the doings a history calls for are exactly the actions emitted at its observations |
| Automation.PersistedTableLoads | components/runtime/automation/automation_engine.c:697-802 | the loader accepts the blob of every disciplined table and restores its rules and interlocks unchanged |
| AutomationRuns.TriggerStep | components/runtime/automation/automation_engine.c:999-1110 | handling an event for one rule keeps its runtime in step with its log, records the observation and the action dispatched, which is the one its history calls for, releases no latch, changes no latched output, and touches no other rule |
| AutomationRuns.GuardStep | components/runtime/automation/automation_engine.c:1111-1150 | so does the interlock guard, which when it trips dispatches the false branch and else does nothing |
| AutomationRuns.HandleEventStep | components/runtime/automation/automation_engine.c:999-1151 | so does the handler over the whole table |
| AutomationRuns.DispatchStep | components/runtime/event_bus/event_bus.c:92-135 | dispatching a budget of events keeps all of that; at most the budget is delivered, in the order accepted, even though handlers publish |
| AutomationRuns.TickStep | components/runtime/automation/automation_engine.c:1343-1394 | a tick keeps all of that, and each rule does what its history asks for |
| AutomationRuns.ApplyInv | components/runtime/automation/automation_engine.c:999-1394 | every operation of engine, plant and flash, reboots included, keeps the invariant |
| AutomationRuns.LatchStep | components/runtime/failsafe/failsafe.c:726-757 | of all operations exactly a re-arm and an accepted disabled or automatic policy release a latched output, and only another trigger for all outputs or a direct write can change its value |
| AutomationRuns.LatchHolds | components/runtime/automation/automation_engine.c:476-513 | a latched output keeps its latch and its value through every run without such an operation |
| AutomationRuns.SafeValueStays | components/runtime/failsafe/failsafe.c:789-814 | where the policy sends an enabled manual-recovery output for the reason of a trigger, by its action for a boot, a lost peer or a fault, it still is after every such run |
| AutomationRuns.TimersExact | components/runtime/automation/automation_engine.c:415-423 | in every reachable state an active deadline is 1 to the duration ticks ahead modulo 2^32, and ticks gone and ticks left since the undisturbed arming add up to the duration |
| AutomationRuns.NextTickIsExact | components/runtime/automation/automation_engine.c:1343-1384 | in every reachable state the next tick drives a timed branch exactly when the history says it is due |
| AutomationRuns.PulsesAreTimed | components/runtime/automation/automation_engine.c:1051-1059 | in every reachable state a pulse is active exactly while its timer is |
| AutomationRuns.PulsesEnd | components/runtime/automation/automation_engine.c:1358-1368 | in every reachable state, once the duration has passed since a pulse last started, the rule has dispatched its false branch after that start and within the duration |
| AutomationRuns.TripsSwitchOff | components/runtime/automation/automation_engine.c:1138-1147 | in every reachable state every trip of an interlock dispatched the false branch there and then |
| AutomationRuns.TripDrives | components/runtime/automation/automation_engine.c:1138-1147 | at the turn of a rule whose interlock trips, a local output that may be driven reads its false value |
| AutomationRuns.GuardSwitchesOff | components/runtime/automation/automation_engine.c:1111-1150 | after the whole handler, the output of a rule whose permission was gone at its turn reads 0 if it was off then and else its false value, if no other rule drives it |
| AutomationRuns.InterlockSwitchesOff | components/runtime/automation/automation_engine.c:999-1151 | from every sound state, after an event on a watched channel that finds the permission gone, where no rule drives those channels, the local unlatched output that the rule alone drives is off or at its false value |
| AutomationRuns.DelaysFilter | components/runtime/automation/automation_engine.c:1343-1384 | in every reachable state ON_DELAY dispatched its true branch, and OFF_DELAY or a pulse its false branch at a tick, only at the tick exactly the duration after an arming that nothing disturbed, with no evaluation to the contrary since |
| AutomationRuns.StepStores | components/runtime/automation/automation_engine.c:697-732 | what a reboot would load changes only by an edit whose save succeeds; if it was the table in use, it still is after an edit if and only if that was saved or changed nothing |
| AutomationRuns.RebootRestoresTable | components/runtime/automation/automation_engine.c:697-802 | a reboot after any run, saves failing at will, restores the table of the last saved edit, or else the one stored before the run; so it loses nothing exactly when that is the table in use |
| AutomationRuns.SavedRunLosesNothing | components/runtime/automation/automation_engine.c:697-802 | a reboot loses nothing if the last edit was saved or a reboot undid it, whatever failed before |
| AutomationRuns.UnsavedRuleIsLost | components/runtime/automation/automation_engine.c:697-732 | a rule accepted while its save failed is in the table, and gone after a reboot |
| AutomationRuns.FirstRuleIsLost | components/runtime/automation/automation_engine.c:1157-1222 | an input where a reboot loses a rule |
| AutomationOutcomes.EventSets | components/runtime/automation/automation_engine.c:999-1151 | after a state change the local unlatched output that one rule alone drives reads what the rule's history and this evaluation ask, and then its false value exactly if it was on and the permission gone |
| AutomationOutcomes.RuleSets | components/runtime/automation/automation_engine.c:1020-1110 | without an interlock, for each of the seven modes and six comparisons the exact value of that output after an event on the rule's input: FOLLOW the value for the comparison, ON_DELAY the false value, OFF_DELAY the true value on a true comparison, and the other modes theirs exactly on a rising edge |
| AutomationOutcomes.ForcePairSets | components/runtime/automation/automation_engine.c:1095-1106 | after a state change the output that two opposite forces share, neither with an interlock, reads what the later of those forces says whose condition rose, and else as before |
| AutomationOutcomes.TriggerSends | components/runtime/automation/automation_engine.c:476-575 | the turn of a rule whose output another node owns sends that node exactly the value its history asks for, if it can be sent, and touches no output here |
| AutomationOutcomes.TickSets | components/runtime/automation/automation_engine.c:1343-1394 | after a tick that output reads what the rule's history asks at it |
| AutomationOutcomes.DelayedOutputSwitches | components/runtime/automation/automation_engine.c:1358-1384 | in every reachable state that output switches at the tick exactly the duration after an undisturbed arming, ON_DELAY to its true value and OFF_DELAY and PULSE to their false one, and at no other tick and in no other mode |
| AutomationOutcomes.DispatchesAdd | components/runtime/event_bus/event_bus.c:92-135 | dispatching one budget and then another is dispatching their sum |
| AutomationOutcomes.DispatchActs | components/runtime/event_bus/event_bus.c:92-135 | dispatching takes the oldest event off the bus and hands it to the rules: a FOLLOW rule on its source drives its output by the comparison |
| AutomationOutcomes.EvaluationShows | components/runtime/automation/automation_engine.c:448-474 | the diagnostics after an evaluation: its time, its condition, and if the interlock blocked it that and the value withheld |
| AutomationOutcomes.CommandGoes | components/runtime/automation/automation_engine.c:476-575 | a local command goes to the output unless the guard refuses it; another goes to the queue, addressed to the owner, exactly if this node has an id, the owner is known and not offline and there is room; the diagnostics say which |
| AutomationOutcomes.RemoteCommandOutcome | components/runtime/automation/automation_engine.c:618-691 | exactly if a remote command is addressed to this node's nonzero id, comes from nobody, itself or a known node, and is for an output of the profile that may be driven, that output takes its value and nothing else changes; otherwise nothing changes |
| AutomationOutcomes.ComparisonsMean | components/runtime/automation/automation_engine.c:365-377 | the six comparisons, each as a combination of greater and equal |
| AutomationOutcomes.PermissionMeans | components/runtime/automation/automation_engine.c:379-413 | an interlock permits exactly if it is not in use, some condition holds and it is an OR, or all its conditions hold and it is not |
| AutomationOutcomes.AcceptedMeans | components/runtime/automation/automation_engine.c:1157-1222 | exactly which requests are accepted, in the ranges, the profile, the duration, the room and the one other rule an output may have |
| AutomationOutcomes.RefusalMeans | components/runtime/automation/automation_engine.c:1157-1222 | exactly which reason a refused request is given |
| AutomationOutcomes.AddAppends | components/runtime/automation/automation_engine.c:1157-1222 | an accepted rule stands at the end of the table without an interlock, with its ids narrowed; any other request changes nothing |
| AutomationOutcomes.AddedRuleActs | components/runtime/automation/automation_engine.c:1157-1222 | an accepted rule at once takes the output it alone drives where the present value of its input sends it, mode by mode |
| AutomationOutcomes.RemovalShifts | components/runtime/automation/automation_engine.c:1301-1326 | a removal takes out one rule, and every later one keeps its interlock, timer, diagnostics and history one place earlier |
| AutomationOutcomes.LockReplaces | components/runtime/automation/automation_engine.c:1224-1236 | an interlock replaces that of its rule and touches nothing else |
| AutomationOutcomes.ClearEmpties | components/runtime/automation/automation_engine.c:1328-1336 | a clear empties table and interlocks and leaves outputs and queue alone |
| AutomationOutcomes.BootStartsAtRest | components/runtime/automation/automation_engine.c:734-802 | a boot takes the table in flash exactly if header, checksum, rules and conflicts allow, and starts every rule at rest |
| AutomationEngine.Engine.constructor | components/runtime/automation/automation_engine.c:1400-1430 | the engine starts as the boot function says from what the flash holds |
| AutomationEngine.Engine.HandleStateEvent | components/runtime/automation/automation_engine.c:999-1151 | the two passes over the arrays leave the state the handler function gives, whose effect on an output is `EventSets` and `RuleSets` |
| AutomationEngine.Engine.EvalRule | components/runtime/automation/automation_engine.c:1020-1110 | one rule's branch of the handler in place; what it asks of the output is `EvaluationEmits`, what it does to it `RuleSets` |
| AutomationEngine.Engine.GuardOutput | components/runtime/automation/automation_engine.c:1111-1150 | one rule's interlock guard, in place |
| AutomationEngine.Engine.DispatchOutput | components/runtime/automation/automation_engine.c:476-575 | who owns the output, whether the guard allows it, and what is written, queued and recorded, as in `CommandGoes` |
| AutomationEngine.Engine.DispatchBudgeted | components/runtime/event_bus/event_bus.c:92-135 | the dispatch loop delivers as the function says, and the count it returns is the number of events delivered |
| AutomationEngine.Engine.Tick1ms | components/runtime/automation/automation_engine.c:1343-1394 | the tick loop leaves the state the tick function gives |
| AutomationEngine.Engine.HandleOutputCommand | components/runtime/automation/automation_engine.c:618-691 | a remote command in place, with the outcome of `RemoteCommandOutcome` |
| AutomationEngine.Engine.AddRule | components/runtime/automation/automation_engine.c:1157-1222 | the search, the appended entry, the save and the evaluation on the present input, with the verdict |
| AutomationEngine.Engine.SetInterlockAt | components/runtime/automation/automation_engine.c:1224-1236 | an interlock replaced in place and saved |
| AutomationEngine.Engine.RemoveNodeAt | components/runtime/automation/automation_engine.c:1301-1326 | the four parallel arrays shift together: every rule keeps its own runtime, interlock and record |
| AutomationEngine.Engine.Clear | components/runtime/automation/automation_engine.c:1328-1336 | an empty table, saved |
| FailSafe.CommandRespectsLatch | components/runtime/failsafe/failsafe.c:726-757 | a command to any output leaves every latched output's latch and value alone |
| FailSafe.CommandWritesBinary | components/runtime/failsafe/failsafe.c:726-757 | a command is refused exactly for an output without an entry, or whose entry is enabled, active and of manual recovery; otherwise it sets the output to 0 or 1, records that, and touches no other output or entry |
| FailSafe.ApplyAllSettles | components/runtime/failsafe/failsafe.c:789-814 | a trigger for all outputs sends each enabled one where its policy's action for the reason says, latches exactly the manual ones, records value and reason, and changes no other value, even if two entries name one output |
| FailSafe.SafeTargetMeaning | components/runtime/failsafe/failsafe.c:103-151 | a trigger's value is the one that the policy gives: its boot action for a boot, its communication action for a lost, offline, revoked or unauthorized node, its fault action for the other four reasons; each forced, held at the present value, or the safe value |
| FailSafe.ApplyOneSettles | components/runtime/failsafe/failsafe.c:759-787 | a trigger for one output records where its policy sends it and why, and latches it exactly if its recovery is manual |
| FailSafe.DefaultsSwitchOff | components/runtime/failsafe/failsafe.c:169-185 | an output with the default policy is sent to 0 by every trigger, and never latched |
| FailSafe.PolicyInForce | components/runtime/failsafe/failsafe.c:598-637 | an accepted policy is in force with its safe value reduced to 0 or 1; disabling releases the output, and nothing else of any entry changes |
| FailSafe.RearmReleases | components/runtime/failsafe/failsafe.c:816-853 | re-arming clears latch and reason of that output alone, and no value |
| FailSafe.FailSafeTable.GuardCommand | components/runtime/failsafe/failsafe.c:726-757 | the guard in place |
| FailSafe.FailSafeTable.ApplyForReason | components/runtime/failsafe/failsafe.c:759-787 | one trigger in place, with the value it returns, as in `ApplyOneSettles` |
| FailSafe.FailSafeTable.ApplyForReasonAll | components/runtime/failsafe/failsafe.c:789-814 | the loop over all entries, with the writes it makes to the state store, as in `ApplyAllSettles`; it returns the number of entries the trigger applies to |
| FailSafe.FailSafeTable.Rearm | components/runtime/failsafe/failsafe.c:816-853 | re-arming in place |
| FailSafe.FailSafeTable.SetOutputPolicy | components/runtime/failsafe/failsafe.c:598-637 | a policy change in place, which stands in RAM whether or not it is saved; true exactly when the output and policy are valid and the policy is unchanged or saved |
| StateStore.WriteReadBack | components/data/state/state.c:80-120 | a read after a write returns what was written, and every other id reads as before |
| StateStore.ChangesAreFlagged | components/data/state/state.c:80-107 | a write changes and flags its own id only, and a change is offered to the bus; one that changes no value does nothing |
| StateStore.StateTable.SetInt | components/data/state/state.c:80-107 | the write in place, publishing on change |
| StateStore.StateTable.GetInt | components/data/state/state.c:113-120 | the value, or a refusal for an id out of range |
| EventBus.PublishKeepsOrder | components/runtime/event_bus/event_bus.c:50-67 | accepted events stay the delivered then the pending ones in order, and a new event is accepted behind them exactly when fewer than 63 are pending, and else dropped |
| EventBus.EventQueue.Publish | components/runtime/event_bus/event_bus.c:50-67 | the ring buffer refines the bounded queue |
| EventBus.EventQueue.Take | components/runtime/event_bus/event_bus.c:92-135 | taking the oldest pending event from the ring |
| NodeRegistry.BlobAnswers | components/cluster/node_registry.c:293-319 | the blob answers for every node exactly as the table it was built from |
| NodeRegistry.BootAnswers | components/cluster/node_registry.c:450-475 | a boot answers for every node exactly as the blob, whichever layout it had, and repeats no id |
| NodeRegistry.SaveIsFaithful | components/cluster/node_registry.c:293-350 | after a save a reboot would answer as the table does |
| NodeRegistry.SyncKeeps | components/cluster/node_registry.c:477-572 | synchronizing with the cluster changes no answer and repeats no id |
| NodeRegistry.SyncShows | components/cluster/node_registry.c:477-572 | after a due synchronization every slot of another node shows what the cluster last reported of it, or OFFLINE if unreported, with the reason, and the slot of the node itself shows ONLINE |
| NodeRegistry.SyncLists | components/cluster/node_registry.c:517-540 | after a due synchronization every reported node has a slot unless none is free, and no slot has lost its node |
| NodeRegistry.EditStep | components/cluster/node_registry.c:691-883 | adopt, configure, activate and revoke change one node's answer exactly when attempted and saved, whereupon a reboot answers as the table does, and otherwise change no answer and no flash |
| NodeRegistry.ReplaceStep | components/cluster/node_registry.c:885-938 | the outcome of a replacement; if a reboot would have answered the same before, it would after if and only if it was saved, or not possible, or neither node was admitted |
| NodeRegistry.StepOutcome | components/cluster/node_registry.c:450-938 | every operation has its stated outcome on every node's answer; a write or a reboot brings table and flash into agreement whatever was before, and agreement is lost exactly by a harmful failed replacement |
| NodeRegistry.RebootAnswers | components/cluster/node_registry.c:450-475 | over every run from power-up with writes failing at will, no id repeats and a reboot answers for every node as the registry did after the last successful write or reboot; so a reboot changes nothing if and only if the replacements that failed since cancel out |
| NodeRegistry.RebootTransparent | components/cluster/node_registry.c:188-218 | over every such run a reboot gives the same state, profile and template for every node if every replacement that failed since the last successful write or reboot was harmless, and does not if a harmful one did and none failed after it |
| NodeRegistry.FailedReplacesCancel | components/cluster/node_registry.c:918-935 | a node replaced and replacing its successor, both saves failing: the first is harmful, and yet at the end a reboot changes nothing |
| NodeRegistry.RebootSparesOthers | components/cluster/node_registry.c:450-475 | over every run from power-up a reboot leaves alone the answer of every node that was no party to a replacement which failed since the last successful write or reboot |
| NodeRegistry.RankStep | components/cluster/node_registry.c:691-883 | from any well-formed state no operation but a reboot lowers a rank, except a saved revoke of the node or a replacement to which it is a party |
| NodeRegistry.RankFallsOnlyByRevoke | components/cluster/node_registry.c:691-883 | in every run from power-up with writes failing at will, a node's rank falls only by a saved revoke, as a party to a replacement, or at a reboot that takes back a failed replacement to which it was a party since the last write or reboot |
| NodeRegistry.FailedReplaceShows | components/cluster/node_registry.c:918-935 | an adopted node whose replacement fails to save: the newcomer is adopted until the next reboot |
| RegistryOutcomes.EditIsMade | components/cluster/node_registry.c:691-883 | exactly when each edit is made: by the node's place in the table, the cluster's report and a free slot, its rank, and the profile and template given |
| RegistryOutcomes.SeedShows | components/cluster/node_registry.c:233-291 | a node entered in the table for an edit shows what the cluster reports of it, with the reason, and no other slot is touched |
| RegistryOutcomes.EditMeans | components/cluster/node_registry.c:691-883 | the state and texts that each edit leaves, and that it leaves every other node alone |
| RegistryOutcomes.OnboardingActivates | components/cluster/node_registry.c:691-844 | adopting, configuring and activating a reachable node with saves that succeed leaves it ACTIVE with its profile and template, and so after a reboot |
| RegistryOutcomes.ReplacementMeans | components/cluster/node_registry.c:885-938 | exactly when a replacement is made; the new node then has the old one's admission and the old one none, saved or not |
| RegistryOutcomes.NoteShows | components/cluster/node_registry.c:610-647 | address and transport as noted in the node's own slot or a new one, with the reason; no other slot is touched |
| RegistryOutcomes.SyncIsDue | components/cluster/node_registry.c:477-490 | below one clock wrap a synchronization happens exactly a second or more after the last, and never changes the flash |
| RegistryOutcomes.BlobHolds | components/cluster/node_registry.c:293-319 | the blob holds exactly the nodes with a rank, a profile or a template, with what is shown of them reset |
| RegistryOutcomes.BootShows | components/cluster/node_registry.c:450-475 | a boot shows every node of the flash in its slot, offline and not yet seen, with the reason |
| RegistryOutcomes.LegacyBoots | components/cluster/node_registry.c:391-446 | a blob of the first layout boots to the states it holds, with texts cut to 23 characters |
| NodeRegistry.Table.Init | components/cluster/node_registry.c:450-475 | wiping, loading and resetting the slots leaves the booted registry, for any flash content |
| NodeRegistry.Table.LoadBlob | components/cluster/node_registry.c:352-448 | the current layout as it is, the first layout migrated, and nothing for too many entries |
| NodeRegistry.Table.Process | components/cluster/node_registry.c:477-572 | at most once a second, the loops over slots and peers |
| NodeRegistry.Table.NoteTransport | components/cluster/node_registry.c:610-647 | a transport noted in the node's slot or a free one, refused only when there is neither |
| NodeRegistry.Table.GetState | components/cluster/node_registry.c:649-664 | the state answered for any id, known or not |
| NodeRegistry.Table.Adopt | components/cluster/node_registry.c:691-737 | edit, save and rollback in place, true exactly when saved |
| NodeRegistry.Table.Configure | components/cluster/node_registry.c:739-799 | the same, refused for an unknown profile or a malformed template |
| NodeRegistry.Table.Activate | components/cluster/node_registry.c:801-844 | the same, refused below ADOPTED |
| NodeRegistry.Table.Revoke | components/cluster/node_registry.c:847-883 | the same, for known nodes only |
| NodeRegistry.Table.Replace | components/cluster/node_registry.c:885-938 | the replacement in place, with the rollback that finds nothing |
| NodeRegistry.CheckTemplate | components/cluster/node_registry.c:157-170 | true exactly when every character is a letter, a digit or one of three marks |
| Catalog.EditRefines | components/v3/v3_catalog.c:33-85 | each edit of the sorted array is the same edit of a finite map; an insertion is refused exactly for a new id when full |
| Catalog.RunRefines | components/v3/v3_catalog.c:9-97 | over every run the array stays strictly sorted and within capacity and equals the map |
| Catalog.HoldsMeans | components/v3/v3_catalog.c:9-19 | the search finds an id exactly when some record has it |
| Catalog.Canonical | components/v3/v3_catalog.c:21-31 | two sorted arrays with the same map are the same array |
| Catalog.RecordPool.FindIndex | components/v3/v3_catalog.c:9-19 | binary search returns the record's position, or -1 exactly when there is none |
| Catalog.RecordPool.FindInsertionIndex | components/v3/v3_catalog.c:21-31 | binary search returns the number of smaller ids |
| Catalog.RecordPool.Insert | components/v3/v3_catalog.c:33-50 | the in-place shift inserts or overwrites, refused as the map refuses |
| Catalog.RecordPool.RemoveRecord | components/v3/v3_catalog.c:76-85 | the in-place shift removes exactly that record |
| Catalog.RecordPool.UpdateDesired | components/v3/v3_catalog.c:62-67 | the desired value of a held record, in place |
| Catalog.RecordPool.UpdateReported | components/v3/v3_catalog.c:69-74 | the reported value of a held record, in place |
| Catalog.RecordPool.Snapshot | components/v3/v3_catalog.c:91-97 | copies the first records, as many as fit |
| Persistence.KeyRoundTrip | components/v3/v3_persistence.c:15-30 | decoding an id's base-36 key returns the id |
| Persistence.KeysDistinct | components/v3/v3_persistence.c:15-30 | distinct ids have distinct keys |
| Persistence.IdKeyLength | components/v3/v3_persistence.c:15-30 | every 64-bit id has a key of 1 to 13 digits |
| Persistence.NoLeadingZero | components/v3/v3_persistence.c:15-30 | a key has no leading zero, except that of id 0 |
| Persistence.GetKey | components/v3/v3_persistence.c:15-30 | the digit loop that fills its buffer backwards yields the key, untruncated |
| Persistence.RestoreCollects | components/v3/v3_persistence.c:72-98 | restoring in any order collects exactly the stored records that can be read into a sorted array |
| Persistence.FlushThenRestore | components/v3/v3_persistence.c:37-98 | flushing a whole catalog into empty flash and restoring it in any order rebuilds the same array |
| Persistence.LowestBit | components/v3/v3_persistence.c:37-70 | the scan returns the lowest set bit of a nonzero word |
| Persistence.Journal.MarkDirty | components/v3/v3_persistence.c:32-35 | exactly that position becomes marked |
| Persistence.Journal.FlushDirtyRecords | components/v3/v3_persistence.c:37-70 | the loop ends with no mark left and every writable marked record under its key, and returns how many it wrote |
| Persistence.Journal.RestoreCatalog | components/v3/v3_persistence.c:72-98 | the catalog after inserting each readable blob in iteration order |
| CatalogText.LineFits | components/v3/v3_api.c:32-45 | every record's line is at most 112 characters, with one newline, at its end |
| CatalogText.DecimalRoundTrip | components/v3/v3_api.c:39-43 | numbers are written in digits that stand for them, without a leading zero |
| CatalogText.LineReadsBack | components/v3/v3_api.c:39-43 | in the line of any record the number after each of the labels id, k, s, t, d and r is its id, key, status, last tick, desired and reported value, for a reader that searches for the labels |
| CatalogText.PageReadsBack | components/v3/v3_api.c:32-59 | a page splits at its newlines into one line per record, in order, each reading back as that record |
| CatalogText.SameTextSameListing | components/v3/v3_api.c:32-59 | two pages with one text list the same records |
| CatalogApi.StreamCatalog | components/v3/v3_api.c:6-61 | the chunks given to the sink join to the page's lines in order and read back as its records; each is non-empty, ends at a line end and fits the buffer; the last id is returned |
| CatalogApi.PageIsNext | components/v3/v3_api.c:6-61 | a page holds, in increasing order, the records next above the cursor with none left out |
| CatalogApi.PageIsFull | components/v3/v3_api.c:28-59 | a page holds as many records as the limit, or all above the cursor |
| CatalogApi.PageRestarts | components/v3/v3_api.c:11-28 | a cursor whose record is gone starts over from the first record |
| CatalogApi.WalkIsComplete | components/v3/v3_api.c:6-61 | across pages, whatever changes in between while the cursor's record survives, ids increase strictly and no id that was there throughout is skipped |
| CatalogApi.WalkEndsComplete | components/v3/v3_api.c:6-61 | when a page comes back empty, every id that was there throughout has been received |
| ResourceEvents.RunConserves | components/v3/v3_events.c:15-56 | over every run each event posted is polled, dropped or held, once and in order; the polls return exactly those not dropped, the most recent are held, and an event is dropped only after 256 later ones were posted |
| ResourceEvents.UnpolledHoldsLast | components/v3/v3_events.c:15-38 | a queue never polled holds the last 256 events posted, or all of them |
| ResourceEvents.EventRing.Post | components/v3/v3_events.c:15-38 | the ring drops its oldest event exactly when full, and counts it modulo 2^32 |
| ResourceEvents.EventRing.Poll | components/v3/v3_events.c:40-56 | the oldest events, in order, as many as fit |
| ClusterManager.MasterIsLowest | components/cluster/cluster_manager.c:116-136 | the master is an ONLINE node with a nonzero id no higher than any other's, or 0 exactly when there is none |
| ClusterManager.MasterIsUnique | components/cluster/cluster_manager.c:116-136 | and nothing else answers that description |
| ClusterManager.NoticesTell | components/cluster/cluster_manager.c:138-183 | after a round of aging the last event about a node tells its new state if that changed |
| ClusterManager.HeardInv | components/cluster/cluster_manager.c:247-303 | a heartbeat, from a known node, a new one or id 0, keeps events and table in agreement |
| ClusterManager.EventsTellStates | components/cluster/cluster_manager.c:138-303 | in every run no id repeats, and every other node in the table is ONLINE, SUSPECT or OFFLINE exactly if the last state event published about it says so |
| ClusterManager.SelfStaysOnline | components/cluster/cluster_manager.c:305-350 | in every run a started node with a nonzero id is ONLINE in its own table, and its master is no higher than itself |
| ClusterManager.DiscoveryIsNews | components/cluster/cluster_manager.c:258-299 | in every run exactly what a heartbeat publishes: ONLINE and DISCOVERED for a new sender that finds room, ONLINE for another node that was not online, and otherwise nothing |
| ClusterManager.SilenceIsSeen | components/cluster/cluster_manager.c:41-50 | below one clock wrap a due round puts a node OFFLINE if silent for over six seconds, SUSPECT if for over three, and else ONLINE, and touches nothing else of it |
| ClusterManager.SilenceDecides | components/cluster/cluster_manager.c:138-303 | in every run, whatever happens between a node's heartbeat that found room and its next one, a due round finds it in the state that its true silence calls for |
| ClusterManager.RoundIsDue | components/cluster/cluster_manager.c:352-381 | below one clock wrap a round happens exactly a second or more after the last |
| ClusterManager.HeartbeatRefreshes | components/cluster/cluster_manager.c:247-303 | a heartbeat that finds room leaves its sender ONLINE and seen now, and every other entry alone |
| ClusterManager.RemovalForgets | components/cluster/cluster_manager.c:305-323 | a removal forgets that node and no other, silently, and never the node itself |
| ClusterManager.StartEntersSelf | components/cluster/cluster_manager.c:325-350 | the first start leaves the node alone in its table, ONLINE and seen now; another changes nothing |
| ClusterManager.Manager.Refresh | components/cluster/cluster_manager.c:138-183 | the loop ages every node, and the event buffer never loses a transition |
| ClusterManager.Manager.Process | components/cluster/cluster_manager.c:352-381 | at most once a second, aging and publishing in order |
| ClusterManager.Manager.UpdateNode | components/cluster/cluster_manager.c:247-303 | the heartbeat in place, with the events it publishes |
| ClusterManager.Manager.RemoveNode | components/cluster/cluster_manager.c:305-323 | removes any other node, never itself |
| ClusterManager.Manager.Start | components/cluster/cluster_manager.c:325-350 | clears the table and enters the node itself, once |
| ClusterManager.Manager.GetMaster | components/cluster/cluster_manager.c:232-241 | the loop returns the lowest ONLINE nonzero id, or 0 |
| ClusterIo.SweepLooksUp | components/cluster/cluster_io.c:242-326 | taking over or giving back moves exactly the owners it should and no original owner |
| ClusterIo.TitleIsHistory | components/cluster/cluster_io.c:163-439 | over every run of registrations, updates, failures and returns the owner and original owner of an I/O in the table are the replay of that run on that I/O alone |
| ClusterIo.OwnershipIsHistory | components/cluster/cluster_io.c:242-326 | after any sequence of failures and returns, and of registrations and updates about other I/O, an I/O of another node is with this one exactly when a failure of that node was handled as master since its last return, and else with that node |
| ClusterIo.UpdateOutcome | components/cluster/cluster_io.c:371-439 | what a received update makes of a known remote, a local and an unknown I/O, and of every other |
| ClusterIo.OwnStaysOwn | components/cluster/cluster_io.c:403-413 | an I/O originally the node's own stays so over every run of registrations, updates, failures and returns |
| ClusterIo.UpdatesNeverBringRemoteIo | components/cluster/cluster_io.c:67-87 | a table that starts empty never comes to hold another node's I/O by such a run |
| ClusterIo.AnnouncesTheMoved | components/cluster/cluster_io.c:265-322 | a sweep broadcasts exactly the entries it moves: the id in 16 bits, the new owner and the original one |
| ClusterIo.SyncsTheValid | components/cluster/cluster_io.c:191-207 | a sync broadcasts exactly the entries in use: the id in 16 bits, the owner and the original one |
| ClusterIo.FailureBroadcasts | components/cluster/cluster_io.c:242-284 | the failure of a node has the master broadcast exactly the I/O it takes over, as its own, and anyone else nothing |
| ClusterIo.ReturnBroadcasts | components/cluster/cluster_io.c:290-326 | the return of a node has its whole table broadcast as it is afterwards, and nothing else |
| ClusterIo.StateSends | components/cluster/cluster_io.c:328-365 | another node is sent exactly the values, as the state store has them, of the outputs it owns; the node itself nothing |
| ClusterIo.AdmissionMeans | components/cluster/cluster_io.c:39-45 | updates count about nobody, the node itself, and a node whose first slot in the registry is ACTIVE |
| ClusterIo.RegisterOutcome | components/cluster/cluster_io.c:163-189 | registering enters an output as the node's own if known or if a slot is free, and changes no other; id 0 is none |
| ClusterIo.LocalMeans | components/cluster/cluster_io.c:445-466 | an I/O is local, and owned by the node, if the table does not know it or says so; with id 0 everything is local |
| ClusterIo.Table.AllocateLocked | components/cluster/cluster_io.c:67-87 | the slot found, or a free one entered as the node's own |
| ClusterIo.Table.HandleNodeOffline | components/cluster/cluster_io.c:242-284 | the takeover loop, skipped by every node but the master, with one broadcast per change |
| ClusterIo.Table.HandleNodeOnline | components/cluster/cluster_io.c:290-326 | the return loop, then a broadcast of the whole table |
| ClusterIo.Table.SyncStateToNode | components/cluster/cluster_io.c:328-365 | one command per I/O the returned node owns and the state store knows |
| ClusterIo.Table.HandleUpdate | components/cluster/cluster_io.c:371-439 | the update in place, with its admission and conflict checks |
| ClusterIo.Table.SetOwner | components/cluster/cluster_io.c:209-236 | an assignment in place, unless the table is full |
| ClusterIo.Table.IsLocal | components/cluster/cluster_io.c:445-456 | true for an unknown I/O, for an owned one, and for everything on a node with id 0 |
| ClusterFailover.GatewayLossSecures | components/cluster/cluster_failover.c:17-58 | the loss or silence of another node that the registry has as a gateway sends every enabled output where its policy's communication action says, and latches exactly the manual ones with the reason; that of any other node leaves the outputs alone |
| ClusterFailover.EventBroadcasts | components/cluster/cluster_failover.c:64-112 | exactly what an event has the node broadcast: as master the I/O taken from a failed node; its whole table to a returned one, with the values of the outputs that node owns; nothing about itself, a suspect or a newcomer |
| ClusterFailover.TitlesFollowLife | components/cluster/cluster_failover.c:64-112 | a node's own events, choice of master, registrations and received updates determine the owner and original owner of every I/O in its table |
| ClusterFailover.OwnershipFollowsEvents | components/cluster/cluster_failover.c:64-112 | in every life of a node, an I/O that no registration or update was about is with this node exactly when it handled a failure of the owner while it named itself master and no return since, and else with the owner |
| ClusterFailover.OnlineOwnersHaveTheirIo | components/cluster/cluster_failover.c:64-112 | in every life whose I/O began with their original owners and in which no update gave one away, every I/O of a node now ONLINE in the table is with that node |
| ClusterFailover.TakeoverIsTheMasters | components/cluster/cluster_failover.c:66-83 | a node becomes owner of another's I/O exactly when, as master, it handles that owner's failure |
| ClusterFailover.MasterBelief | components/cluster/cluster_manager.c:116-136 | a node believes itself master exactly when its id is at most every nonzero id it sees ONLINE and, if it sees any, nonzero |
| ClusterFailover.TakingIsTheMasters | components/cluster/cluster_io.c:242-284 | a membership operation by which a node becomes owner of another's I/O leaves it believing itself master, and published the failure of that owner |
| ClusterFailover.AtMostOneMaster | components/cluster/cluster_manager.c:116-136 | in every reachable state of every system of nodes with membership operations, registrations, updates and registry changes, of two nodes with distinct ids that see each other ONLINE at most one believes itself master |
| ClusterFailover.AtMostOneTakesOver | components/cluster/cluster_io.c:242-284 | in every run of every such system, any two nodes that take over I/O, started with the ids their I/O tables were given, at whatever moves and of whichever owners, have one id if each as its own move left it sees the other ONLINE |
| ClusterFailover.AgreementMakesOneMaster | components/cluster/cluster_manager.c:116-136 | where every node of a group sees all of it and nobody else, exactly the lowest nonzero id believes itself master, and id 0 only if there is no other |
| ClusterFailover.SharedIdMakesTwoMasters | components/cluster/cluster_manager.c:325-350 | two nodes started with one id, be it 0 or not, see each other's id ONLINE and both believe themselves master |
| ClusterFailover.AloneAndMaster | components/cluster/cluster_manager.c:325-350 | a node just started believes itself master, whatever its id |
| ClusterFailover.Failover.constructor | components/cluster/cluster_failover.c:118-136 | the failover engine starts with an empty I/O table |
| ClusterFailover.Failover.IsRegisteredGateway | components/cluster/cluster_failover.c:17-32 | true exactly when some slot holds that node with the gateway profile |
| ClusterFailover.Failover.HandleEvent | components/cluster/cluster_failover.c:64-112 | one event's effect on outputs, ownership and broadcasts, in place |
| ClusterFailover.Failover.Process | components/cluster/cluster_manager.c:352-381 | a round of aging with every event it publishes handled in order |
| Network.StepSteady | components/runtime/network_v1/endap_network_v1.c:92-191 | every call keeps what spaces the failovers |
| Network.FailoversSpaced | components/runtime/network_v1/endap_network_v1.c:122-141 | in every sequential run any two increments of the failover count are at least the smaller of hysteresis and failover delay, 15 and 5 seconds where the profile has 0, apart in true time, and the count counts them modulo 2^32 |
| Network.TransportMatchesState | components/runtime/network_v1/endap_network_v1.c:35-48 | in every run the reported transport is the fallback in DEGRADED and the primary otherwise, none if unknown |
| Network.GatewayNeverFailsOver | components/runtime/network_v1/endap_network_v1.c:122-128 | a gateway, or a node without a fallback, never leaves its primary |
| Network.FailoverIsDue | components/runtime/network_v1/endap_network_v1.c:122-141 | below one clock wrap a connected node fails over exactly when silent for longer than the delay, whether or not the transport is ready |
| Network.ProcessMoves | components/runtime/network_v1/endap_network_v1.c:92-191 | where each of the five states goes when processed and exactly when, in true time below one clock wrap: DEGRADED to RECOVERING at the hysteresis; RECOVERING to CONNECTED if ready and heard within the delay, else back to DEGRADED past half the delay; DISCONNECTED and CONNECTING onwards exactly if ready |
| Network.RecoveryIsDue | components/runtime/network_v1/endap_network_v1.c:144-187 | in every run a node degraded since some call is back on its primary at the first processing a hysteresis or more after it, and no sooner; and it is CONNECTED there once it hears a packet and is processed ready within the delay |
| Network.OtherCallsMove | components/runtime/network_v1/endap_network_v1.c:198-240 | only processing and a forced reconnect move the machine, and only a received packet and a reconnect count as contact |
| Network.StartsConnecting | components/runtime/network_v1/endap_network_v1.c:50-90 | a machine starts connecting with nothing counted and the defaults for zeros |
| Network.CountersCount | components/runtime/network_v1/endap_network_v1.c:198-223 | in every run packets received, sent and dropped are counted modulo 2^32, the jitter is the longest round trip and the last round trip the last that was not 0 |
| Network.NetworkV1.Init | components/runtime/network_v1/endap_network_v1.c:50-90 | the policy in force, defaults for zeros, once |
| Network.NetworkV1.Process | components/runtime/network_v1/endap_network_v1.c:92-191 | the switch in place, initializing first if need be, and the transports it selects in doing so; where it goes is `ProcessMoves` |
| Network.NetworkV1.NotePacket | components/runtime/network_v1/endap_network_v1.c:198-223 | counters, last contact, round trip and jitter |
| Network.NetworkV1.ForceReconnect | components/runtime/network_v1/endap_network_v1.c:231-240 | back to CONNECTING on the primary |

## Left out

- HTTP, WebSocket, mDNS, dashboards, JSON builders, name tables and log output: they decide nothing modelled here.
- Sockets, radio, serial and GPIO drivers: a broadcast is appended to a log, and what arrives is a parameter.
- Tasks, semaphores and locks: each critical section, call and handled event is one atomic step; calls that take a lock twice are one step.
- Checksums: an arbitrary function of the content, so a blob that fails its check is covered as one that does not load.
- Scaling of input values by the PVE: a parameter.
- Automation: migration of the first three layouts of its blob, the ladder engine, and the names of operators and modes.
- AutomationEngine.Engine.constructor: asks that every interlock in flash has at most two conditions, as the header says; for more the source reads beyond the two it stores, which is undefined.
- AutomationEngine.Engine.SetInterlockAt: asks the same of the interlock it is given; the source stores any.
- AutomationOutcomes.EventSets: is about an output that one rule alone drives; `ForcePairSets` is about the one way two rules may share an output.
- Automation: only the automation handler is on the route of state events; other subscribers of the bus are not modelled.
- Automation: interlocks are not looked at when a timer expires, as in the source, so nothing is claimed of them there.
- AutomationRuns.LatchHolds: does not cover manual commands already queued in the scheduler, which the source writes without asking the guard; such a write is `WriteState`, one of the excluded operations.
- Fail-safe: loading and saving its policies, the boot reason, and start-up values.
- NodeRegistry.RebootTransparent: starts from flash that repeats no id, as every blob this registry saves does; the source does not check, and neither does `Table.Init`.
- Node registry: the sorted export, and the note of the local transport that the network process makes on each pass.
- Persistence.FlushThenRestore: is about one flush of a catalog that does not change meanwhile; marks name positions, which shift with insertions and removals, and a flush after a restore through its read-only handle is not modelled.
- CatalogApi.WalkIsComplete: asks that the record of the cursor still be there for the next page; otherwise the source starts again from the beginning.
- Catalog paging: its documentation says the last page returns 0; the code returns 0 only for an empty page, and so does the model.
- Catalog records: only the fields that the catalog, the listing and the journal use.
- ClusterIo.OwnershipIsHistory: is about I/O that no registration or update names meanwhile; where one does, `TitleIsHistory` says what comes of it. Assignments, made by the self test only, are in neither.
- ClusterFailover.OnlineOwnersHaveTheirIo: leaves out lives in which an update names an owner other than the original one; what such an update does is in `TitlesFollowLife`.
- Cluster: signal strength, metrics, health, discovery and the self test; the failover engine and the I/O table are given their node id once, together.
- Cluster: the decision whether a received heartbeat is passed on to the manager at all.
