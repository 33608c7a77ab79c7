# A model of the 5G lab's fault injection, readiness and probe logic

The lab runs an Open5GS core and UERANSIM in containers. Its tooling injects one fault, observes the damage, takes
the fault out again, and reports what happened. What makes this hard is that every command may fail with or without
having taken effect, lie about it, or be cut short by a signal, while the report must still be true of the lab.

The model has one world (`Testbed.dfy`): devices with or without clsact, the filters inside it, containers with
their running flag, start time and health, the trace of issued commands, and the signal dispositions. An oracle
decides for the n-th command how far it gets, which signal arrives, and how it ends. It is a function parameter, so
every theorem speaks about every run. A zero return code without the effect is a lie, a non-zero one with the effect
is a lost reply; both are allowed unless a theorem names the replies it trusts. Show and inspect commands tell the
truth when they succeed, and may fail.

| file | models |
|---|---|
| `FaultSpec.dfy` | the injector as a state machine: apply, remove, verify |
| `FaultInjector.dfy` | the same as objects updated in place, proved equal to the state machine |
| `FaultInvariants.dfy` | what every single step keeps |
| `FaultRuns.dfy` | theorems about one apply followed by any checks and rollbacks |
| `FaultCauses.dfy` | every exception has a cause, and without one every step succeeds |
| `FaultCleanup.dfy` | the try/rollback wrapper around a body |
| `Assertions.dfy`, `Orchestration.dfy`, `RuntimeRuns.dfy` | event assertions, a fault scenario from apply to verdict, the gates, the baseline |
| `AssociationLog.dfy`, `CoreIssues.dfy` | the log check, the classifier |
| `ReadinessWatch.dfy`, `ReadinessRuns.dfy`, `CoreReadiness.dfy` | the monitor as a state machine, its whole histories over real time, the polling loop |
| `OwnCommands.dfy` | the orchestrator's own commands, and what the trace says of them |
| `LiveBaseline.dfy` | the live checks with the core wait among them, carried out by every gate, recovery and baseline |
| `NgSetup.dfy` | the bounded NG setup wait |
| `Probes.dfy` | the isolated probe runner |
| `Timestamps.dfy` | timestamp normalization, the event sort, durations |
| `ScenarioKeys.dfy` | the recursive key check of scenario files |

## Where the code does less than its intent

- `remove` alone believes the return code of a delete, so it can return normally with the filter in place
  (`FaultRuns.UnverifiedRollbackCanLie`). `verify_removed` is exact (`FaultRuns.VerifyRemovedExact`), and it is what
  the orchestrator reports.
- `stop_service` does not look whether its target was running and its undo is always a start: even an honest lab is
  put back exactly when the target was running (`FaultRuns.StopRollbackExact`).
- `stop_service` with a target that is not allowed arms the cleanup before the target is validated; every later
  `remove` then raises ValueError (`FaultCauses.DisallowedTarget`). `FaultRuns.RetryConverges` therefore carries an if
  and only if.
- A core that is clean from some moment on may still miss a deadline that leaves room for the stability window, one
  interval and one read (`ReadinessRuns.OneRoundIsNotEnough`). Two rounds and the read under way at that moment are
  enough (`CoreReadiness.Core.HealthyInTime`), and when reads take no time and sleeps are punctual the room needed is
  known exactly (`CoreReadiness.Core.HealthyInTimeExact`): both spans, rounded up to whole intervals, must fit.
- The event sort puts a whole second after the fractions of the same second (`Timestamps.WholeSecondsSortLate`).

## Model

| member | source | states |
|---|---|---|
| Testbed.SendKeepsValidLab | src/fiveg_lab/fault_injection.py:337-343 | whatever a command does or answers, filters live inside their device's clsact and no container starts in the future |
| Hosts.Host.RunCommand | src/fiveg_lab/orchestration.py:797-840 | a command installs its SIGTERM handler exactly when SIGTERM is not ignored, runs under it, and both dispositions are as before on every path |
| FaultInjection.FaultInjector.Run | src/fiveg_lab/fault_injection.py:337-343 | history grows by the command before it runs; only a zero return code is normal |
| FaultInjection.FaultInjector.ContainerState | src/fiveg_lab/fault_injection.py:214-242 | the container as listed and inspected, nothing when it does not exist |
| FaultInjection.FaultInjector.Apply | src/fiveg_lab/fault_injection.py:65-98 | the object's whole new state and outcome are those of the state machine the theorems are about, for every oracle |
| FaultInjection.FaultInjector.ApplyImpairment | src/fiveg_lab/fault_injection.py:202-212 | the same for the impairment path, including the refusal of a taken preference |
| FaultInjection.FaultInjector.Install | src/fiveg_lab/fault_injection.py:205-212 | clsact only when it is missing, the rule after it, each armed first, as in the state machine |
| FaultInjection.FaultInjector.Mutate | src/fiveg_lab/fault_injection.py:77-79 | a restart, stop or filter add can only be issued with the cleanup flag already set |
| FaultInjection.FaultInjector.UndoOne | src/fiveg_lab/fault_injection.py:131-145 | a failed undo counts as an error unless its target is confirmed absent |
| FaultInjection.FaultInjector.RollBackAll | src/fiveg_lab/fault_injection.py:127-145 | the loop with its growing error list performs exactly the recursive sweep of the state machine |
| FaultInjection.FaultInjector.Remove | src/fiveg_lab/fault_injection.py:124-149 | the rollback ends and leaves the flags as the state machine says |
| FaultInjection.FaultInjector.VerifyApplied | src/fiveg_lab/fault_injection.py:100-122 | answer, escaping exception and new state equal the state machine's |
| FaultInjection.FaultInjector.VerifyRemoved | src/fiveg_lab/fault_injection.py:151-167 | the same for the removal check |
| FaultInvariants.ApplyArms | src/fiveg_lab/fault_injection.py:65-98 | however apply ends, the lab differs from before at most by what the flags record, and any difference means the cleanup is armed on a valid target |
| FaultInvariants.RemoveKeeps | src/fiveg_lab/fault_injection.py:124-149 | a rollback, finished or not, stays inside the fault's footprint; it disarms only on a normal return |
| FaultInvariants.RemoveRestores | src/fiveg_lab/fault_injection.py:124-149 | with truthful undo replies every rollback, however it ends, keeps the write-ahead invariant, and one that returns normally has restored the lab |
| FaultRuns.CrashTolerantRollback | src/fiveg_lab/fault_injection.py:124-149 | apply ending anywhere in any way, then any checks and failed rollbacks: a remove that returns normally has restored the lab, if zero codes of undo commands are true and nothing else is trusted |
| FaultRuns.WriteAheadArming | src/fiveg_lab/fault_injection.py:70-87 | if zero codes of undo commands are true: in every reachable state, interrupted anywhere, a lab not restored means cleanup is armed and the commands remove would issue restore it |
| FaultRuns.ArmingPrecedesChange | src/fiveg_lab/fault_injection.py:202-212 | after apply, any checks and any rollbacks that raised, under any oracle and trusting nothing: an unchanged lab or an armed cleanup whose commands undo every difference |
| FaultRuns.IssuedUndo | src/fiveg_lab/fault_injection.py:189-200 | carried out in order, the undo commands that are not skipped turn any reachable lab back into the initial one |
| FaultRuns.RemoveIssues | src/fiveg_lab/fault_injection.py:128-130 | a rollback that was not cut short has sent exactly those undo commands, in that order |
| FaultRuns.VerifiedRollbackIsReal | src/fiveg_lab/fault_injection.py:151-167 | a true verify_removed is true of the lab in every reachable state, whatever any mutating command answered |
| FaultRuns.VerifyRemovedExact | src/fiveg_lab/fault_injection.py:159-163 | as long as the show commands are answered and not cut short, the check of an impairment is true if and only if the lab equals its initial state and that had no filter at the preference; nothing is asked of any other reply |
| FaultRuns.VerifyServiceRemovedExact | src/fiveg_lab/fault_injection.py:155-158 | the same for a service fault: true if and only if the container is there, running and not unhealthy |
| FaultRuns.VerifyAppliedExact | src/fiveg_lab/fault_injection.py:100-122 | while looks at container and tc state are answered, a fault whose apply returned is reported as verified if and only if it is in effect: for a restart, running, not unhealthy and with a new start time |
| FaultRuns.VerifiedFaultIsReal | src/fiveg_lab/fault_injection.py:100-122 | a fault reported as verified is in effect and was put there by this apply; a restarted container is not unhealthy |
| FaultRuns.ForeignStatePreserved | src/fiveg_lab/fault_injection.py:202-212 | with a filter already at the preference no mutating command is ever issued; a clsact that was there is never added or deleted |
| FaultRuns.FailedRollbackStaysArmed | src/fiveg_lab/fault_injection.py:146-149 | a remove that raises leaves every flag as it was, cleanup_required included |
| FaultRuns.RetryConverges | src/fiveg_lab/fault_injection.py:124-149 | from any armed reachable state one honest remove restores the lab if and only if the target is valid and its container exists; all later removes do nothing |
| FaultRuns.HonestRollback | src/fiveg_lab/fault_injection.py:124-149 | a lab that is honest about the injector's commands is restored by one remove from any state that keeps the write-ahead invariant |
| FaultRuns.UnverifiedRollbackCanLie | src/fiveg_lab/fault_injection.py:131-149 | a concrete lab in which remove returns normally with the filter still there, and verify_removed notices |
| FaultRuns.StopRollbackExact | src/fiveg_lab/fault_injection.py:81-85 | after stop and rollback the target runs, so every container runs as before if and only if the target did |
| FaultRuns.RuleDropsItsPort | src/fiveg_lab/fault_injection.py:34-49 | each impairment drops its own protocol to its own peer, on the port that is its preference, under its own handle |
| FaultRuns.TargetsExact | src/fiveg_lab/fault_injection.py:12-13 | the five services and three interfaces a fault may touch, and eth0 when none is named |
| FaultCauses.ApplyBlamed | src/fiveg_lab/fault_injection.py:65-98 | apply is interrupted if and only if a signal cut one of its commands short, crashes if and only if one could not be run, and raises ValueError if and only if its target is not allowed |
| FaultCauses.RemoveBlamed | src/fiveg_lab/fault_injection.py:124-149 | the same for remove, whose ValueError needs something to undo |
| FaultCauses.DisallowedTarget | src/fiveg_lab/fault_injection.py:81-98 | a target that is not allowed makes apply raise ValueError without issuing a command; stop_service is left armed and every remove raises as well |
| FaultCauses.SmoothApply | src/fiveg_lab/fault_injection.py:65-122 | with honest replies and nothing in its way, every kind of fault is applied and its check is true |
| FaultCauses.SmoothRemove | src/fiveg_lab/fault_injection.py:124-167 | with honest replies it is removed from any state it can be in, and that check is true |
| FaultCleanup.RunWithFaultCleanup | src/fiveg_lab/fault_injection.py:378-396 | the body runs exactly when apply returned, the rollback is attempted in any case, which exception leaves, and a completed rollback has restored the lab while a failed one stays armed |
| FaultCleanup.CleanupMeans | src/fiveg_lab/fault_injection.py:385-389 | whatever commands the body issued and however it ended, the rollback after it is as good as one right after apply |
| Assertions.EvaluateScenarioEvents | src/fiveg_lab/assertions.py:7-37 | one result per expected and per forbidden event, in order; their status is PASS exactly when the events are as expected |
| Assertions.StatusOfEvents | src/fiveg_lab/assertions.py:40-45 | the status of such a list is PASS if all expected and no forbidden events occurred, and FAIL otherwise |
| Assertions.StatusAppend | src/fiveg_lab/assertions.py:40-45 | state assertions before the events can only turn a PASS into a FAIL |
| Orchestration.GatherEvidence | src/fiveg_lab/orchestration.py:403-424 | normal if and only if the settle time was not cut short, the logs were collected, and the traffic ended with one of its two verdicts to which the file agrees, all read off the trace |
| Orchestration.RunFault | src/fiveg_lab/orchestration.py:396-424 | the try block is normal if and only if the fault was applied, verified and observed to the end, interrupted if and only if a signal cut a command short, crashed if and only if one could not be run; fault_applied and fault_verified are exact on every path, SIGTERM would interrupt every command, and it leaves the injector armed for any change and issues no undo |
| Orchestration.ConfirmedIsReal | src/fiveg_lab/orchestration.py:399-402 | a fault that the check confirmed was in effect at that moment of the run |
| Orchestration.RollBack | src/fiveg_lab/orchestration.py:427-446 | every rollback command is issued with SIGINT and SIGTERM ignored, both are put back; recovery_attempted exactly when something is pending, rollback_verified exactly when remove returned and the check was true, and then it is true of the lab |
| Orchestration.RollbackMeans | src/fiveg_lab/orchestration.py:431-438 | the masked rollback from any armed state, verified or honest, leaves nothing of the fault behind |
| Orchestration.RollbackSucceeds | src/fiveg_lab/orchestration.py:431-443 | with honest replies the rollback of an applicable fault is verified |
| Orchestration.AttemptFault | src/fiveg_lab/orchestration.py:386-446 | try and finally together: an interruption of the try block never leaves but becomes an infrastructure error; a crash leaves if and only if a command could not be run, ValueError if and only if the target is not allowed; every flag is exact, and nothing going wrong, whether the traffic gets through or reports failure, means a complete run and a verified rollback |
| Orchestration.ExecuteFaultScenario | src/fiveg_lab/orchestration.py:343-499 | end to end: verdict exact, and each of fault_applied, fault_verified, infrastructure_error, recovery_attempted, rollback_verified and recovery_status if and only if the run shows it; a verified fault was in effect, a verified rollback is real, recovery is asked exactly when both are verified and passes exactly with its live checks and core wait; signals restored on all exits, undo only in the masked finally block; which exception escapes, and when, is exact; a configuration mutation gives a blocked report that claims nothing; with honest replies, and traffic that succeeds or fails as its file says, only the events and the core wait decide |
| Orchestration.InterruptionIsReported | src/fiveg_lab/orchestration.py:425-466 | with an allowed target there is a report if and only if every command could be run and no signal came after the rollback, and a scenario cut short before that is reported as ERROR |
| Orchestration.RecoveryMeansReady | src/fiveg_lab/orchestration.py:448-451 | a verified recovery means a real rollback and a core wait, begun after the last undo command, that found nothing fatal and one identity per service at every poll, and the core healthy at every poll of the last 30 seconds |
| Orchestration.Conclude | src/fiveg_lab/orchestration.py:455-490 | PASS, FAIL and ERROR each hold exactly under their condition, and recovery_verified implies rollback_verified implies recovery_attempted |
| BaselineGate.ValidateBaselineResult | src/fiveg_lab/orchestration.py:885-925 | the stored baseline passes exactly when it is an object with the four typed fields, passing, ready, and its well-formed fingerprint is the current one; otherwise the reason names what is wrong |
| RuntimeRuns.PassGates | src/fiveg_lab/orchestration.py:104-135 | the gates are asked in order and nothing else; unless a command is cut short or cannot be run, either all have passed or one that was asked has refused; with honest replies and a stored baseline all are asked and the core wait decides |
| RuntimeRuns.RunFaultScenario | src/fiveg_lab/orchestration.py:81-158 | the run is cut short at the gates, refused by one that was asked, or executes the scenario with all its guarantees, nothing else; BLOCKED exactly when a gate refused or the fault is not automated, and then the report claims nothing; which exception escapes, and when, is exact; no mutating command before all gates passed; masked undo and honest restoration hold for the whole run; with honest replies and a stored baseline all gates are asked, and PASS if and only if both core waits pass and the events are as expected |
| RuntimeRuns.RunMeansReady | src/fiveg_lab/orchestration.py:124-156 | a run with a verified recovery had a ready core both before the fault and after the rollback |
| RuntimeRuns.RunStages | src/fiveg_lab/orchestration.py:218-247 | the stages are a prefix of the list, each but the last returned zero, and the first failure ends them |
| RuntimeRuns.StartRan | src/fiveg_lab/orchestration.py:249-281 | NG setup, UE start and live checks follow each other, each only after the one before passed, and the run is cut off only after one that failed |
| RuntimeRuns.ExecuteBaseline | src/fiveg_lab/orchestration.py:202-317 | PASS exactly for a complete run in which every step and the core wait passed and events are as expected; ERROR exactly for a failed stage, UE start or log collection; FAIL exactly for the rest; the UE never starts before NG setup passed; it is stopped by an interruption or a crash if and only if a command was cut short or could not be run; with honest replies it is ready exactly when the core wait passes and the events are as expected |
| RuntimeRuns.BaselineMeansReady | src/fiveg_lab/orchestration.py:276-281 | a passed baseline found the core calm at every poll and healthy for the last 30 seconds |
| RuntimeRuns.BaselineSteps | src/fiveg_lab/orchestration.py:209-289 | a passed baseline issued ten commands in this order, all of which passed: logs, RAN stop, lab start, subscriber, gNB, NG wait, UE, live checks, recheck, logs |
| RuntimeRuns.BaselineVerdict | src/fiveg_lab/orchestration.py:295-305 | PASS, FAIL and ERROR each hold exactly when the trace of the run shows it, and there is no fourth verdict |
| RuntimeRuns.SmoothBaseline | src/fiveg_lab/orchestration.py:242-289 | with honest replies a finished run was complete |
| LiveBaseline.ValidateCurrentBaseline | src/fiveg_lab/orchestration.py:510-653 | everything is asked whatever fails; PASS if and only if the checks before the core wait, the wait itself and the checks after it passed; it is cut off only by a command that was cut short or could not be run |
| LiveBaseline.FinalWait | src/fiveg_lab/orchestration.py:664-674 | a call of wait_core_ready on this core, begun now and ended now, with the defaults of 120, 30 and 2 seconds, all its readings truthful, its verdict exact, its liveness and the causes of its failure |
| NgSetup.CommandTimeout | src/fiveg_lab/orchestration.py:327-329 | the longest of one, two or three seconds that two commands fit into, and one second when less than two remain |
| NgSetup.Gnb.Attempt | src/fiveg_lab/orchestration.py:742-774 | two commands exactly when the node dump worked in time, one otherwise; an attempt takes at most two timeouts |
| NgSetup.Gnb.WaitForNgSetup | src/fiveg_lab/orchestration.py:320-340 | at most T attempts of one or two commands each, over before T + 2 s; a pass is the word of the last two commands asked, both answered within the timeout of an attempt begun before the deadline; it goes on asking, so attempts are bounded from below as well; with prompt commands a gNB ready at any attempt that fits into the time makes the wait pass |
| AssociationLog.LatestRefinesReplay | src/fiveg_lab/readiness.py:110-113 | for every log the comparison of last occurrences equals replaying all messages by position |
| AssociationLog.LaterMessageWins | src/fiveg_lab/readiness.py:110-113 | a loss invalidates and a success heals whatever was logged before, as long as the other kind of message does not follow |
| AssociationLog.SuffixDecides | src/fiveg_lab/readiness.py:110-113 | once newer output mentions the association, older output is irrelevant |
| AssociationLog.LatestExact | src/fiveg_lab/readiness.py:110-113 | it succeeds if and only if some success message has none of the losses after it |
| CoreIssues.FindIssues | src/fiveg_lab/readiness.py:71-107 | exactly the fatal and exactly the pending issues; both lists empty if and only if the core is healthy, the fatal one if and only if it is not broken |
| CoreIssues.ClassifierExact | src/fiveg_lab/readiness.py:71-107 | no issue of either kind holds if and only if every requirement on init, services, MongoDB and logs does |
| CoreIssues.BrokenExact | src/fiveg_lab/readiness.py:75-93 | a fatal issue exists if and only if initialization failed, a service has ended or is being restarted, or a network function logs an error |
| CoreIssues.RegisteredExact | src/fiveg_lab/readiness.py:96-101 | a log shows a registration if and only if a success message is followed by none of the three losses |
| CoreIssues.AssociatedExact | src/fiveg_lab/readiness.py:102-106 | the same for an association and its two losses |
| CoreIssues.InitErrorExact | src/fiveg_lab/readiness.py:92-93 | a log shows an initialization error if and only if one of three texts occurs in it |
| CoreIssues.AssociationLossIsPending | src/fiveg_lab/readiness.py:102-107 | whatever it logged before, a live SMF or UPF whose log ends with either loss has its association pending, and the core is not healthy |
| CoreIssues.RegistrationLossIsPending | src/fiveg_lab/readiness.py:96-101 | the same for the registration of a network function and its three losses |
| CoreIssues.ErrorTextIsFatal | src/fiveg_lab/readiness.py:92-93 | each of three error texts, anywhere in a network function's log, breaks the core |
| CoreIssues.OwnLineInitializes | src/fiveg_lab/readiness.py:94-95 | a live network function is pending initialization if and only if its own line is missing from its log |
| CoreIssues.NoLogNoMarks | src/fiveg_lab/readiness.py:90 | a service without a log is judged like one with an empty log |
| ReadinessWatch.WatchExact | src/fiveg_lab/readiness.py:129-156 | the monitor becomes ready exactly when the whole history is untroubled and a clean run of the stability window ends in time, and breaks exactly on trouble |
| ReadinessWatch.ConflictIsTrouble | src/fiveg_lab/readiness.py:133-139 | comparing with remembered identities detects exactly the histories in which some service had two identities, pending polls included |
| ReadinessWatch.WatchSince | src/fiveg_lab/readiness.py:144-149 | stable_since is the first reading of the clean run that ends now |
| CoreReadiness.Core.Command | src/fiveg_lab/readiness.py:34-41 | a command begun before the deadline ends within a second after it, none is begun later, it takes no longer than it would run; it succeeds if it would within the smaller of ten seconds and the time left, and only with a zero code |
| CoreReadiness.Core.ReadCore | src/fiveg_lab/readiness.py:33-68 | a successful read is exactly what Docker showed, without duplicates, from one answered command for the listing, one for the inspection and one for each log; a failed one has a failed or hung command of its own, bad output or the deadline as its cause; it lasts no longer than its commands do |
| CoreReadiness.ShownExact | src/fiveg_lab/readiness.py:47-67 | a reading holds exactly the containers listed, and the marks of exactly the network functions that have been started, each from its own log |
| CoreReadiness.Core.CheckIdentities | src/fiveg_lab/readiness.py:133-139 | the remembered identities are overridden by the running ones, and a change is reported exactly on a conflict |
| CoreReadiness.Core.Round | src/fiveg_lab/readiness.py:131-157 | one turn either ends the call with every guarantee or keeps history and watch in step |
| CoreReadiness.Core.WaitCoreReady | src/fiveg_lab/readiness.py:116-160 | passes if and only if every read worked, nothing was ever fatal or changed, and the last reading is in time and ends a clean stability window; it polls on until the next round cannot begin; every poll is accounted for by commands of its own, and a failed one by a cause of its own; if during the call the lab is calm, prompt and, from time s on, healthy, with two rounds of room, it passes; number of polls, end time |
| CoreReadiness.Core.PassedMeansReady | src/fiveg_lab/readiness.py:129-156 | a pass says of the core itself: nothing fatal at any poll, no service with another container or start time at two polls, healthy at every poll of the stability window, all before the call ended |
| CoreReadiness.Core.PromptIsBrisk | src/fiveg_lab/readiness.py:34-41 | if the commands of the call are prompt and its output acceptable, every read is short and one fails only at the deadline |
| CoreReadiness.Core.HealthyInTime | src/fiveg_lab/readiness.py:130-157 | liveness from what the lab promises for the commands and the time of this call alone, including a last read cut at the deadline |
| CoreReadiness.Core.HealthyInTimeExact | src/fiveg_lab/readiness.py:130-157 | with instant reads and punctual sleeps: passes if and only if the time until healthy and the stability window, each rounded up to whole intervals, sum to less than the timeout |
| ReadinessRuns.SteadyBecomesReady | src/fiveg_lab/readiness.py:130-157 | an untroubled history that is clean from a reading with room for the window and one round is decided as ready |
| ReadinessRuns.CleanFromTime | src/fiveg_lab/readiness.py:130-157 | a call whose polls from a point in time on are clean passes if there is room for two rounds and the read under way |
| ReadinessRuns.PunctualExact | src/fiveg_lab/readiness.py:130-157 | the exact room a punctual history needs |
| ReadinessRuns.OneRoundIsNotEnough | src/fiveg_lab/readiness.py:130-157 | concrete polls for which room for one round after that point in time is too little |
| ReadinessRuns.PollsBounded | src/fiveg_lab/readiness.py:130-157 | at most ceil(timeout / interval) polls |
| Probes.CapabilityStatus | src/fiveg_lab/runtime_preflight.py:130-135 | FAIL exactly when some check failed, BLOCKED exactly when some check is blocked and none failed, PASS exactly when every check passed, for checks that pass, fail or block |
| Probes.Runner.Execute | src/fiveg_lab/runtime_preflight.py:90-116 | a signal that is not ignored, and nothing else, becomes an interruption |
| Probes.Runner.CleanupProbe | src/fiveg_lab/runtime_preflight.py:348-360 | a container is reported absent exactly when the listing worked and does not show it |
| Probes.Runner.CleanupLogFile | src/fiveg_lab/runtime_preflight.py:320-345 | both checks passing means neither the probe's file nor the second container is left |
| Probes.Runner.RunProbe | src/fiveg_lab/runtime_preflight.py:265-317 | interrupted, failed or crashed, the probe is cleaned up under ignored signals, both dispositions come back, each of its containers is confirmed absent or has a failed check naming it, and its own check passes exactly when it exited with zero, printed its marker and no signal came |
| Probes.Runner.TryProbe | src/fiveg_lab/runtime_preflight.py:293-306 | an interruption becomes a failed check, any other exception stays pending, and a pass is exactly exit zero with the marker and no interruption |
| Probes.Runner.RunStages | src/fiveg_lab/runtime_preflight.py:153-221 | checks all pass only if every stage was asked in order and succeeded on a clean contract; BLOCKED only for a host without Linux, Docker, Compose or a native image, FAIL only for the compose file or the volume; no stage creates a container |
| Probes.Runner.InspectImages | src/fiveg_lab/runtime_preflight.py:181-198 | every image is inspected, and the checks pass exactly when all are local and native |
| Probes.Runner.RunPlan | src/fiveg_lab/runtime_preflight.py:222-229 | the probes begun are a prefix of the plan, all but the last passed with their containers confirmed absent, and each container of the last one is confirmed absent or named by a failed check |
| Probes.PlanCovers | src/fiveg_lab/runtime_preflight.py:222-225 | the plan checks the log directory first, then every network function, then the UPF bootstrap, and MongoDB when asked |
| Probes.PlanIsPrepared | src/fiveg_lab/runtime_preflight.py:178-225 | the log probes are those of the nine network functions, and the images inspected are those the probes need |
| Probes.Runner.RunRuntimePreflight | src/fiveg_lab/runtime_preflight.py:153-229 | no leak for every oracle, also for containers merely not confirmed absent; PASS means every stage and every planned probe passed and nothing is left behind; BLOCKED means that no probe was begun on an unready host; an honest host passes |
| Timestamps.StringOrderExact | src/fiveg_lab/parser.py:201-204 | string order of normalized timestamps is time order, except inside one second between a whole and a fractional instant |
| Timestamps.SecondsOrder | src/fiveg_lab/parser.py:201-204 | the seconds count over the calendar orders instants as their fields do |
| Timestamps.KeyOrder | src/fiveg_lab/parser.py:359 | events of one instant sort by component, then name; an earlier second sorts first |
| Timestamps.UntimedSortLast | src/fiveg_lab/parser.py:359 | an event without a timestamp sorts after every event of a year before 9999 |
| Timestamps.ParseInvertsNormalize | src/fiveg_lab/parser.py:269 | parsing a normalized timestamp gives the instant back |
| Timestamps.FirstIsNearlyEarliest | src/fiveg_lab/parser.py:264-272 | after the sort the first timestamp found is less than a second after the truly earliest event |
| Timestamps.DurationErrorBound | src/fiveg_lab/parser.py:275-280 | a reported duration is off by less than a second; none is reported only if the end comes less than a second after the start |
| Timestamps.Duration | src/fiveg_lab/parser.py:275-280 | reported exactly when both groups have a usable timestamp and the first of the end is not before the first of the start, and then the time between them |
| Timestamps.WholeSecondsSortLate | src/fiveg_lab/parser.py:359 | two events for which the sort puts the later one first |
| ScenarioKeys.RejectExact | src/fiveg_lab/scenarios.py:75-84 | a nested value is accepted exactly when no mapping at any depth has an unsafe key, and otherwise the path of the first offending key in document order is reported |
| ScenarioKeys.RejectFromMeans | src/fiveg_lab/scenarios.py:77-84 | the same for the rest of a mapping or list, from any child on |
| ScenarioKeys.CommandsRefused | src/fiveg_lab/scenarios.py:36-84 | exactly six keys are refused, whatever is behind them |

## Left out

- Processes, Docker and tc output, files and JSON: commands are datatypes and the oracle answers them. Matching the rule markers in tc output and parsing `docker inspect` count as truthful observations.
- Signals arrive during commands, not between them. The instant between leaving a try block and ignoring the signals, and between installing a handler and entering the try block, is not modelled.
- A container that is stopped keeps its clsact and filters, and tc commands do not depend on the container running: only one fault is in play at a time.
- One apply per injector, and nobody else changes tc or container state during a run; a container's health moves on its own and is fixed when a command about it ends.
- `last_verification_error`, notes, evidence lists and other texts: diagnostics only.
- Host checks and the NG setup wait are one command each inside a scenario or baseline run; the wait itself is `NgSetup`. The live checks before and after the core wait are one command each; their pass or fail is the return code.
- The core has its own clock, which stands still while other commands run, and what it shows is not derived from the containers the faults act on.
- FaultCleanup.RunWithFaultCleanup: the body may issue any commands and end in any way, but is taken to leave the lab and the signal dispositions as they are.
- Orchestration.ExecuteFaultScenario: the events, the traffic file and its markers are inputs, and sleeping before the traffic is one step that a signal may cut short.
- RuntimeRuns.ExecuteBaseline: the sleep before the live checks is not a step of its own.
- Context manifest commands other than the Compose resolution only feed the fingerprint, which is an equality token.
- The four configuration mutation faults beyond their early BLOCKED result: the code does nothing more.
- Exceptions that the orchestrator does not catch leave no report; their cause and what holds of the lab and the signals then are part of the guarantee.
- CoreReadiness.Core.WaitCoreReady: what a poll is told depends on when it began, killing a command that timed out takes no time, sleeps may wake late by a bounded lag, KeyboardInterrupt counts as a failed read, and removing ANSI codes and matching the three error texts by regular expression is plain containment.
- NgSetup.Gnb.WaitForNgSetup: the same clock; the status text is one flag, and the baseline run does not call it but asks one command in its place.
- Probes.Runner.RunRuntimePreflight: container names and probe files are numbered instead of random, so unused before; the contract checks are their pass flags; Docker creates nothing after the command that asked for it has ended.
- Timestamps.ParseInvertsNormalize: only the two shapes that normalization produces are parsed; time zones and nanosecond trimming are left out. Durations are exact microseconds, not rounded floats.
- Timestamps.FirstIsNearlyEarliest: the sort is any sorted permutation by the key; events without a timestamp sort last and are skipped.
- ScenarioKeys.RejectExact: keys are strings and the reported path is a list of steps, not its rendering.
- `parse_scenario`, configuration, preflight, command line, evidence and pcap code: sequences of independent field checks and rendering, without state or interplay of their own.
