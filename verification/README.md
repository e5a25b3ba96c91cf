# 5GPN-Go: a model of its control plane, with proofs

This project models the parts of 5GPN-Go whose correctness rests on interleavings, on two-phase changes that may fail
half-way, or on a fast data structure standing in for a simple rule. Everything is plain Dafny; `dafny verify
dfyconfig.toml` checks the whole project.

| Files | Component |
|---|---|
| `Stores.dfy`, `Systemd.dfy`, `Applier.dfy` | the objects of the apply pipeline: database tables, systemd driver, applier |
| `ApplyMachine.dfy` | their goroutines interleaved at critical sections, over the NoOp and the systemd driver |
| `ApplyInvariant.dfy`, `ApplyRuns.dfy`, `ApplyTheorems.dfy` | what every step keeps, that every run keeps it, and what follows |
| `ApplyProgress.dfy`, `ApplyAnswers.dfy` | how many steps of its own a variation has, that it can always come to its end, and why it ends as it does |
| `DotConn.dfy`, `DotMachine.dfy` | the multiplexed DoT connection: the object, and every goroutine around it |
| `Upstream.dfy` | the primary/fallback race over such connections |
| `QuicAccount.dfy`, `QuicMachine.dfy`, `QuicProgress.dfy` | the QUIC forwarder's session accounting: the object, every goroutine around it, and that none is ever stuck |
| `Rules.dfy`, `RuleTable.dfy`, `DryRun.dfy`, `Mihomo.dfy` | rule sets, the resolver's index, and the two other readers of the same rules |
| `Answers.dfy` | the resolver's answer read off rules and query as they stand |
| `ClientHello.dfy`, `HelloGrammar.dfy`, `Sse.dfy`, `Logical.dfy`, `LogicalGrammar.dfy` | parsers, each against a printer, a grammar or a whole-input meaning |
| `Supervisor.dfy` | bounded restart |
| `Text.dfy` | strings: the operations, and letter case and outer blanks in words of their own |

How it is built. An object whose methods change its fields is a class whose methods are proved against functions and
predicates on values. Where goroutines share such an object, a state machine steps them one critical section at a time;
an action that is enabled may happen, so every interleaving is a run, and every theorem is about all runs. Machine and
class share the functions that say what a section makes: `Protect` and `Unprotect`, `Compensated`, `NewInfo`, `Stale`,
`TableOf`, `TerminalState`, `UpdateRow`, `Systemd.Lands` and `Systemd.Observed` for the apply pipeline, the functions of
`QuicAccount.Account` for the QUIC forwarder, those of `DotConn` for the DoT connection. Where the machine splits what
the object does under one lock or in one method, a lemma puts it together again
(`ApplyInvariant.StagesMakeTheCommit`, `QuicMachine.HalvesMakeTheSection`). What is the machine's own is the order of the
sections and who may run between them. What such a shared function means is in turn said without it: in the terms of a
caller's data in the contracts of the objects and in `ApplyAnswers`, `QuicMachine.ReservationAnswered`,
`DotMachine.ReplyIsHandedOver`, `Answers`, `HelloGrammar` and `LogicalGrammar`. A file write, unit reload, probe, database statement, dial, read, write or timer
may succeed or fail at every step. The locks `applyMu`, `a.mu`, `resourceMu` and the variation gate carry their holder in
the machines; that the code's booleans suffice is part of what is proved. `synced` in the apply machine, and the counters of locks taken and of statements, writes, reloads and probes that failed
in the objects, are bookkeeping that no step looks at; no result over runs assumes `synced`. The fault counters say why a
call ends as it does: it fails only by what they count, and succeeds when they stand still.

Conventions. Strings are ASCII. A SQL statement or transaction that fails changes nothing. A resolver table is
represented by what it answers with, the enabled rules in scan order (`RuleTable.BuildTable` is proved to build a table
with exactly that meaning). `attempts` in a status row counts the terminal updates aimed at it, whether or not the
database took them.

## What the code turned out to do

- A suffix pattern that normalizes to the empty string is stored at the trie root, which `lookup` never tests. The rule
  is honoured exactly when this is not the case (`RuleTable.SuffixRuleHonoured`, `RuleTable.BlankSuffixExample`).
  A whole list is answered as it reads unless the first rule that reads as a match is such a rule
  (`RuleTable.ListHonoured`, with the exact condition).
- The dry run keeps trailing dots and outer space where the resolver drops one dot and the space
  (`DryRun.TrailingDotDisagrees`). They see a rule alike exactly under `DryRun.SeenAlike`: equal final dots, or no match
  once the dots are gone; no blank suffix pattern that the dry run honours; a keyword that occurs inside the resolver's
  name if it occurs at all; no address range or hint that the dry run honours (`DryRun.RuleAgreesExactly`). A list is
  judged alike unless they dispute a rule; then exactly when that rule's action is of the class that the side passing
  over it finds in the list without it (`DryRun.DryRunAgrees`).
- A reported rollback always restores the files, but it reloads all three units, so a unit that had been running
  something other than its file comes out running the file (`Systemd.RollbackIsExact`, `Systemd.OutOfSyncRollback`).
- `forget` compares the connection but not the channel. A query that was answered but has not looked yet can, when
  cancelled after its ID has wrapped round, remove the live entry of another query on the same connection
  (`DotMachine.ForgetSparesOthers` gives the exact condition, `DotMachine.ForgetHitsAStranger` a reachable run).
- A health observation whose context ends during the delay reaches no observer, so its variation keeps the gate and no
  later variation is ever admitted (`ApplyTheorems.CutOffBlocksForever`). That takes a driver with a health check and a
  positive delay, and an observation that leaves the delay no earlier than delay, timeout and thirty seconds after its
  start (`ApplyTheorems.CutOffOnlyWhenLate`); under every such driver there is a run that gets there
  (`ApplyTheorems.CutOffReached`). With a timeout below minus thirty seconds no lateness is needed. In every other
  reachable state somebody can step (`ApplyTheorems.SomebodyCanStep`), and a variation that has not been cut off can
  reach its end within its rank of further steps (`ApplyProgress.EveryVariationCanEnd`).
- `rollbackRuleApply` and the second `commitRuleApply` never have anything to do
  (`ApplyTheorems.UnpublishReturnsAtOnce`, `ApplyTheorems.RecommitReturnsAtOnce`), so the applier never calls the
  driver's `Rollback`. It could not help the observer anyway: `applyMu` is still held then, and the call is refused
  (`Applier.Applier.OnRuleHealth`).
- A switch ends with its target active but unconfirmed exactly when its own compensation met a store fault
  (`ApplyTheorems.StrandedExactlyByFault`), which can happen under either driver (`ApplyTheorems.StrandedReached`).
- Setting `closed` does not stop a QUIC promotion that has passed its test: a session can be stored afterwards
  (`QuicMachine.PromotionCrossesClose`). Once `closed` is set one can still be added exactly while some promotion is past
  its test (`QuicMachine.LastPromotions`), and none is added after the shutdown snapshot, because that waits for
  `resourceMu` (`QuicMachine.NoneAddedAfterSnapshot`).
- The QUIC ClientHello parser ignores the length in the message header, so it can find a name the TCP parser refuses
  (`ClientHello.QuicAgrees` gives the exact condition, `ClientHello.ShortHeaderExample` such a message).
- A log line arrives as the one event it was exactly when it holds no newline and does not end in a carriage return
  (`Sse.ArrivesAsSent`). Otherwise the reader takes its lines one by one: a blank line ends an event, only the first line
  and those that happen to start with `data:` are kept, and text is lost for good (`Sse.NewlineLosesText`); one line can
  arrive as two events (`Sse.ArrivesAsTwo`).

## Model

| member | source | states |
|---|---|---|
| `ApplyTheorems.PublishedFollowsActive` | internal/core/applier.go:730-748 | in every reachable state, under either driver, the published table is the enabled rules of the active version in scan order, or empty without one, except between the two writes of a commit |
| `ApplyAnswers.RecordedState` | internal/core/applier.go:111-419 | over any interleaving, the state a variation records is confirmed exactly when no step of its own turned it down, failed exactly when a way back or the driver's snapshot failed, and else rolled_back, also behind a busy driver |
| `ApplyAnswers.NextAnswers` | internal/core/applier.go:118-183 | at every stage a variation goes on exactly under that stage's condition written out: the target is stored for that snapshot and parses, the version in force parses, the caller named no snapshot or the one in force, the exit exists, the step worked |
| `ApplyAnswers.InForceExactly` | internal/core/applier.go:111-419 | when it leaves the gate, its request is in force exactly when no step turned it down |
| `ApplyAnswers.GoodRequestCanBeConfirmed` | internal/core/applier.go:118-256 | from every reachable state a variation that has just begun, by an up-to-date caller and over data that meets its request, has a way to the release of the gate with the request in force |
| `ApplyAnswers.AdmittedWhenFree` | internal/core/applier.go:565-573 | in every reachable state a variation is admitted exactly when nobody is varying |
| `ApplyAnswers.DeleteAnswered` | internal/core/applier.go:608-618 | a delete is turned away as in flight exactly for a side of the switch in hand, and of any other inactive exit goes through when the store takes it |
| `ApplyTheorems.RuleApplyOutcome` | internal/core/applier.go:204-255 | at the terminal write of a rules apply: confirmed means active version and table are the target's, rolled_back or failed means both are the prior's; its row is still open |
| `ApplyTheorems.UnconfirmedApplyLeavesNoTrace` | internal/core/applier.go:511-563 | a rules apply that does not end confirmed leaves version and table as they were when it entered the gate, whatever ran in between, on the starter's or the observer's path |
| `ApplyTheorems.SwitchOutcome` | internal/core/applier.go:360-416 | at the terminal write of a switch: the prior exit is active exactly when it has been put back, else the target; confirmed was not put back, rolled_back was; both sides exist and the row is still open |
| `ApplyTheorems.UnconfirmedSwitchLeavesNoTrace` | internal/core/applier.go:581-603 | a switch that could put the prior exit back, so every rolled_back one and every failed one whose own compensation worked, leaves the exit active that was active when it entered the gate, whatever failed on the host or earlier; no switch touches the rule version |
| `ApplyTheorems.EndOfVariation` | internal/core/applier.go:118-419 | when any variation is about to leave the gate, on every path from the first read error to the observer: its request is in force and nothing else moved, or version and exit are as it found them, or it is a switch whose compensation failed |
| `ApplyTheorems.StrandedExactlyByFault` | internal/core/applier.go:421-446 | a switch leaves its target active and unconfirmed if and only if its own compensation met a store fault |
| `ApplyTheorems.StrandedReached` | internal/core/applier.go:313-325 | under either driver a run from one active exit in which a switch to another ends stranded: assembling fails, then putting the prior exit back |
| `ApplyTheorems.OneActiveExit` | internal/exit/store.go:173-204 | from one active exit, every run of switches, adds, deletes and observers keeps exactly one, and it exists |
| `ApplyTheorems.CompensationFindsPrior` | internal/core/applier.go:421-446 | a compensation always finds the prior exit, so only a store fault can fail it |
| `ApplyTheorems.DeleteSparesSwitch` | internal/core/applier.go:605-618 | a delete between its lookup and its removal holds neither the active exit nor a side of a switch in flight |
| `ApplyTheorems.ProtectionOnlyDuringSwitch` | internal/core/applier.go:680-706 | the protection counts are empty whenever no switch is in hand |
| `ApplyTheorems.OneVariationAtATime` | internal/core/applier.go:565-579 | at most one rules apply or switch is inside the gate, and every admitted one but that has released it exactly once |
| `ApplyTheorems.RowsClosedOnce` | internal/core/applier.go:638-646 | every status row has had exactly one terminal update, except possibly the row of the variation in hand |
| `ApplyTheorems.RowsAreFinal` | internal/db/queries.go:424-443 | after its terminal update a row is never written again |
| `ApplyTheorems.RefusedOnlyBehindObserver` | internal/orchestrator/systemd.go:98-100 | inside the gate, the driver refuses as in flight only while a finished observer has yet to unlock |
| `ApplyTheorems.RecommitReturnsAtOnce` | internal/core/applier.go:226-243 | the commit repeated after a confirmed Apply always finds the apply committed |
| `ApplyTheorems.UnpublishReturnsAtOnce` | internal/core/applier.go:750-774 | rollbackRuleApply is only ever reached with nothing committed |
| `ApplyTheorems.IdleHostShowsDatabase` | internal/orchestrator/systemd.go:83-144 | under systemd and idle, if nothing failed to be put back since the start or since some variation's confirmed end, all three files and units show the active version's rules and the active exit |
| `ApplyTheorems.ConfirmedEndShowsDatabase` | internal/orchestrator/systemd.go:83-144 | a variation that ends with its request in force leaves all three files and units showing the database, whatever failed before it |
| `ApplyTheorems.CutOffBlocksForever` | internal/orchestrator/systemd.go:157-164 | after an observation that is cut off before its probe, the gate stays taken and nothing is admitted again |
| `ApplyTheorems.CutOffOnlyWhenLate` | internal/orchestrator/systemd.go:153-164 | only with a health check and a positive delay can an observation be cut off, and only out of a delay that took delay, timeout and thirty seconds or more |
| `ApplyTheorems.CutOffReached` | internal/orchestrator/systemd.go:153-164 | under every such driver, and for every such lateness, a run reaches it |
| `ApplyTheorems.SomebodyCanStep` | internal/core/applier.go:111-419 | in every reachable state with a variation in hand that was not cut off, it, or a delete holding a.mu, can step |
| `ApplyProgress.StepLowers` | internal/core/applier.go:111-419 | every step of the variation in hand lowers its rank, and no step of anyone else moves it |
| `ApplyProgress.VariationsAreShort` | internal/core/applier.go:111-603 | a rules apply makes at most sixteen steps of its own before it leaves the gate, a switch at most eighteen, over any interleaving |
| `ApplyProgress.EveryVariationCanEnd` | internal/core/applier.go:111-603 | from every reachable state a variation that is not cut off has a path out of the gate no longer than its rank, a delete in progress and the release |
| `ApplyRuns.RunInv` | internal/core/applier.go:41-58 | every reachable state satisfies the invariant |
| `ApplyRuns.StepKeepsInv` | internal/core/applier.go:41-58 | every action of every goroutine keeps it |
| `ApplyInvariant.NextKeeps` | internal/core/applier.go:111-603 | every step of the variation in hand keeps the facts on versions, table, exits, rows and host |
| `ApplyInvariant.RuleStartKeeps` | internal/core/applier.go:118-183 | reading, assembling, inserting the row and registering keep the facts |
| `ApplyInvariant.SwitchStartKeeps` | internal/core/applier.go:291-346 | reading the active exit, protecting, switching, assembling and inserting keep the facts, on every error path |
| `ApplyInvariant.DrivingKeeps` | internal/orchestrator/systemd.go:94-203 | dispatch, host changes, commit, probing and both ways back keep the facts, under either driver |
| `ApplyInvariant.FinishingKeeps` | internal/core/applier.go:511-603 | compensating, writing the terminal state and clearing keep the facts |
| `ApplyInvariant.UnprotectingKeeps` | internal/core/applier.go:307-311 | giving up protection leaves the counts empty |
| `ApplyInvariant.RemoveKeeps` | internal/exit/store.go:148-171 | removing an exit that is unprotected and inactive keeps the facts |
| `ApplyInvariant.NextApplyMu` | internal/orchestrator/systemd.go:98-151 | applyMu is released exactly at the steps that give up its ownership |
| `ApplyInvariant.NextSparesDeletes` | internal/core/applier.go:608-618 | no step of a variation activates an exit a delete has found unprotected |
| `Systemd.Systemd.Apply` | internal/orchestrator/systemd.go:94-144 | what the host looks like after each result, when the commit callback runs and what it sees, the confirmed config, and that applyMu is taken once and released once unless an observation goes on; it fails exactly when the snapshot or a way back met a fault, and without any fault it is confirmed, observing, or rolled back by the commit |
| `Systemd.Systemd.BeginApply` | internal/orchestrator/systemd.go:94-130 | Apply up to the loaded config: either over, with the host where the result says and applyMu released, or holding applyMu over a host in sync with the request; over exactly when it was busy or a step failed, failed exactly when the snapshot or the way back did |
| `Systemd.Systemd.Settle` | internal/orchestrator/systemd.go:190-203 | commit or the way back, and the confirmed config, with applyMu still held; failed exactly when the way back met a fault |
| `Systemd.Systemd.Probe` | internal/orchestrator/systemd.go:150-177 | the delay and the probe: late only past the whole budget of the context, unhealthy exactly after a failed probe, with the way back taken and failed exactly when that met a fault, or healthy with the host untouched |
| `Systemd.Systemd.ObserveHealth` | internal/orchestrator/systemd.go:150-188 | the same for the background observation, which always releases applyMu and reaches no observer only when its delay outlasted the budget |
| `Systemd.Systemd.CommitOrRestore` | internal/orchestrator/systemd.go:190-203 | a failed commit puts files and units back, and reports so exactly when no write or reload of the way back failed |
| `Systemd.Systemd.RestoreAndReload` | internal/orchestrator/systemd.go:213-222 | every file is back and every unit runs its file, exactly when no write or reload failed |
| `Systemd.Systemd.Rollback` | internal/orchestrator/systemd.go:228-258 | reapplies the last confirmed config when nothing fails, else compensates, which works exactly when no step of it fails |
| `Systemd.Systemd.Render` | internal/orchestrator/systemd.go:271-282 | stops at the first file that fails, with the earlier ones replaced whole |
| `Systemd.Systemd.Restore` | internal/orchestrator/systemd.go:342-370 | goes on after a failure; success means contents and existence of all three files are back |
| `Systemd.Systemd.ReloadUnits` | internal/orchestrator/systemd.go:401-419 | stops at the first unit that fails, whose state is then unknown |
| `Systemd.RollbackIsExact` | internal/orchestrator/systemd.go:111-130 | a reported rollback restores the files, and the loaded configs exactly when no reload was reached or they were those of the files |
| `Systemd.OutOfSyncRollback` | internal/orchestrator/systemd.go:121-130 | from every host with a unit that runs something other than its file, the steps of an Apply whose first reload fails and whose way back works lead to a reported rollback that leaves the unit running the file |
| `Systemd.StaysInSync` | internal/orchestrator/systemd.go:94-144 | from a host in sync every result but failed leaves it in sync, with the old or the new config |
| `Applier.Applier.ApplyRules` | internal/core/applier.go:111-256 | one whole call over either driver: it gets past its reads only for a stored version of that snapshot that parses and a caller who named no snapshot or the one in force, and such a call is confirmed, or observed, when nothing fails; behind a busy driver rolled back, failed exactly by a snapshot or a way back that failed; confirmed moved version, table and host to the target, every other end left version and table alone; a client that asks for the row is told the state the call returns, or submitted while it is observed; the in-flight entry, applyMu and the gate afterwards |
| `Applier.Applier.ImportRules` | internal/core/applier.go:450-481 | text that does not parse stores nothing; a stored version is active afterwards exactly when its apply was confirmed, and it is when nothing fails and nobody is in the way |
| `Applier.Applier.SwitchExit` | internal/core/applier.go:278-419 | the same for the active exit: the target is active afterwards exactly when the call is confirmed, watching or stranded, also after an error before the status row; from an active exit stranded needs a store fault in putting it back; behind a busy driver rolled back unless stranded; failed exactly by the driver's way back or by that fault; confirmed, or observed, when nothing fails; a client that asks is told the state the call returns; protection outlives the call only while watching |
| `Applier.Applier.OnRuleHealth` | internal/core/applier.go:511-563 | the observer's call for a rules apply, whatever it finds committed: rolled back takes a commit back when the database takes it, confirmed makes it if it is missing, and when that fails the data plane is asked to roll back, which is refused while applyMu is held and otherwise works when nothing fails |
| `Applier.Applier.OnSwitchHealth` | internal/core/applier.go:581-603 | the observer's call for a switch: unless confirmed the prior exit is back or the state is failed and the store has faulted, the protection of both sides is given up and the gate freed |
| `Applier.Applier.ObserveRules` | internal/orchestrator/systemd.go:150-188 | a whole observation of a rules apply with commit callback and observer: confirmed moved version, table and host, every other end left version and table alone, rolled back has the host as it was, failed exactly when the way back met a fault, confirmed when nothing failed; one that was cut off keeps row, entry and gate |
| `Applier.Applier.ObserveSwitch` | internal/orchestrator/systemd.go:150-188 | the same for a switch: rolled back means the prior exit and the host are both back |
| `Applier.Applier.CallDriver` | internal/orchestrator/systemd.go:94-144 | either driver's Apply with the applier's own commit callback inside: confirmed with a callback means committed, anything else that version and table have not moved; the host is where the result says |
| `Applier.Applier.NoOpApply` | internal/orchestrator/noop.go:17-26 | the NoOp driver confirms, unless its commit callback refuses |
| `Applier.Applier.Assemble` | internal/core/assemble.go:53-92 | an assembled config has the rules of the active version and the active exit, and there is one exactly when every read works and the version parses |
| `Applier.Applier.Plan` | internal/core/applier.go:128-169 | a plan is made exactly when every read works, for a target that exists, belongs to the snapshot and parses, and a caller who named no snapshot or the one in force; it records the active version and the config |
| `Applier.Applier.BeginVariation` | internal/core/applier.go:565-573 | admits exactly when nobody is inside |
| `Applier.Applier.EndVariation` | internal/core/applier.go:575-579 | leaves the gate free |
| `Applier.Applier.ProtectSwitchExits` | internal/core/applier.go:680-691 | counts each named exit |
| `Applier.Applier.UnprotectSwitchExits` | internal/core/applier.go:693-706 | takes the counts back |
| `Applier.UnprotectUndoesProtect` | internal/core/applier.go:680-706 | one switch's unprotect restores the counts of all others, also when both sides are the same exit or empty |
| `Applier.ProtectCounts` | internal/core/applier.go:680-691 | protection adds each named exit's multiplicity and nothing else |
| `Applier.Applier.TakeSwitchInflight` | internal/core/applier.go:791-799 | hands the entry out at most once |
| `Applier.Applier.DeleteExit` | internal/core/applier.go:608-618 | refuses either side of a switch in flight and never removes the active exit |
| `Applier.Applier.CommitRuleApply` | internal/core/applier.go:730-748 | version and table move together or not at all, and only once |
| `Applier.Applier.RollbackRuleApply` | internal/core/applier.go:750-774 | takes both back together, and only what was committed |
| `Applier.Applier.CompensateSwitch` | internal/core/applier.go:423-446 | restores the prior exit or turns the terminal state into failed; with the prior exit present the latter is a store fault |
| `Applier.Applier.RecordTerminalStatus` | internal/core/applier.go:648-663 | keeps the newest statuses, at most 128, evicting the oldest |
| `Applier.Applier.ClearTerminalStatus` | internal/core/applier.go:665-678 | removes exactly that entry |
| `Applier.Applier.PersistApplyStatus` | internal/core/applier.go:638-646 | a client that asks is told the state, from the row or, when the database did not take it, from memory |
| `Stores.ExitStore.Switch` | internal/exit/store.go:176-204 | exactly the named exit is active afterwards and no row has moved, or nothing changed; the single-active index holds; without a fault it is refused exactly for an exit there is not |
| `Stores.ExitStore.Delete` | internal/exit/store.go:148-171 | removes that row only, never the active one; without a fault the answer is decided by the rows |
| `Stores.ExitStore.Add` | internal/exit/store.go:107-144 | appends an inactive row with a fresh valid id, or nothing |
| `Stores.ExitStore.Active` | internal/exit/store.go:207-225 | the one active id, or none |
| `Stores.ActiveFirst` | internal/exit/store.go:72-102 | the list is the active exit followed by all others in the order of their creation |
| `Stores.ExitStore.List` | internal/exit/store.go:72-102 | lists every exit, the active ones first |
| `Stores.SwitchedRows` | internal/exit/store.go:194-199 | demote-all then promote-one keeps both unique indexes |
| `Stores.DeletedView` | internal/exit/store.go:162-170 | deleting one id removes it from the ids and the active ids, and nothing else |
| `Stores.RuleVersions.SetActiveRuleVersion` | internal/db/queries.go:265-284 | exactly that version is active afterwards, or nothing changed |
| `Stores.RuleVersions.ClearActiveRuleVersion` | internal/db/queries.go:287-290 | no version is active afterwards, or nothing changed |
| `Stores.ApplyStatus.InsertApplyStatus` | internal/db/queries.go:412-422 | appends a submitted row |
| `Stores.ApplyStatus.UpdateApplyStatus` | internal/db/queries.go:425-443 | writes that row and no other |
| `DotConn.Conn.PickID` | internal/resolver/dotconn.go:140-149 | fails exactly when all 65,536 IDs are pending; otherwise the first free ID behind nextID in wrap-around order |
| `DotConn.ProbeReaches` | internal/resolver/dotconn.go:140-149 | the wrapping probe reaches every ID within one round |
| `DotConn.ProbeVisitsOnce` | internal/resolver/dotconn.go:140-149 | and visits each once |
| `DotConn.Conn.Register` | internal/resolver/dotconn.go:105-138 | the four outcomes of one pass, and the entry it adds |
| `DotConn.Conn.Forget` | internal/resolver/dotconn.go:151-157 | removes the entry of that ID when it is pinned to that connection |
| `DotConn.Conn.Dispatch` | internal/resolver/dotconn.go:224-231 | hands out a waiter only of the same connection and ID |
| `DotConn.Conn.Install` | internal/resolver/dotconn.go:191-206 | installs only when open and nothing is installed |
| `DotConn.Conn.Retire` | internal/resolver/dotconn.go:258-270 | collects exactly the waiters of one connection and leaves a replacement alone |
| `DotConn.Conn.Close` | internal/resolver/dotconn.go:282-294 | collects every waiter; a second call changes nothing |
| `DotMachine.ReachablePinned` | internal/resolver/dotconn.go:38-45 | every pending entry is pinned to the installed connection, and there is none when there is none |
| `DotMachine.EachWaiterGetsOneValue` | internal/resolver/dotconn.go:216-278 | a channel gets exactly one value if its entry was removed by reader, retire or close, none if by forget, never finds its slot full, and a reply in it is of its own connection and ID |
| `DotMachine.ReplyAnswersItsQuery` | internal/resolver/dotconn.go:84-89 | what a query receives was read from the connection it wrote to, under the ID it wrote |
| `DotMachine.ReplyIsHandedOver` | internal/resolver/dotconn.go:216-237 | in every reachable state a reply read on a connection goes to the one channel waiting for its ID there and fills it, and without one changes nothing |
| `DotMachine.RegistrationAnswered` | internal/resolver/dotconn.go:105-138 | a query registers on an open, connected object under an ID nobody waits on exactly when there is one |
| `DotMachine.StopsAskingOnlyFor` | internal/resolver/dotconn.go:66-138 | a query stops asking only because its context ended, its dial or write failed, its deadline passed, it has its value, all IDs are taken or the object is closed; losing the race to install a connection is none of these |
| `DotMachine.RetirementTakesItsWaiters` | internal/resolver/dotconn.go:258-270 | retiring a connection takes exactly the waiters of that connection |
| `DotMachine.ConnectionsNeverReturn` | internal/resolver/dotconn.go:168-210 | every dialed connection is with its dialer, installed, being retired or closed; at most one is installed; a retired one never again |
| `DotMachine.ClosedForGood` | internal/resolver/dotconn.go:282-308 | after close nothing is installed or pending and every register fails |
| `DotMachine.ForgetSparesOthers` | internal/resolver/dotconn.go:151-157 | the exact condition under which a cancelled query's forget leaves every other waiter alone |
| `DotMachine.ForgetHitsAStranger` | internal/resolver/dotconn.go:151-157 | a reachable run in which it does not |
| `DotMachine.RunInv` | internal/resolver/dotconn.go:23-36 | every reachable state satisfies the invariant |
| `DotMachine.StepKeepsInv` | internal/resolver/dotconn.go:66-308 | every action of every goroutine keeps it |
| `Upstream.QueryRace` | internal/resolver/upstream.go:167-273 | only an accepted reply of a fired query is returned, with rcode 0, 3, 6 or 8; failure only at the deadline (8 s unless set), on cancellation, or when every query of both pools has reported, and by the last error or refusal that was read; each address of each pool is queried at most once, in order, the fallback on time; the primary pool is cn for direct in any case, else proxy |
| `Upstream.FiredAtMostOnce` | internal/resolver/upstream.go:185-236 | no query of either pool is ever fired twice, and each goes to its own address |
| `Upstream.PrimaryExactly` | internal/resolver/upstream.go:136-141 | direct in any case has the cn pool, everything else the proxy pool |
| `Upstream.CapacitySuffices` | internal/resolver/upstream.go:194-208 | results seen never exceed sends, counted with repetition, which never exceed the channel's capacity; all expected results seen means every query of both pools has reported, once |
| `Upstream.DelayWithinTimeout` | internal/resolver/upstream.go:174-184 | the fallback delay is never negative and never past the deadline, and what was configured when that already holds |
| `QuicMachine.ReachableBooks` | internal/proxy/quicforward/server.go:475-539 | reserved is pending plus established plus what a promotion or a drop in progress owes, perIP the same by address, keys disjoint, all three caps hold |
| `QuicMachine.ReservationAnswered` | internal/proxy/quicforward/server.go:475-497 | in every reachable state an open server reserves for a named client exactly unless it is known or what is pending, live or owed is at one of the three caps, counted |
| `QuicMachine.PromotionAnswered` | internal/proxy/quicforward/server.go:499-512 | a set-up that asks still has its reservation and is promoted exactly unless the server has closed; its session and no other is stored |
| `QuicMachine.ReleaseNeverUnderflows` | internal/proxy/quicforward/server.go:524-539 | the guards in the release are never what prevents an underflow |
| `QuicMachine.NoneAddedAfterSnapshot` | internal/proxy/quicforward/server.go:190-244 | no session is added once the shutdown snapshot is taken |
| `QuicMachine.PromotionCrossesClose` | internal/proxy/quicforward/server.go:499-512 | a run in which a session is stored after closed is set |
| `QuicMachine.LastPromotions` | internal/proxy/quicforward/server.go:499-512 | once closed is set, a run can go on to add a session if and only if some promotion is past its test of closed |
| `QuicMachine.HalvesMakeTheSection` | internal/proxy/quicforward/server.go:475-512 | the two halves of reserve and of promote, with no shutdown in between, make what the object makes under one lock |
| `QuicMachine.SnapshotCoversAll` | internal/proxy/quicforward/server.go:190-244 | the shutdown snapshot covers every live session, and none is left when it waits |
| `QuicMachine.DeadStaysDead` | internal/proxy/quicforward/server.go:437-446 | a dropped session never comes back under its identity |
| `QuicMachine.StaleDropIsHarmless` | internal/proxy/quicforward/server.go:437-446 | dropping a stale session neither removes its replacement nor releases its count |
| `QuicMachine.DoneMeansEmpty` | internal/proxy/quicforward/server.go:190-244 | once done is closed every goroutine is gone, there are no sessions or pending entries and all counts are zero |
| `QuicProgress.ShutdownNeverStuck` | internal/proxy/quicforward/server.go:190-244 | once closed is set and until every goroutine is gone, in every reachable state some goroutine can take a step that takes it on |
| `QuicProgress.LocksAreHeld` | internal/proxy/quicforward/server.go:475-539 | a lock that is taken is held by a goroutine inside its section |
| `QuicMachine.DoneReached` | internal/proxy/quicforward/server.go:190-244 | a run in which a started server shuts down and gets there |
| `QuicMachine.RunInv` | internal/proxy/quicforward/server.go:246-359 | every reachable state satisfies the invariant |
| `QuicMachine.StepKeepsInv` | internal/proxy/quicforward/server.go:246-562 | every action of every goroutine keeps it |
| `QuicAccount.Server.TryReserveSession` | internal/proxy/quicforward/server.go:475-497 | on balanced books an open server lets a client in exactly when it is not known, the set-ups are below their cap, all sessions below theirs and those of its address, counted, below theirs; then only its entry is added, and the books still balance |
| `QuicAccount.Server.PromoteSession` | internal/proxy/quicforward/server.go:499-512 | exactly a reservation of that client and address becomes its session, or is given back by a closed server; without one nothing changes, and balanced books stay balanced |
| `QuicAccount.Server.ReleasePending` | internal/proxy/quicforward/server.go:514-522 | removes exactly a reservation of that client and address, with the books still balanced |
| `QuicAccount.Server.ReleaseCountLocked` | internal/proxy/quicforward/server.go:530-539 | lowers both counts |
| `QuicAccount.Server.DropSession` | internal/proxy/quicforward/server.go:437-446 | drops only the expected session |
| `QuicAccount.Server.ReapIdle` | internal/proxy/quicforward/server.go:541-562 | drops exactly the idle sessions and keeps the books balanced |
| `QuicAccount.RefusedOnlyAtCaps` | internal/proxy/quicforward/server.go:475-497 | the same for any sessions already taken out of the map and not yet counted down |
| `QuicAccount.ReserveBalanced` | internal/proxy/quicforward/server.go:475-497 | reserving keeps the books balanced |
| `QuicAccount.PendingReleasedBalanced` | internal/proxy/quicforward/server.go:514-522 | releasing a reservation keeps them balanced |
| `QuicAccount.UnpendBalanced` | internal/proxy/quicforward/server.go:499-512 | taking the reservation out of the pending map opens a window in which its promoter owes it |
| `QuicAccount.StoreBalanced` | internal/proxy/quicforward/server.go:499-512 | storing the session closes it |
| `QuicAccount.DetachBalanced` | internal/proxy/quicforward/server.go:437-446 | removing a session opens the window in which its count is still owed |
| `QuicAccount.CountReleasedBalanced` | internal/proxy/quicforward/server.go:524-539 | releasing the count closes it |
| `RuleTable.BuildTable` | internal/resolver/ruletable.go:125-149 | a table whose answers are those of the enabled rules in scan order |
| `Answers.BuildAndClassify` | internal/resolver/classify.go:23-59 | for every rule list and name, the action of the first matching rule of the sorted enabled list, else of the MATCH rule, else proxy; the answer is the one the next row's reading allows |
| `Answers.AnsweredExactly` | internal/resolver/classify.go:23-59 | that answer is the only one allowed by a reading in words of its own: enabled rules by priority and position, names and patterns without outer blanks and a final dot and in small letters, the first rule that hits, the first MATCH with an action, block, reject and direct in any case |
| `Answers.StandsForExactly` | internal/resolver/ruletable.go:102-105 | a name or pattern stands for itself without outer blanks and one final dot, in small letters, and for nothing else |
| `Answers.ComparedAsItStands` | internal/resolver/ruletable.go:102-105 | a name in small letters with no outer blank and no final dot is compared as it is |
| `Answers.OuterBlanksAndDotIgnored` | internal/resolver/ruletable.go:102-105 | outer blanks, and one dot behind a name that has none, change nothing |
| `Answers.HitsExactly` | internal/resolver/classify.go:23-59 | which names a rule of each kind hits, in those terms |
| `Answers.AsksForExactly` | internal/resolver/classify.go:58-67 | block, reject and direct in any case and between any blanks; everything else is the proxy |
| `Answers.CaseNeverMatters` | internal/resolver/ruletable.go:102-105 | two names, and two rule lists, that differ only in letter case get the same answer |
| `RuleTable.RuleTable.Classify` | internal/resolver/classify.go:23-59 | the same for any table built so far |
| `RuleTable.RuleTable.BestByLabels` | internal/resolver/classify.go:23-50 | the best of exact map and trie is the first matching domain or suffix rule |
| `RuleTable.RuleTable.CompileRule` | internal/resolver/ruletable.go:151-175 | adds one rule behind all earlier ones |
| `RuleTable.SuffixTrie.Insert` | internal/resolver/ruletable.go:62-78 | stores the action at the label path unless a smaller rank is there |
| `RuleTable.SuffixTrie.Lookup` | internal/resolver/ruletable.go:83-100 | the smallest rank among the stored suffixes of the name, the root excepted |
| `RuleTable.LabelSuffix` | internal/rules/dryrun.go:119-126 | a label suffix is the name itself or what follows a dot |
| `RuleTable.SuffixRuleHonoured` | internal/resolver/ruletable.go:83-99 | exactly when a suffix rule means what it says |
| `RuleTable.ListHonoured` | internal/resolver/classify.go:23-59 | exactly when a whole list is answered as it reads |
| `RuleTable.BlankSuffixExample` | internal/resolver/ruletable.go:83-99 | a blank suffix pattern that is not honoured |
| `Rules.StableSortIsStable` | internal/resolver/ruletable.go:125-135 | the sort by priority is ordered, a permutation, and keeps the order within a priority |
| `Rules.StableOrderIsUnique` | internal/config/render/mihomo.go:114-135 | any two such orders are equal |
| `Rules.FilterCommutesWithSort` | internal/config/render/mihomo.go:114-135 | filtering before or after the sort gives the same order |
| `Rules.Validate` | internal/rules/model.go:113-145 | accepts exactly the sets whose rules have an id, an action and, but for MATCH, a pattern that is not blank, no comma or line break in either, whose ids are unique, and whose MATCH rule, if any, is the only one and behind all others by priority and position |
| `Rules.MatchLastCriterion` | internal/rules/model.go:113-145 | the pairwise test for a MATCH rule is exactly that it sorts last |
| `Rules.TwoMatchesInvalid` | internal/rules/model.go:113-145 | two MATCH rules never sort last |
| `DryRun.Run` | internal/rules/dryrun.go:36-75 | each fixture's report is that of the first hit in scan order |
| `DryRun.FindMatch` | internal/rules/dryrun.go:77-85 | the first rule that matches |
| `DryRun.DryRunAgrees` | internal/rules/dryrun.go:87-126 | for every valid list and every fixture: the dry run's first hit has the resolver's action class if they dispute no rule before it; otherwise exactly when the disputed rule's action has the class that the side passing over it finds in the list without that rule |
| `DryRun.RuleAgreesExactly` | internal/rules/dryrun.go:87-126 | the exact condition under which both see one rule alike, for every kind of rule but MATCH |
| `DryRun.TrailingDotDisagrees` | internal/rules/dryrun.go:115-126 | with a trailing dot it does not |
| `DryRun.MatchLastInScan` | internal/rules/model.go:113-145 | in a valid set only the last scanned rule can be MATCH |
| `Mihomo.BuildRuleLines` | internal/config/render/mihomo.go:114-172 | the emitted lines, or an error exactly when some rule has none |
| `Mihomo.LineReadsBack` | internal/rules/model.go:49-66 | a rule has a line exactly when its action calls for something and, but for MATCH, its pattern is not blank; split at its commas the line gives the kind's name, the pattern and what the action calls for |
| `Mihomo.LinesTellApart` | internal/rules/model.go:49-66 | rules with the same line have the same kind, pattern and target |
| `Mihomo.CallsForExactly` | internal/config/render/mihomo.go:174-190 | REJECT, DIRECT and PROXY for their words in any case and between any blanks, else the exit of that name, else an error |
| `Mihomo.LastMatchIsEnabledMatch` | internal/config/render/mihomo.go:120-133 | of several enabled MATCH rules the last one written is emitted, whatever its priority |
| `Mihomo.EmittedIsScanOrder` | internal/config/render/mihomo.go:114-172 | the emitted order is the scan order |
| `Mihomo.LinesFollowScan` | internal/config/render/mihomo.go:114-172 | line by line, with the synthetic MATCH only when there is none |
| `Mihomo.SameActionClass` | internal/config/render/mihomo.go:174-190 | REJECT and DIRECT exactly when the resolver blocks and goes direct |
| `ClientHello.ExtractSNIFromHandshake` | internal/proxy/sniforward/peek.go:93-161 | inside bounds on every byte string, computes the server name by structure |
| `ClientHello.ParseServerNameList` | internal/proxy/sniforward/peek.go:168-189 | the first host_name of the list |
| `ClientHello.PeekSNI` | internal/proxy/sniforward/peek.go:53-76 | once a whole record was read, what is replayed is that record, with a name or the parse error; every earlier end hands back the five header bytes or nothing, by what the stream holds |
| `ClientHello.SniFromClientHello` | internal/proxy/quicforward/parse.go:305-386 | the offset walk computes the same structure, first list entry only |
| `ClientHello.ExtractPrinted` | internal/proxy/sniforward/peek.go:78-161 | parsing undoes printing: the first host_name of the first server_name extension |
| `ClientHello.QuicExtractPrinted` | internal/proxy/quicforward/parse.go:302-386 | the QUIC parser finds it exactly when the first list entry is a host_name |
| `ClientHello.QuicAgrees` | internal/proxy/quicforward/parse.go:302-386 | on every message, in a record or bare: the TCP parser finds a name in a list that starts with a host_name exactly when the QUIC parser finds it and the header length reaches the end of the extensions and not past the data |
| `HelloGrammar.ExtractExactly` | internal/proxy/sniforward/peek.go:78-189 | on any bytes at all the parser answers a name, or none, exactly when the grammar of the message reads them so, and malformed exactly when it does not read them |
| `HelloGrammar.QuicExactly` | internal/proxy/quicforward/parse.go:302-386 | the QUIC parser finds a name in any bytes exactly when its own grammar has it: a record or a bare message, no length in the message header, the first list entry |
| `ClientHello.HeaderLengthIgnored` | internal/proxy/quicforward/parse.go:302-386 | the QUIC parser finds the same whatever the message header gives as length; at length zero the TCP parser refuses |
| `ClientHello.ShortHeaderExample` | internal/proxy/quicforward/parse.go:302-386 | a message that only the QUIC parser finds a name in |
| `ClientHello.QuicFinds` | internal/proxy/quicforward/parse.go:302-386 | on all data, the QUIC parser finds a name exactly when the message structure holds it and the first list entry is a host_name |
| `ClientHello.ReadVarint` | internal/proxy/quicforward/parse.go:166-189 | value and size, or size 0 exactly when the buffer is short |
| `ClientHello.VarintPrinted` | internal/proxy/quicforward/parse.go:164-189 | every value survives every size that can hold it |
| `ClientHello.VarintCut` | internal/proxy/quicforward/parse.go:166-189 | and every proper prefix of it is refused |
| `Sse.ParseSSEFrames` | web/src/api/sse.ts:8-23 | the events and remainder of a text |
| `Sse.FirstTerminatorStands` | web/src/api/sse.ts:12-15 | later text never moves the first terminator |
| `Sse.ParseResumes` | web/src/api/sse.ts:43-52 | parsing the remainder with the next chunk is parsing it all |
| `Sse.StreamSSE` | web/src/api/sse.ts:43-52 | however the text is cut, the events and the remainder are those of the whole |
| `Sse.ChunkingIsIrrelevant` | web/src/api/sse.ts:43-52 | the same as a law of the parser |
| `Sse.EventReadsBack` | web/src/api/sse.ts:8-23 | an event's lines are what the data lines of its frame hold, in order, and no other line leaves a trace |
| `Sse.HoldsExactly` | web/src/api/sse.ts:16-19 | a data line holds what follows the colon and at most one space |
| `Sse.ReadsLineByLine` | web/src/api/sse.ts:8-23 | on every text the terminator search delivers exactly what line-by-line reading delivers |
| `Sse.LinesArrive` | internal/api/logs.go:95-111 | whatever lines the server writes, newlines in them included, the reader delivers what each message says line by line, in order, and nothing for a keepalive |
| `Sse.OneLineArrives` | internal/api/logs.go:109-112 | a line without a newline arrives as it is, but for a carriage return at its end |
| `Sse.ArrivesAsSent` | internal/api/logs.go:109-112 | a line arrives as the one event it was if and only if it holds no newline and does not end in a carriage return |
| `Sse.NewlineLosesText` | web/src/api/sse.ts:8-23 | a line with a newline delivers less text than it holds, counting one character between events |
| `Sse.ArrivesAsTwo` | web/src/api/sse.ts:8-23 | a line with a blank line and a data line inside arrives as two events |
| `Sse.Deliver` | web/src/api/sse.ts:43-52 | the same through the chunked reader |
| `Logical.ParseLogical` | internal/rules/importlegacy.go:226-256 | the members and policy by structure |
| `Logical.SplitTopParens` | internal/rules/importlegacy.go:258-278 | the groups at the top level |
| `Logical.CsvSplit` | internal/rules/importlegacy.go:206-224 | computes the fields whose meaning the next two rows give |
| `Logical.CsvPrinted` | internal/rules/importlegacy.go:206-224 | splitting recovers what any printed fields say: quoted commas do not separate, quotes vanish, outer space is trimmed, an open quote runs to the end |
| `Logical.EveryTextPrinted` | internal/rules/importlegacy.go:206-224 | every text is printed from some such fields |
| `Logical.ParsePrinted` | internal/rules/importlegacy.go:226-278 | recovers exactly the members and policy of a printed line, for any balanced members |
| `LogicalGrammar.ParseExactly` | internal/rules/importlegacy.go:226-278 | on any line at all: nothing if its first parenthesis never closes, otherwise exactly the parenthesised parts between it and its partner, and the first field behind |
| `LogicalGrammar.GroupsExactly` | internal/rules/importlegacy.go:258-278 | the members of any balanced text are its parenthesised parts, whatever stands between them |
| `Supervisor.Supervisor.RecordRestart` | internal/frontdoor/supervisor.go:125-143 | allows a restart exactly when there were fewer than five crashes before, or the fifth last is sixty seconds old |
| `Supervisor.JudgedExactly` | internal/frontdoor/supervisor.go:125-143 | any six restarts span at least sixty seconds, and a refusal means five crashes in less |
| `Supervisor.Supervisor.Run` | internal/frontdoor/supervisor.go:67-111 | gives up exactly at the first crash that is not allowed, with the callback once in the object's life, and waits the listed backoffs |
| `Supervisor.NoWindowOverfull` | internal/frontdoor/supervisor.go:125-143 | no sixty seconds, wherever they end, hold more than five restarts |
| `Supervisor.LifeOfASupervisor` | internal/frontdoor/supervisor.go:37-48 | through any number of runs, all of the above, and the give-up callback once exactly if a crash was ever refused |

## Left out

- HTTP handlers, web pages, Telegram bot, installer, metrics, updater, mtg control: plumbing around I/O.
- TLS, ACME, sockets, systemctl and SQLite themselves: steps that succeed or fail; no SQL text, no file modes.
- QUIC Initial decryption, HKDF and `parseCryptoFrames`: not modelled, and no bounds claim is made for the latter.
- `rebuildAndPublish` and `Frontdoor.Reconcile`: not part of this model.
- GEOIP, GEOSITE and RULE-SET data, IP-CIDR tables, table hash and generation counter: not consulted when a name is classified.
- Unicode case folding, non-ASCII white space: names and patterns are ASCII.
- Writing the three files and reloading the three units is one step of the state machine, because only the holder of applyMu touches them; the failures part-way are in `Systemd.Systemd`.
- The whole-call methods of `Applier.Applier` run alone; what happens between their critical sections is the state machine's subject.
- The terminal-status fallback is modelled in the class `Applier.Applier` and not in the state machine.
- Audit rows, timestamps, log lines, and the text of error messages.
- The full list of exits in an assembled config: the machine keeps the rules and the exit listed first.
- Fairness: a peer that never answers and a scheduler that never runs a goroutine are allowed. What is proved of progress is that a variation has few steps of its own and, unless cut off, a path to its end.
- ApplyTheorems.SwitchOutcome: a switch that starts when no exit is active is not covered; the machine starts from one active exit. `Applier.Applier.SwitchExit` covers it for a call that runs alone.
- Upstream.QueryRace: which ready case a select takes, and what each address answers, is arbitrary; the address-to-connection map is not modelled.
- Supervisor.Supervisor.Run: over a finite list of attempts and a clock that does not go back.
