# K8squad, modelled and proved in Dafny

K8squad coordinates squads of agents on Kubernetes. This project models the parts of it where several
processes, leaders, browsers or deliveries meet over shared state, and the codecs that carry ids and lists
between them. Protocols are total step functions over explicit state, `StateAt` gives the state after any
prefix of any history, and the results are about every history. Code that updates an object, an array or a
map step by step is a class or a method with loops, proved against a specification function, and what the
source promises is then proved about that function.

| file | what it models |
|---|---|
| `Custody.dfy` | the work-item custody tables: claim, lease, fence, renew, complete, redrive, dispatch marker, fenced reclaim, sweeper |
| `RunMachine.dfy` | the crash-safe Run reconcile machine: fenced compare-and-set steps, idempotent effects, leaders racing with zombies |
| `Migrations.dfy` | the forward-only migration runner: file selection, N racing runners with crashes, and the loop itself |
| `TaskLog.dfy` | a task's event log, its terminal rules, subscribers that resume from a number, and the drive loop with its deliverable funnel |
| `Conformance.dfy` | the conformance suite: result recorder, wire checkers, scripted plan, and the suite over the modelled engine |
| `UriCodec.dfy` | `encodeURIComponent`/`decodeURIComponent` over UTF-16 and UTF-8, and the project-id codec on top |
| `Supervisor.dfy` | the in-pod supervisor: the busy flag, the once-only engine, the credential poller, and the two trace-parent chains |
| `Webhook.dfy` | the webhook receiver: admission semaphore, verify gate, trigger patch, counting |
| `Viewer.dfy` | the staleness guard of the artifact and build browsers |
| `RepoSync.dfy` | the level-triggered repo-sync loop |
| `SkillList.dfy` | skill lists and pinned revisions carried through environment variables |
| `Ownership.dfy` | the every-boot schema-ownership check |
| `DeepCopy.dfy` | generated deep copy of a Run status and its capability manifest, on a heap |
| `Basics.dfy` | definitions the other files share, among them the sort and the comma join |

Where a promise in the source's comments does not hold of the code, the code is kept, a lemma gives the
case, and another gives the exact condition:

- `subscribe` says it delivers events numbered above `fromSeq`. After a wait it does not skip again, so a
  number beyond the end of a live log is replayed (`Subscription.FutureResumeReplays`,
  `Subscription.NeverReplaysIff`).
- `submitTraceContext` says a later run never parents on the first run's span. An untraced run on a warm pod
  still does (`Supervisor.UntracedRunInheritsFirstTrace`, `TraceContext.CachedContextIrrelevantIff`).
- `encodeProjectId` says it collapses to exactly one layer. An id that itself contains a valid escape is
  rewritten, and a doubly encoded id keeps both layers (`ProjectId.OneLayerIff`,
  `ProjectId.UnsettledIdIsRewritten`, `ProjectId.TwiceEncodedKeepsTwoLayers`).
- The repo-sync mirror is said to follow the provider. The upsert never deletes
  (`RepoSync.MirrorEqualsLatestSnapshotIff`, `RepoSync.DeletedRecordStays`).
- A fenced reclaim is said to fence the dying holder. The fencer is called before the lease is looked at, so
  reclaiming an item under a live lease has its holder killed and is then refused, leaving the killed holder in
  possession (`Custody.LiveHolderIsFenced`, `Custody.FencesLiveHolderIff`).
- A cancelled run is said to promote no answer. A cancel that wins between the promotion and the terminal
  status leaves the promoted answer before the cancelled status (`Drive.LateCancelKeepsPromotion`,
  `Drive.CancelledRunPromotesIff`).
- A pinned skill's revision is meant to reach the shim under its name. Grants are distinct by namespace and
  name but printed by name alone, so of two same-named skills pinned apart one loses its pin
  (`SkillList.SameNamedSkillLosesItsPin`, `SkillList.EveryPinArrivesIff`).
- A retry lap is said to be a new agent attempt under a fresh task id. The driver labels a lap only once a
  labelled dispatch exists, so from admission no lap is ever labelled: every retry runs on the first lap's
  execution and the retry budget is never used up (`RunRace.SecondLapReusesExecution`,
  `RunRace.RetriesNeverReexecute`, `RunRace.LapsExecuteApartIff`).
- A standing child is meant to see the gateway's skill list. An empty list stamps nothing, so the child keeps
  the pod's own variable (`SkillList.InheritedSkillReachesChild`, `SkillList.ChildSeesGatewayListIff`).

## Model

| member | source | states |
|---|---|---|
| Custody.FenceCountsBumps | pkg/coord/coord.go:193-231 | after any history an item's fence is its first value plus the number of grants and sweeps of it |
| Custody.FenceNeverFalls | pkg/coord/coord.go:193-231 | fences are monotone over every history |
| Custody.IssuedFencesIncrease | pkg/coord/coord.go:193-231 | two grants of one item never issue the same fence, and the later one issues the larger |
| Custody.GrantExcludesLiveHolders | pkg/coord/coord.go:193-231 | nobody is granted an item while a holder's lease is alive |
| Custody.GrantInstallsCaller | pkg/coord/coord.go:138-231 | a grant by pop, acquire or reclaim installs exactly the caller, at the issued fence, with a full lease |
| Custody.HolderWasIssuedItsFence | pkg/coord/coord.go:193-231 | in every reachable state the holder of an item was issued that very fence by one earlier grant to that run |
| Custody.AcceptedWriteHasUnbrokenCustody | pkg/coord/coord.go:240-277 | an accepted renew or complete is preceded by the caller's own grant with no grant or sweep of the item in between |
| Custody.StaleFenceIsLockedOut | pkg/coord/coord.go:240-364 | once the fence moved past f, the holder of f can never again renew, complete or create a dispatch marker, its redrive's re-read is refused, and any grant a redrive falls through to issues a larger fence |
| Custody.DoneIsForever | pkg/coord/coord.go:263-277 | a done item stays done at the same fence whatever follows |
| Custody.CompletionIsFinal | pkg/coord/coord.go:263-277 | an item is completed at most once over every history |
| Custody.CompletionUsesNewestFence | pkg/coord/coord.go:263-277 | no fence larger than the completing one was ever issued, before or after |
| Custody.DoneIffCompleted | pkg/coord/coord.go:263-277 | from fresh items, an item is done exactly when some earlier command completed it |
| Custody.MarkerIsWriteOnce | pkg/coord/coord.go:340-364 | a run's dispatch marker never changes once written |
| Custody.MarkerHasOneLiveAuthor | pkg/coord/coord.go:340-364 | every marker was written by a dispatch whose caller then held the item for that run under a live lease |
| Custody.DispatchRepliesAgree | pkg/coord/coord.go:340-364 | all read-backs of one run that get an answer, with anything between insert and read, get the same task id |
| Custody.DispatchOfLiveHolderAnswers | pkg/coord/coord.go:340-364 | after a live holder's insert every read-back answers, with its task or the one already recorded |
| Custody.DispatchAnsweredIff | pkg/coord/coord.go:340-364 | a read-back is answered exactly when some live holder dispatched that run before |
| Custody.ReclaimFailsClosed | pkg/coord/coord.go:388-426 | a reclaim hands over exactly a free, unfinished item whose fencer, if wired, confirmed, after naming the recorded holder to it; otherwise the tables are as before |
| Custody.FencesLiveHolderIff | pkg/coord/coord.go:388-426 | in any history a live holder is fenced exactly by a reclaim with a fencer wired of an item under a live lease, and that reclaim is refused with the holder left in possession |
| Custody.LiveHolderIsFenced | pkg/coord/coord.go:388-426 | the case: a lease with time to run, a confirming fencer, a kill and a refusal |
| Custody.SweepersPartition | pkg/coord/sweeper.go:172-218 | two sweepers in either order reclaim disjoint sets and leave the tables one sweep of the union leaves |
| Custody.FullSweepFreesEveryLapsedItem | pkg/coord/sweeper.go:172-218 | after a full sweep every lapsed, unfinished item is open and can be acquired |
| Custody.PopFailsOnlyWhenContended | pkg/coord/coord.go:138-168 | the queue pop comes back empty exactly when every open item is locked by another transaction |
| Custody.RenewAcceptedIff | pkg/coord/coord.go:240-253 | accepted exactly from the live holder of an unfinished item at its fence; then the lease is the clock plus the interval and nothing else changed |
| Custody.CompleteAcceptedIff | pkg/coord/coord.go:263-277 | accepted exactly from the live holder of a claimed item at its fence; then the item is done and nothing else changed |
| Custody.RedriveReadIff | pkg/coord/coord.go:286-304 | the re-read returns the fence exactly to the live holder for that run, and changes nothing |
| Custody.AcquireGrantedIff | pkg/coord/coord.go:173-231 | granted exactly on an unfinished item that is unheld or whose lease is over; only that row changes |
| Custody.SweepTakesIff | pkg/coord/sweeper.go:172-218 | a sweep takes exactly the visited, unfinished rows whose lease is over, and unholds, bumps and stamps them |
| Custody.ClockIsElapsed | pkg/coord/coord.go:193-253 | the clock is the time that passed, and the lease length is fixed |
| Custody.RecentLeaseIsKept | pkg/coord/coord.go:193-253 | less than a lease length after its grant or accepted renewal a holder still holds the item live, whatever anybody did |
| Custody.LiveHolderIsNotDisplaced | pkg/coord/coord.go:193-231 | no command is granted a live holder's item and no sweep takes it |
| RunStore.EffectIsIdempotent | pkg/reconcile/memstore.go:100-147 | firing an effect again changes nothing, repeats nothing and undoes nothing |
| RunStore.AdvanceKeepsJournal | pkg/reconcile/memstore.go:55-78 | a fenced compare-and-set keeps audit and outbox one to one and strictly forward within a lap |
| RunStore.RetryKeepsJournal | pkg/controller/rundrive/store.go:183-239 | so do the driver's re-entries: a retry lap or a give-up from any step that is not terminal, under a raised fence |
| RunStore.InterventionsExactly | pkg/reconcile/memstore.go:45-55 | a reclaim raises the fence to the larger of the two and nothing else; a retry and a give-up re-point the step under a raised fence exactly where they may |
| RunStore.EffectTouchesItsOwn | pkg/reconcile/machine.go:430-446 | claiming touches only the binds, dispatching only the executions, collecting only the artifacts, and no other step anything |
| RunRace.EveryRunIsSafe | pkg/reconcile/machine.go:400-488 | for any leaders, zombies, crashes, reclaims, retries from any step that is not terminal, and give-ups: no effect happens twice, no committed step of any lap outran its effect (a dispatch row's own task was executed), the journal is legal |
| RunRace.DurableRecordOnlyGrows | pkg/reconcile/memstore.go:45-78 | fence and audit log only grow over every history |
| RunRace.FencedLeaderNeverCommits | pkg/reconcile/memstore.go:55-78 | a leader below a fence once reached never changes the store again |
| RunRace.ReclaimFencesOut | pkg/reconcile/memstore.go:45-78 | from a reclaim to f on, no move of a leader with a smaller fence changes the record; step, lap and log are as before it |
| RunRace.ReentryFencesOut | pkg/controller/rundrive/store.go:183-239 | the same from a retry or a give-up that took effect, with the step it set |
| RunRace.CommitExactly | pkg/reconcile/machine.go:466-488 | a commit writes one row, to failed where the leader diverts and to the next step otherwise, under the present fence and step only |
| RunRace.ErrorsAndAnnouncements | pkg/reconcile/machine.go:447-488 | an effect that errs ends the drive with nothing fired or committed; a terminal commit is announced by its row |
| RunRace.ElectionsAndCrashes | pkg/reconcile/machine.go:400-430 | a leader starts with what it was given; a crash removes it and touches nothing durable |
| RunRace.SplitBrainAdvancesOnce | pkg/reconcile/memstore.go:55-78 | within a lap each step is advanced from at most once, even by leaders with equal fences |
| RunRace.SuccessLooksCrashFree | pkg/reconcile/machine.go:400-488 | whatever crashed on the way, a succeeded single attempt has one bind, one execution, one artifact and the five edges in order |
| RunRace.OneExecutionPerLap | pkg/reconcile/machine.go:430-498 | over any retries and give-ups, with leaders started for the lap the record is in: the journal is one unbroken chain whose laps start at claiming, every execution is some lap's and none happens twice, and a lap past its dispatch executed its own task |
| RunRace.RetriedSuccessLooksCrashFree | pkg/reconcile/machine.go:400-498 | a Run that succeeded after any retries ends with its last lap's four transitions, executed that lap's task once, and has one bind and one artifact |
| RunRace.RetriesNeverReexecute | pkg/controller/rundrive/driver.go:565-573 | with the labels the driver computes, the agent executes at most once in the whole Run, whatever laps are entered, and the lap ledger stays empty |
| RunRace.SecondLapReusesExecution | pkg/controller/rundrive/driver.go:565-573 | a history with a death after dispatch and a retry that gets past its own dispatch on the first lap's execution |
| RunRace.DriverLabelIff | pkg/controller/rundrive/driver.go:565-573 | the driver gives no label exactly while no execution carries one |
| RunRace.LapsExecuteApartIff | pkg/reconcile/machine.go:490-498 | two laps past their dispatch executed different tasks exactly when they were labelled differently |
| RunRace.SuccessorFinishes | pkg/reconcile/machine.go:400-488 | from any on-path step a working leader with the current fence, even one with a stale read, reaches Succeeded and has the terminal row it committed announced |
| RunLoop.Controller.Reconcile | pkg/reconcile/machine.go:400-430 | the pass loop: a stale fence leaves the store alone, every edge it commits has its effect applied, none leaves a step whose effect errs, crash, error and stop results tell where it stands, a crash before a step fires nothing, and a bounded stop comes after exactly that many passes |
| RunLoop.Controller.CommitAdvance | pkg/reconcile/machine.go:430-488 | one phase's conditional advance, its journal row, and its announcement exactly when it committed a terminal step |
| RunLoop.Controller.RunPhase | pkg/reconcile/machine.go:430-488 | effect, error gate, crash window and advance in that order: nothing is committed past an effect that erred, and where the loop does not return a pass changes nothing |
| MigrationFiles.SelectMigrations | db/dbmigrate.go:126-140 | the selected files are exactly the non-self-check entries, sorted and distinct, and so are their ledger keys |
| MigrationFiles.SelfCheckIff | db/dbmigrate.go:132-135 | a self-check is a path that ends in _test.sql |
| Basics.SortStrings | db/dbmigrate.go:126-140 | a sorted permutation |
| Basics.LexLeIff | db/dbmigrate.go:138-139 | the order: a prefix first, else the smaller character at the first difference |
| MigrationRace.EveryBodyCommitsAtMostOnce | db/dbmigrate.go:66-113 | for any number of runners, any interleaving and any crash: no body commits twice, and the ledger is the first ledger plus exactly the committed bodies |
| MigrationRace.StepCommitsWhole | db/dbmigrate.go:95-110 | every step commits one body together with its ledger row, or changes nothing shared |
| MigrationRace.CommitFollowsWorkingCalls | db/dbmigrate.go:95-110 | a version is committed only by a runner that, in that same transaction, began it, executed its file and inserted its row, each with a call that worked |
| MigrationRace.FailuresCommitNothing | db/dbmigrate.go:81-110 | a call that fails, or a crash, commits nothing, and the failing Apply returns an error |
| MigrationRace.CallsThatWork | db/dbmigrate.go:77-112 | the check skips exactly recorded versions, an insert fails on a recorded one and waits for another open insert of it, a commit whose answer is lost still committed |
| MigrationRace.HistoryOnlyGrows | db/dbmigrate.go:95-110 | ledger and schema history are only ever extended |
| MigrationRace.CommitsInOrder | db/dbmigrate.go:77-113 | a body commits only when every earlier version of its runner is already recorded |
| MigrationRace.HistoryIsAPrefix | db/dbmigrate.go:77-121 | from an empty ledger the committed history is always a prefix of the newest binary's list, with older binaries running beside it during an update |
| MigrationRace.NilMeansHeadForever | db/dbmigrate.go:77-121 | after one Apply returned nil its versions stay recorded and no later step commits any of them |
| MigrationRace.LoneRunnerReachesHead | db/dbmigrate.go:77-121 | a runner left alone, whose calls succeed, returns nil |
| MigrationApply.Apply | db/dbmigrate.go:57-122 | the loop commits exactly the pending versions in order, stops before the first broken one, and refuses an empty binary |
| MigrationApply.ApplyVersions | db/dbmigrate.go:77-121 | success leaves nothing pending; failure leaves the pending versions before the first broken one committed and nothing else |
| TaskRecord.Task.Append | pkg/shim/task.go:117-129 | the log stays numbered 1..n under the task's id, extended by one |
| TaskRecord.Task.SetState | pkg/shim/task.go:131-153 | a terminal task is never moved; otherwise one status event is appended |
| TaskRecord.Task.Terminate | pkg/shim/task.go:155-172 | any call on a live task sets the state and closes the stream; the first terminal one is final, and the task ends terminal exactly when some caller brought a terminal state |
| TaskRecord.Task.EmitProgress | pkg/shim/task.go:174-205 | one event per unit, nothing after the terminal status |
| Subscription.ResumeIsGapFree | pkg/shim/task.go:247-297 | resuming from any logged number, under any interleaving with appends and the close, delivers exactly the next events; all of them once closed, if nothing is appended after the close |
| Subscription.ClosedStreamDrains | pkg/shim/task.go:247-297 | once the stream is closed the subscriber, left to run, hands over the rest and closes, within one step per event |
| Subscription.ClosedWithEverything | pkg/shim/task.go:247-297 | at the moment a subscriber was closed it had received everything logged |
| Subscription.ClosedStreamDeliversNothing | pkg/shim/task.go:247-297 | on a finished log a number beyond the end delivers nothing, and never an old event whatever is appended |
| Subscription.FutureResumeReplays | pkg/shim/task.go:247-297 | on a live log a number beyond the end is handed an event it asked to skip |
| Subscription.NeverReplaysIff | pkg/shim/task.go:247-297 | a subscription never replays in any future exactly when its number is in the log or the log is finished |
| Drive.RunTask | pkg/shim/engine.go:287-519 | the wire a driven task leaves for any progress stream, outcome and moment of cancel, from before the submitted status on; it ends terminal exactly when cancelled or given a terminal outcome |
| Drive.ExactlyOneDeliverable | pkg/shim/engine.go:354-519 | that wire holds exactly one deliverable message when an answer exists, and none otherwise |
| Drive.CancelledRunPromotesIff | pkg/shim/engine.go:354-519 | a cancelled run carries a promoted answer exactly when the cancel struck after the promotion, no answer was marked and there was text or a reason to promote |
| Drive.LateCancelKeepsPromotion | pkg/shim/engine.go:354-519 | the wire of a completed run cancelled at the last moment |
| Drive.RelayedDeliverables | pkg/shim/engine.go:354-519 | the funnel lets the first deliverable of any prefix through and demotes the rest |
| Drive.PromotedAnswer | pkg/shim/engine.go:494-517 | a settled run that marked no answer answers with the last message text of its stream, failing that with its failure reason, and otherwise with nothing |
| Drive.WireLayout | pkg/shim/engine.go:354-519 | one body per unit, in order, between the opening statuses and the ending, each with its text, tier, reference or kind |
| ResultRecorder.VerdictIsFirstFailureElseLastPass | conformance/conformance.go:180-190 | for every record sequence a dimension's result is its first failure, else its last pass |
| ResultRecorder.Recorder.Record | conformance/conformance.go:180-190 | the order list is that of first recording, and the result map that of the record history |
| ResultRecorder.Recorder.Report | conformance/conformance.go:195-206 | six results in order, gaps filled as failures |
| ResultRecorder.Ok | conformance/conformance.go:111-118 | true exactly when every result passed |
| ResultRecorder.Certify | conformance/conformance.go:111-206 | record, report and OK together: true exactly when each of the six was recorded and none ever failed |
| ResultRecorder.SixDimensions | conformance/conformance.go:72-82 | the six dimensions once each in order, and the failure a gap is reported with |
| LogCheckers.CheckSSE | conformance/verify.go:333-384 | passes exactly when the log is non-empty, numbered 1..n under the task's id, and starts and ends with a status; the resume sub-check then holds |
| LogCheckers.ResumeOfFinishedTask | pkg/shim/task.go:247-297 | on any finished log the modelled stream hands over exactly the events above the number, which is what the resume sub-check reads |
| LogCheckers.CheckArtifacts | conformance/verify.go:387-411 | passes exactly when there is a reference and every reference is well formed |
| LogCheckers.CheckCapabilityHonesty | conformance/verify.go:417-446 | passes exactly when nothing on the wire exceeds or falls short of what is advertised |
| LogCheckers.UniqueKinds | conformance/verify.go:566-577 | exactly the kinds that occur, once each |
| LogCheckers.IsSubset | conformance/conformance.go:224-237 | set inclusion, and the missing names sorted and comma joined |
| LogCheckers.ArtifactRefs | conformance/verify.go:553-564 | the references of the artifact events, in order |
| LogCheckers.StatusStates | conformance/verify.go:540-551 | the states of the status events, in order |
| LogCheckers.ConformantPlan | conformance/runner.go:105-124 | one reference per advertised kind, well formed exactly when the kind is not empty |
| LogCheckers.RelayKeepsRefs | pkg/shim/engine.go:354-519 | the funnel loses, reorders and invents no reference, and adds no status |
| LogCheckers.EngineWire | pkg/shim/engine.go:354-519 | an undisturbed run's wire has the stream's references in order and exactly three states |
| LogCheckers.SuiteOverEngine | conformance/verify.go:161-203 | over the modelled engine the scripted plan passes artifacts exactly for non-empty lists of non-empty kinds, honesty exactly when toolCalls is advertised, and SSE always |
| UriCodec.EncodeRoundTrip | console/lib/projectId.ts:41-43 | encoding is defined exactly on text without lone surrogates, and decoding undoes it |
| UriCodec.EncodeInjective | console/lib/projectId.ts:41-43 | two texts never share an encoding |
| UriCodec.DecodeShrinks | console/lib/projectId.ts:26-32 | decoding never lengthens, and shortens whenever there was an escape |
| UriCodec.DecodeKeepsWellFormedness | console/lib/projectId.ts:26-32 | decoding neither makes nor hides a lone surrogate |
| UriCodec.Utf8RoundTrip | console/lib/projectId.ts:26-43 | UTF-8 as section 3 of RFC 3629 has it: every scalar value is read back |
| UriCodec.BareUnits | console/lib/projectId.ts:41-43 | a unit alone is left bare exactly when it is a letter, a digit or one of the nine marks, as section 19.2.6 of ECMA-262 lists them |
| UriCodec.AsciiEscapes | console/lib/projectId.ts:41-43 | every other ASCII unit becomes a percent sign and its two upper-case hexadecimal digits |
| UriCodec.HexReads | console/lib/projectId.ts:26-32 | digits are read in both cases, and nothing else is a digit |
| UriCodec.Utf8Table | console/lib/projectId.ts:41-43 | lengths, marks and bits of section 3 of RFC 3629 |
| UriCodec.OnlyCanonicalUtf8 | console/lib/projectId.ts:26-32 | octets are read as a code point exactly when they are its encoding: nothing overlong, no surrogate |
| UriCodec.ReadEscapeIff | console/lib/projectId.ts:26-32 | an escape is read exactly where a code point's octets are spelled out |
| UriCodec.SurrogateTable | console/lib/projectId.ts:26-43 | supplementary code points are the surrogate pairs of UTF-16 |
| ProjectId.EncodeProjectIdThrowsIff | console/lib/projectId.ts:41-43 | the call throws exactly on text with a lone surrogate |
| ProjectId.DecodeAfterEncode | console/lib/projectId.ts:26-43 | decode after encode is decode, malformed escapes included |
| ProjectId.EncodeIsIdempotent | console/lib/projectId.ts:41-43 | encode after encode is encode |
| ProjectId.EncodedIdIsOneSegment | console/lib/projectId.ts:41-43 | the result has no slash |
| ProjectId.NamespacedIdEncodes | console/lib/projectId.ts:41-43 | namespace, slash and name become namespace, %2F and name, with nothing else touched |
| ProjectId.DecodeFixesExactlySettled | console/lib/projectId.ts:26-32 | decode leaves an id alone exactly when it has no percent sign or is malformed |
| ProjectId.OneLayerIff | console/lib/projectId.ts:41-43 | the result is exactly one layer over the given id exactly when that id is settled |
| ProjectId.UnsettledIdIsRewritten | console/lib/projectId.ts:41-43 | the id %41 becomes A |
| ProjectId.DecodeIdempotentIff | console/lib/projectId.ts:26-32 | decoding twice is decoding once exactly when the decoded id is settled |
| ProjectId.AnyChainKeepsOneLayer | console/lib/projectId.ts:26-43 | for a settled id every chain of hops ends in the id or in exactly one layer, as its last hop says |
| ProjectId.TwiceEncodedKeepsTwoLayers | console/lib/projectId.ts:41-43 | two layers are kept, unless the id needed no escape at all |
| TraceContext.ChainsInOrder | cmd/shim/supervisor.go:393-447 | both chains are the first valid source in their own order; the submit context is always background-rooted |
| TraceContext.GraftReportedIff | cmd/shim/supervisor.go:319-331 | a graft is reported exactly when the carrier is present and it or the base holds a valid span |
| TraceContext.LegsShareTraceIff | cmd/shim/supervisor.go:393-447 | the exact condition on header, credential and handshake under which handle_task and the submit share a trace |
| TraceContext.CachedContextIrrelevantIff | cmd/shim/supervisor.go:430-447 | the exact condition under which the handshake-cached context cannot reach a submit |
| Supervisor.BusyIsMutualExclusion | cmd/shim/supervisor.go:558-578 | in every reachable state at most one handler is between claim and release, and busy is up exactly while one is |
| Supervisor.ClaimExactly | cmd/shim/supervisor.go:558-578 | a claim is answered 409 exactly on a busy pod and granted on a free one, and touches no other handler |
| Supervisor.AnswersExactly | cmd/shim/supervisor.go:580-620 | 500 without an engine or on a failed submit, 400 on an undecodable task, and the release frees the pod |
| Supervisor.PollerExactly | cmd/shim/supervisor.go:268-307 | the poller takes the first credential it finds, once, and publishes what it extracts |
| Supervisor.OnlyTheHolderClearsBusy | cmd/shim/supervisor.go:558-578 | busy comes down only by the release of the handler that holds it |
| Supervisor.RefusedNeverHolds | cmd/shim/supervisor.go:558-578 | a handler answered 409 holds the pod at no moment of the history |
| Supervisor.OneConstructionServesAll | cmd/shim/supervisor.go:663-710 | any two handlers at any two moments got the same engine or the same error |
| Supervisor.BrokenRuntimeIsPermanent | cmd/shim/supervisor.go:663-710 | after a failed construction nobody ever submits |
| Supervisor.HandleContextHistory | cmd/shim/supervisor.go:393-412 | every handle_task context comes from one read of the disk that took effect, one of the handshake and the request, in order |
| Supervisor.SubmitContextHistory | cmd/shim/supervisor.go:430-447 | every submit context comes from one read of the disk that took effect, one of the handshake and the request, in order |
| Supervisor.SubmitFollowsTheDisk | cmd/shim/supervisor.go:359-447 | whenever the credential the task read has a valid carrier, the task is submitted on it, whatever was cached before |
| Supervisor.CachedWasOnDisk | cmd/shim/supervisor.go:268-307 | the cached context was extracted from a credential that was once on disk |
| Supervisor.SandboxLegSharesTrace | cmd/shim/supervisor.go:544-610 | with a valid credential and no disagreeing header, handle_task and submit share the credential's trace |
| Supervisor.MeshLegSharesTrace | cmd/shim/supervisor.go:544-610 | with no credential ever landed and a valid header, both are the header's span |
| Supervisor.UntracedRunInheritsFirstTrace | cmd/shim/supervisor.go:430-447 | a history in which an untraced task is submitted on the first credential's trace |
| Webhook.TokensAreInFlightDeliveries | cmd/scm-webhook/main.go:207-243 | in every reachable state the tokens held are exactly the admitted, unfinished deliveries, at most 64, and each finished one is counted once |
| Webhook.ReturnNeverBlocks | cmd/scm-webhook/main.go:235-243 | releasing a token never waits |
| Webhook.RefusedIffFull | cmd/scm-webhook/main.go:235-243 | a delivery is turned away as overloaded exactly when 64 others are in flight |
| Webhook.PipelineIsBacked | cmd/scm-webhook/main.go:270-330 | at each stage a delivery has behind it the project lookup, secret read and accepting check that brought it there |
| Webhook.TriggerOnlyThroughVerifiedDelivery | cmd/scm-webhook/main.go:301-371 | a trigger annotation changes only by removal of the Project or by a delivery to it with a lookup, a secret read and an accepting check, in that order, earlier in that delivery |
| Webhook.AcceptedMeansTriggered | cmd/scm-webhook/main.go:301-371 | a delivery counted as accepted passed its check and set its Project's trigger earlier in the history |
| Webhook.SecretIsStoredEntry | cmd/scm-webhook/main.go:302-309 | the secret is the stored entry under the reference's key, or under webhookSecret when that is empty |
| Webhook.RoutingExactly | cmd/scm-webhook/main.go:245-298 | what lets a delivery through routing, lookup and body, and the outcome it is turned away with |
| Webhook.GateExactly | cmd/scm-webhook/main.go:301-371 | a missing secret or a refused check is a rejection; a delivery whose check accepts and whose patch works is accepted, and changes only its Project's trigger |
| Webhook.OutcomeIsCounted | cmd/scm-webhook/main.go:207-226 | a delivery is counted with the outcome it returned with |
| Viewer.ShownNeverGoesBack | console/components/ArtifactBrowser.tsx:144-182 | under any response order the shown request number never falls |
| Viewer.ShownIsTheRowsOwnAnswer | console/components/ArtifactBrowser.tsx:144-182 | what is shown is the answer to the request its own row's click opened, applied while that was the newest |
| Viewer.MarkerFollowsNewest | console/components/ArtifactBrowser.tsx:144-182 | the loading marker is set exactly while the newest request is in flight and names its row |
| Viewer.FinalView | console/components/BuildBrowser.tsx:176-217 | once the newest request settled its row is shown, unless the diff tab was clicked after that |
| Viewer.QuietArtifactViewerShowsLastClick | console/components/ArtifactBrowser.tsx:144-182 | with nothing in flight the artifact viewer shows the last row clicked |
| Viewer.GuardRefinesCancelling | console/components/BuildBrowser.tsx:176-217 | for every history the guarded viewer's screen and marker are those of a viewer that cancels superseded requests |
| Viewer.StaleRequestsLeave | console/components/ArtifactBrowser.tsx:144-182 | a superseded request leaves at its next answer and touches neither screen nor marker |
| Viewer.ScreenTexts | console/components/ArtifactBrowser.tsx:153-178 | the decoded body, or the notice for a bad status or a failed fetch |
| RepoSync.Reconciler.ReconcileFromProvider | hack/repo-sync-reconciler-check.py:154-178 | one pass is the in-order overlay of the snapshot's non-bot records |
| RepoSync.Reconciler.Run | hack/repo-sync-reconciler-check.py:138-205 | after any events the mirror is the overlay of the effective passes' snapshots; drops and polls are exact |
| RepoSync.OverlayIsLastWriterWins | hack/repo-sync-reconciler-check.py:154-178 | the mirror is the last non-bot record per key and nothing else |
| RepoSync.RowSaysTheLastRecord | hack/repo-sync-reconciler-check.py:154-178 | kind, id, state, title and actor of a row are those of the last record written under its key, with the source's provider and repo |
| RepoSync.EffectiveIff | hack/repo-sync-reconciler-check.py:180-205 | a delivery triggers a pass exactly with the signature of the project's secret; a poll always does |
| RepoSync.OverlayIsIdempotent | hack/repo-sync-reconciler-check.py:154-178 | applying the same snapshot again changes nothing |
| RepoSync.SteadyProviderConverges | hack/repo-sync-reconciler-check.py:138-205 | with a constant snapshot the mirror depends only on whether one effective event occurred |
| RepoSync.ForgeriesAndPayloadsDoNotMatter | hack/repo-sync-reconciler-check.py:180-205 | removing forged deliveries and blanking payload ids changes neither passes nor polls |
| RepoSync.ProvidersAreInterchangeable | hack/repo-sync-reconciler-check.py:154-178 | through another provider the mirror differs only in the provenance stamp |
| RepoSync.MirrorIsUntrustedAndProvenanced | hack/repo-sync-reconciler-check.py:154-178 | every row is untrusted, provenanced, under its own key, and never our own echo |
| RepoSync.MirrorEqualsLatestSnapshotIff | hack/repo-sync-reconciler-check.py:154-178 | the mirror is the latest snapshot exactly when no earlier key vanished from it |
| RepoSync.DeletedRecordStays | hack/repo-sync-reconciler-check.py:154-178 | a record gone upstream stays mirrored |
| SkillList.SplitList | cmd/shim/main.go:324-336 | the trimmed non-blank parts, each of them a proper name |
| SkillList.SplitUndoesJoinIff | cmd/shim/main.go:324-336 | split undoes the comma join exactly on lists of non-empty, trimmed, comma-free names |
| SkillList.SplitIsStable | cmd/shim/main.go:324-336 | for every text, split, join, split is split |
| SkillList.JoinOfSplit | cmd/shim/main.go:324-336 | splitting loses nothing |
| SkillList.GatewayStandingEnv | cmd/shim/gateway.go:332-338 | the keys stamped; a reader of the stamped list gets it back exactly when every name is proper; an empty list stamps none |
| SkillList.ChildSeesGatewayListIff | cmd/shim/gateway.go:332-338 | the child's list is the gateway's exactly when that is non-empty or the pod's own variable is blank |
| SkillList.HandDownSkills | cmd/shim/gateway.go:250-338 | the whole hop, parse, stamp over the pod's environment, parse again, with the same exact condition |
| SkillList.InheritedSkillReachesChild | cmd/shim/gateway.go:332-338 | a gateway without skills on a pod whose variable names one: the child gets that one |
| SkillList.ParseSkillSHAs | cmd/shim/main.go:307-322 | a name is held exactly when some entry is well formed for it, with the last such entry's revision |
| SkillList.GrantedSkillEnv | pkg/controller/rundrive/dispatch.go:1245-1261 | names and name=revision pairs, comma joined, in grant order |
| SkillList.NamesInGrantOrder | pkg/controller/rundrive/dispatch.go:1250-1256 | the printed list is the names of the grants that have one, in grant order, inline or git |
| SkillList.BlankCharacters | cmd/shim/main.go:324-336 | the characters trimmed, one by one |
| SkillList.GrantedSkillsRoundTrip | pkg/controller/rundrive/dispatch.go:1245-1261 | names come back in order exactly when each is proper; pins come back if every pin fits and only if every pin not overridden fits, so for distinct names exactly then |
| SkillList.EveryPinArrivesIff | pkg/controller/rundrive/dispatch.go:1245-1261 | every grant's own revision arrives exactly when each pin fits and no two pinned grants of one name disagree |
| SkillList.SameNamedSkillLosesItsPin | pkg/controller/rundrive/dispatch.go:1245-1261 | two skills of one name pinned apart: only the later revision is read back |
| SkillList.EqualsSignInNameMovesThePin | cmd/shim/main.go:307-322 | a name with an equals sign does not come back |
| Ownership.Verify | db/dbverify.go:84-116 | the report is a function of the tables alone, and empty exactly when every managed schema present has one owner and full DML |
| Ownership.PickOwner | db/dbverify.go:94-101 | whatever order the map yields, the least name among those with the most tables |
| Ownership.IntendedIsUnique | db/dbverify.go:94-101 | there is only one such owner |
| Ownership.IsTied | db/dbverify.go:102-107 | true exactly when two owners share the lead |
| Ownership.TiedReportsEveryTable | db/dbverify.go:108-114 | a tied schema's report names all its tables, in order, as ambiguous |
| Ownership.NoDriftIff | db/dbverify.go:84-116 | for any list of schemas, no report exactly when each is healthy |
| Ownership.CollectMissing | db/dbverify.go:137-150 | the missing privileges in order, none exactly with full DML |
| Ownership.MissingWords | db/dbverify.go:137-150 | each word is listed exactly when its privilege is missing |
| Ownership.UntiedReportIff | db/dbverify.go:108-114 | without a tie the report holds exactly the tables with another owner or a missing privilege |
| ManifestCopy.DeepCopy | api/v1alpha1/zz_generated.deepcopy.go:230-263 | a manifest of any size, or nil, is copied to an equal one on cells that did not exist before |
| ManifestCopy.CopyManifest | api/v1alpha1/zz_generated.deepcopy.go:230-253 | the copy's cells are disjoint from the source's, and its three slices from each other |
| ManifestCopy.CopyStructs | api/v1alpha1/zz_generated.deepcopy.go:233-252 | elements are copied one by one onto cells no two of them share, even where the source's did |
| ManifestCopy.CopyEndpoint | api/v1alpha1/zz_generated.deepcopy.go:1496-1530 | headers map, three slices and two flat pointers are all fresh and equal |
| ManifestCopy.CopySkill | api/v1alpha1/zz_generated.deepcopy.go:628-640 | git source, its credential pointer and the permissions are all fresh and equal |
| ManifestCopy.CopyInteraction | api/v1alpha1/zz_generated.deepcopy.go:697-720 | both byte slices and both flat pointers are fresh and equal |
| ManifestCopy.CopyMap | api/v1alpha1/zz_generated.deepcopy.go:1498-1504 | the map is rebuilt equal in any key order |
| StatusCopy.CopyStatus | api/v1alpha1/zz_generated.deepcopy.go:1914-1971 | a Run status of any size, nested structs included, is copied to an equal one on cells disjoint from the source's |
| StatusCopy.CopyFlat | api/v1alpha1/zz_generated.deepcopy.go:1914-1955 | where the generator copies a target flat, the target is fresh and equal too |
| StatusCopy.CopySnapshot | api/v1alpha1/zz_generated.deepcopy.go:355-381 | the context snapshot down to the numbers its budget points to |
| StatusCopy.CopyGrant | api/v1alpha1/zz_generated.deepcopy.go:2470-2496 | the RBAC grant with its two slices of structs |
| StatusCopy.OutsideWritesAreInvisible | api/v1alpha1/zz_generated.deepcopy.go:1914-1971 | whatever is written outside a status's cells, it reads the same |
| StatusCopy.EditCopy | api/v1alpha1/zz_generated.deepcopy.go:1914-1971 | writes through the copy at several depths are not seen through the original |
| StatusCopy.EditOriginal | api/v1alpha1/zz_generated.deepcopy.go:1914-1971 | writes through the original are not seen through the copy |

## Left out

- Postgres itself: each custody command is one committed statement or transaction; isolation anomalies, connection errors and `LIMIT`/order of the sweep (any batch is allowed) are not modelled. The wall clock never goes back.
- The naive, non-durable reconciler and the paused, cancelling and cancelled steps of the Run machine beyond being off the driven path.
- Creation of the migration ledger table: an empty ledger stands for it.
- 64-bit wrap-around of fences, sequence numbers and counters.
- How a traceparent is parsed, how a provider checks a delivery and what a password or signature hash does: parameters.
- RunLoop.Controller.Reconcile: asks that the drive is one that returns; in the other cases the loop in the source spins, as `RunPhase` states.
- The driver's budget arithmetic, backoff and teardown; its re-entries' own audit and outbox rows are not listed beside the machine's.
- Cancellation of a subscriber's context and the delivery buffer of its channel.
- The agent-card, lifecycle and credential-metadata dimensions of the conformance suite.
- The webhook's response bodies and span attributes; an unknown provider and a bad credential are one case of the check, as they share one answer. A nil semaphore is not modelled: the server always makes one.
- Unmounting and listing in the browsers, and text decoding: the text a body event carries is the decoded one, and a throw while decoding is a failure event.
- The fixed fixtures, mutations and checks around the repo-sync loop.
- Deep copies of the other custom resources, such as a repository spec. The credential pointer inside a skill's git source is fixed when that source is made.
- RunRace.OneExecutionPerLap: a driver that starts leaders for another lap than the record's, or with a fence not yet issued, is not covered; the labels the repository's own driver computes are covered by `RunRace.RetriesNeverReexecute`.
- Invalid UTF-8 in environment variables.
- The bootstrap-admin reconcile, the coordinator lookup, the admission webhooks and the wiring of the processes are not part of this model.
