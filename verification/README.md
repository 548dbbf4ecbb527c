# Quine: a model of the kernel, its firmware and the app's protocols

Quine is a kernel that versions, health-gates, promotes and rolls back an app which rewrites itself;
a small firmware does the same one level down for the kernel. This project models the parts of it
whose correctness spans many steps, in Dafny, and proves what they promise:

- **The version line** (`VersionTree`, `VersionRegistry`, `RegistryLaws`, `CheckStore`, `Promotion`,
  `PromotionLaws`, `PromotionEffects`, `UndoLaws`, `CheckLaws`, `RevertLaws`, `LookupLaws`): git as a single-parent tree, the version index, and the
  kernel that moves `main` over the tree, keeps a bounded undo stack, re-labels every version that
  leaves or rejoins the active line, and switches the regression checks along with it.
- **The kernel update** (`KernelSlots`, `KernelLoop`): reconcile, verify, swap, health-gate and roll back, between a
  firmware and a kernel that share small pointer files.
- **The audit log** (`AuditLog`, `AuditLaws`): a hash chain, its caching writer and its verifier.
- **The task queue** (`TaskQueue`, `TaskQueueLaws`, `TaskAnswers`): a durable FIFO and its single drainer, as steps
  between await points.
- **Chat histories** (`ToolHistory`): re-pairing tool calls with results, and cutting without breaking
  a pair.
- **Run fan-out** (`RunHub`, `RunHubLaws`, `RunHubEffects`, `RunTable`): claims, late starts, Stop and replay for late
  viewers, and the table that finds a conversation's hub.
- **The event stream** (`EventStream`, `StreamNoise`): the writer's frames and the incremental reader, a subset of
  section 9.2 (Server-sent events) of the WHATWG HTML standard.
- **The version graph** (`VersionGraph`, `VersionGraphLaws`), **document chunking** (`Knowledge`),
  **manual pages** (`Instructions`, `InstructionsLaws`) and **triggers** (`Triggers`, `TriggerTally`,
  `TriggerLaws`, `TriggerRuns`, `TriggerCap`, `TriggerCases`, `TriggerFires`).

Objects that the program updates in place are classes; each method's contract equates the object's
whole new state with a function of the old one, and the laws are proved about those functions, over
every input and, by induction, over every run. Health probes, verification verdicts, signatures,
finished tasks, fetched errors and the clock are arbitrary inputs. Hashes are collision-free functions
and JSON text is a pair of inverse functions.

Run `dafny verify dfyconfig.toml` to check everything.

## Where the program and its promises differ

Each member named is a lemma of the table below: one states exactly when the promise holds, others give
an input on which it does not.

- A label is accepted with blanks or one newline at its end (`$` in the pattern), and `lookup` strips its
  argument. Such a label resolves to its version only if the stripped text names that version in an
  earlier way, as `v1 ` does on version 1 (`RegistryLaws.LookupFindsLabel` for all labels,
  `RegistryLaws.LabelWithBlankIsMissed` for the label `a `).
- `reconcile` does not mend a main version that reads `abandoned` or `rolled_back`
  (`RegistryLaws.ReconcileKeepsOffLineOnMain`); no run of the kernel's operations makes one.
- Checks are to follow their version. A revert switches the checks of what it removes off, and then a
  promotion and one rollback can switch them on again, with the revert live: a rollback gives checks back
  exactly as `CheckLaws.RollbackRestoresChecks` says. So can a way back to the reverted version and forward
  to the revert. They stay off over a run if and only if it has no such step
  (`RevertLaws.RevertedStaysOffExactly`); both inputs are in `RevertLaws.RevertedCheckComesBack`.
- `audit` appends to a log whose last line is not ended by running the new record into that line, and
  the chain then verifies only if that line was blank (`AuditLaws.WriteExtends`). Its cached tail is
  trusted whenever the file's size is the one it left, so two outside changes that restore the size
  mislead it (`AuditLaws.CacheIsRightExactlyWhen`, `AuditLaws.SizeCanReturn`).
- After the crash-count fallback the previous pointer stays on disk, so a later failed update does not
  restore the absence of a pointer (`KernelSlots.FailedGateRestores`, `KernelSlots.FallBackLeavesStalePrev`).
- The count of consecutive crashes is not reset by a requested restart between them
  (`KernelSlots.FallsBackAtThirdCrash`).
- In signed mode the operator's rollback to the seed names it without a signature, and the firmware
  rejects it (`KernelSlots.SeedRollbackNeedsUnsignedMode`).
- `rollback_kernel` says that it does not keep the version it leaves as the next rollback target; every
  accepted rollback does, because `write_active_kernel` stashes the current pointer, and the next one
  leads straight back (`KernelSlots.SecondRollbackReturns`).
- `_bound_history` with a cap of zero or less does not bound, unless there is nothing but results to carry
  and the cap is zero (`ToolHistory.CapHoldsExactly`).
- A viewer that asked to watch is shown the runs that follow if and only if its hub was not collected
  before its stream opened (`RunTable.ViewerSeesRunExactly`; a run in which it was is
  `RunTable.ViewerCanMissTheRun`).
- A version off the trunk without a parent keeps its lane of the graph for good; the width formula
  counts it (`VersionGraphLaws.WidthIsPeakLoad`).
- A title or category that is empty, has blanks around it or a line break in it is written and never read
  back. Any other is, beside one that is on a single line too (`InstructionsLaws.FieldsSurviveExactly`);
  both are if and only if both are such (`InstructionsLaws.PageSurvivesExactly`). A category with a line
  break in it can cost a good title: what follows the break may be a second `title:` line
  (`InstructionsLaws.GoodTitleIsLost`).
- `_fire` calls itself the authoritative gate for the daily cap and does not look at it; its callers do,
  by counters that each trigger keeps for the day it last fired on. The counters tell all the fires of a
  day if and only if no trigger that fired on it has since fired on another
  (`TriggerRuns.CountersTellTheDay`). The cap of every day holds over a run if and only if at each step
  that is so of its day, or what the step wants to fire fits the cap (`TriggerCap.DailyCapHoldsExactly`).
  A tick that goes on behind a later webhook of the next day can so exceed the cap of its own day
  (`TriggerCases.LatePassExceedsCap`); behind one of the same day it cannot (`TriggerRuns.DailyCapHolds`).
- A fetch pass keeps the cooldown of a fingerprint if and only if the hits it fires for a trigger, those not
  in flight that the cap leaves room for, have different fingerprints, or the trigger has no cooldown
  (`TriggerRuns.FetchPassApartExactly`; a fetch that fails this is `TriggerCases.RepeatedPrintFiresTwice`).
- A fetch pass goes by the list read when its tick began, so a trigger switched off in between may still
  fire (`TriggerCases.FetchGoesByItsList`).

## Model

| member | source | states |
|---|---|---|
| VersionTree.AncestorsAreLeastClosedSet | kernel/versioning.py:247-252 | the line of a version is the least set of versions that holds it and the parent of each member |
| VersionTree.AncestorsAreVersions | kernel/versioning.py:247-252 | a line holds only existing versions, its own tip among them; an unknown tip has no line |
| VersionTree.RangeIsDifference | kernel/versioning.py:255-259 | `rev-list not_in..tip` lists each version of the set difference of the two lines exactly once |
| VersionTree.CommitKeepsLines | kernel/versioning.py:154-181 | committing a version off to the side moves no older version on or off any line |
| VersionRegistry.Registry.RecordCommit | kernel/registry.py:51-93 | a new version gets the next number, one history entry and no label; a known one is left as it is |
| VersionRegistry.Registry.SetStatus | kernel/registry.py:96-120 | status and the last of the history change together; `reverted_by` and `reapplied_by` change only with their own status; an unknown version changes nothing |
| VersionRegistry.Registry.SetLabel | kernel/registry.py:123-143 | a label is set, cleared, or refused because it is malformed or another version has it, and then nothing changes |
| VersionRegistry.Registry.Prune | kernel/registry.py:199-203 | exactly the entries whose version left git are dropped |
| VersionRegistry.Registry.Backfill | kernel/registry.py:205-234 | entries git has and the index lost are re-created oldest first with fresh numbers and the status git implies |
| VersionRegistry.Registry.FixDrift | kernel/registry.py:236-247 | `committed` on main becomes promoted, `promoted` or `restored` off main becomes abandoned, all else stays |
| VersionRegistry.Registry.Reconcile | kernel/registry.py:186-251 | the three repairs in order; a repair that reports no work has changed nothing |
| RegistryLaws.RecordKeepsValid | kernel/registry.py:51-93 | recording keeps an index well formed: numbers distinct and below the counter, labels distinct, each status the last of its history |
| RegistryLaws.StatusKeepsValid | kernel/registry.py:96-120 | a status change keeps an index well formed |
| RegistryLaws.LabelKeepsValid | kernel/registry.py:123-143 | labelling keeps labels unique; a refused label changes nothing; an accepted one is the version's label |
| RegistryLaws.BackfillEntry | kernel/registry.py:205-234 | a known version keeps its entry; a missing one gets the status git implies and a number at or above the old counter |
| RegistryLaws.BackfillOrder | kernel/registry.py:205-234 | of two missing versions the older gets the smaller number |
| RegistryLaws.ReconcileKeepsValid | kernel/registry.py:186-251 | the repair of a well-formed index is well formed |
| RegistryLaws.ReconcileDomain | kernel/registry.py:186-251 | after the repair the index holds exactly git's versions |
| RegistryLaws.ReconcileEntry | kernel/registry.py:186-251 | after the repair no version off main reads promoted or restored and none on main reads committed; old numbers and labels are unchanged, new numbers are fresh |
| RegistryLaws.ReconcileOrder | kernel/registry.py:186-251 | re-created versions are numbered in history order |
| RegistryLaws.ReconcileKeepsOffLineOnMain | kernel/registry.py:236-247 | the limit of the repair: a main version reads as off the line afterwards exactly when it did before |
| RegistryLaws.ReconcileIdempotent | kernel/registry.py:186-251 | a second repair against the same git facts changes nothing, whatever is pending by then |
| RegistryLaws.LookupOrderIndependent | kernel/registry.py:155-176 | in a well-formed index a reference resolves the same way whatever the order of the dictionary |
| RegistryLaws.LookupFindsVersion | kernel/registry.py:155-176 | a full name, or failing that a number `v<seq>`, resolves to its version |
| RegistryLaws.LookupFindsLabel | kernel/registry.py:155-176 | a label resolves to its version if and only if its stripped text names that version in an earlier way, or names nothing earlier and the label has no blank at either end |
| RegistryLaws.LabelWithBlankIsMissed | kernel/registry.py:123-176 | on a new version the label `a ` is accepted, and a lookup of it finds nothing |
| LookupLaws.LookupExactly | kernel/registry.py:155-176 | a reference resolves to a version if and only if, blanks aside, it is its full name, else its number, else seven to forty hex digits of any case that only its name begins with, else its label |
| LookupLaws.NumberIsReference | kernel/registry.py:155-176 | `v` or `V` with the decimal digits of a number refers to that number |
| LookupLaws.LabelAcceptedExactly | kernel/registry.py:123-143 | a label is accepted if and only if the version is known, the label has one to 64 of the allowed characters, the first a letter or digit, but for one newline at its end, and no other version has it |
| LookupLaws.RepairFills | kernel/registry.py:205-234 | a lost entry comes back with its parent and the status git implies: promoted, pending or abandoned |
| LookupLaws.RepairCorrects | kernel/registry.py:236-247 | a known entry is kept but for the two corrections |
| CheckStore.Store.FreezeChecks | kernel/checks.py:286-307 | one new active check per name not yet held for this origin, appended in order, and their ids |
| CheckStore.Store.SetCheckEnabled | kernel/checks.py:310-321 | the operator's switch on the first check with the id, and whether there is one |
| CheckStore.Store.SyncLifecycle | kernel/checks.py:324-342 | active checks of the disabled origins go off; lifecycle-disabled checks of the enabled ones come back; counts of zero mean no change |
| CheckStore.FreezeIdempotent | kernel/checks.py:286-307 | freezing the same names for the same version again adds nothing |
| CheckStore.FreezeHolds | kernel/checks.py:286-307 | every name is held for the version afterwards |
| CheckStore.NewChecksBelong | kernel/checks.py:286-307 | what is frozen is active and belongs to the promoted version |
| CheckStore.ToggleChangesOne | kernel/checks.py:310-321 | the switch changes nothing but the activity of a check with the given id, and a disable is the operator's |
| Promotion.Kernel.MarkOffLine | kernel/core.py:331-333 | every version of the range that falls off gets rolled_back (the old tip) or abandoned, each once |
| Promotion.Kernel.MarkBackOn | kernel/core.py:334-343 | every version that comes back reads restored, or promoted if it was live on a line |
| Promotion.Kernel.SwitchTo | kernel/core.py:305-326 | the candidate becomes current in the other slot, `main` and the boot pointer name it, the undo stack is pushed or popped and cut to 50 |
| Promotion.Kernel.MoveLine | kernel/core.py:330-352 | statuses and checks follow the two set differences of the old and the new line |
| Promotion.Kernel.Promote | kernel/core.py:305-362 | the whole bookkeeping of a successful reboot as one new state |
| Promotion.Kernel.RebootToVersion | kernel/core.py:226-365 | a candidate that is unhealthy or fails verification changes one status only; otherwise it is promoted |
| Promotion.Kernel.Rollback | kernel/core.py:367-379 | one-step undo to the stack tip, or the legacy single field; nothing without a target |
| Promotion.Kernel.RollbackTo | kernel/core.py:381-387 | a jump to any version, never blocked by the gate |
| Promotion.Kernel.OnLiveUnhealthy | kernel/core.py:200-224 | recovery to the latest history entry other than the bad version, else to a different last known good |
| Promotion.Kernel.RunGitOp | kernel/core.py:918-948 | a revert or re-apply is committed on top of main, shipped through the same gates, and marks its target only when it went live |
| Promotion.Kernel.AdvanceLine | kernel/core.py:1346-1380 | only a healthy, verified candidate moves its line; production is untouched either way |
| Promotion.Kernel.Boot | kernel/core.py:96-144 | boot repairs the index, starts the last known good version or else main, and rewrites the slots |
| PromotionLaws.PromotionPlaces | kernel/core.py:330-354 | moving main anywhere puts every status on the right side of the new line |
| PromotionLaws.PromotionRelabels | kernel/core.py:330-354 | what each version reads as after a promotion, case by case, with every other entry untouched |
| PromotionLaws.StackStaysGood | kernel/core.py:309-316 | push and pop keep the stack within 50 and, with the active version on top, without equal neighbours |
| PromotionLaws.PromotionKeepsGood | kernel/core.py:226-365 | a promotion keeps the whole invariant: index, statuses, pointers, undo stack |
| PromotionLaws.RejectionKeepsGood | kernel/core.py:257-296 | a rejected candidate changes its own status and nothing else in the world |
| PromotionEffects.RebootDecides | kernel/core.py:257-362 | an unhealthy candidate reads health-failed, a healthy one that the gate does not pass verify-failed, each added to its history with nothing else changed; any other is live in the other slot, named by main and the boot pointer, and reads promoted |
| PromotionEffects.PromotionWritesStack | kernel/core.py:305-326 | the stack after a push or pop, cut to fifty, and its top as the previous version |
| PromotionEffects.PromotionFreezes | kernel/core.py:354-362 | an acceptance check is kept for the promoted version, with its name and id, exactly when that was asked for |
| PromotionEffects.CommitIsRecorded | kernel/registry.py:51-93 | a new version is recorded under the next number with its parent and causes, as committed, and no other entry changes |
| PromotionEffects.GitOpMarksTarget | kernel/core.py:918-948 | a revert or re-apply that ships marks its target by the new version; one that is rejected leaves the target alone and marks the new version by why |
| PromotionEffects.GitOpSwitchesChecks | kernel/core.py:941-948 | a shipped revert switches the checks of its target off, a re-apply gives the lifecycle-disabled ones back, and no other check changes |
| PromotionEffects.BootChooses | kernel/core.py:96-144 | which version boot starts, what it falls back to, what it writes into the slots, and what it marks |
| PromotionEffects.RecoveryPicks | kernel/core.py:200-224 | the watchdog goes to the latest version on the stack other than the failed one, else to another last known good |
| PromotionEffects.RollbackPicks | kernel/core.py:367-379 | the one-step undo goes to the top of the stack, else to the recorded previous version, else nowhere |
| PromotionLaws.RecoveryIsRollback | kernel/core.py:200-224 | in a good world the watchdog's recovery is the one-step undo |
| PromotionLaws.CommitKeepsGood | kernel/core.py:918-924 | a version committed off to the side keeps the invariant |
| PromotionLaws.RestartMakesGood | kernel/core.py:96-144 | a restart makes a good world from any well-formed, even lost, index that calls no main version off-line |
| PromotionLaws.StepKeepsGood | kernel/core.py:226-387 | every operation keeps the invariant: commits, promotions, rollbacks, recoveries, marks, annotations, toggles, restarts |
| PromotionLaws.RunKeepsGood | kernel/core.py:226-387 | over every run a promoted or restored version is on main's line, none on it is abandoned or rolled back, and current, active version, last known good and main agree |
| PromotionLaws.GitOpIsRun | kernel/core.py:918-950 | a shipped revert or re-apply is a run of those operations: commit, reboot and, if that goes through, the annotation |
| PromotionLaws.LineAdvanceIsMark | kernel/core.py:1346-1380 | what `AdvanceLine` does to the world is one allowed mark: promoted to the line, or the status a reboot would have rejected the candidate with |
| PromotionLaws.ShippedKeepsGood | kernel/core.py:918-950 | so both keep the invariant |
| PromotionLaws.FirstBootIsGood | kernel/core.py:96-144 | the first boot, from the seed recorded as committed and empty slots, establishes the invariant and leaves the seed promoted as number one |
| UndoLaws.PromotionExtendsTrail | kernel/core.py:309-316 | a promotion to another version appends it to the trail of active versions, dropping the oldest at the bound |
| UndoLaws.RollbackUndoesPromotion | kernel/core.py:367-379 | promote another version, then roll back: the same version in the same slot, and the stack as before short of its oldest entry if it was full |
| UndoLaws.RollbacksRevisitPromotions | kernel/core.py:367-379 | after n <= 50 promotions, k <= n rollbacks lead to the version that was live n - k promotions in |
| CheckLaws.RunPlacesChecks | kernel/checks.py:324-342 | over every run an active check's origin is on main's line, or was re-applied, or the operator switched that check on |
| CheckLaws.RunKeepsOperatorDisable | kernel/checks.py:310-342 | no run, from any state, re-activates a check the operator disabled, unless the operator does |
| CheckLaws.RunKeepsSigned | kernel/checks.py:286-342 | over every run a check is active if and only if nobody is recorded as having disabled it |
| CheckLaws.RollbackRestoresChecks | kernel/core.py:333-350 | undoing a promotion gives a check its activity back if and only if it is neither an active one guarding the new line only, nor a lifecycle-disabled one of the old line only, of the old tip, or of a new tip that was on the old line |
| RevertLaws.StepStaysOffExactly | kernel/core.py:333-350 | from a good world, a step leaves a check off while a revert above its origin is on main's line, unless it brings that revert back with the check active or its origin coming back too, or the operator or a re-apply switches it on |
| RevertLaws.RevertedStaysOffExactly | kernel/checks.py:324-342 | over every run a check is off at each point at which a revert above its origin is on main's line, if and only if no step of the run is one of those |
| RevertLaws.RevertSwitchesOff | kernel/core.py:936-948 | shipping the revert of the live version switches its checks off |
| RevertLaws.ForwardJumpWakes | kernel/core.py:333-350 | back to a reverted version and forward to its revert: the check is active while the revert is live |
| RevertLaws.DetourWakes | kernel/core.py:333-350 | the same after a promotion of a version off the reverted one and one rollback |
| RevertLaws.RevertedCheckComesBack | kernel/core.py:333-350 | both happen from any good world, with fresh versions |
| KernelSlots.Firmware.PrepareKernel | bootstrap/kernel_slots.py:215-248 | kernel/ is swapped exactly when the pointer disagrees with it, its version deploys and verifies; else nothing is touched |
| KernelSlots.Firmware.RollbackAfterHealthFailure | bootstrap/kernel_slots.py:251-263 | the backed-up tree is restored and the pointer becomes the previous one, or is removed |
| KernelSlots.Firmware.RunKernel | kernel/core.py:691-759 | what the running kernel writes for the requests it gets, in order |
| KernelSlots.Firmware.Supervise | bootstrap/boot.py:89-169 | one turn of the supervise loop: reconcile, integrity check, gate, roll back, crash count and fallback |
| KernelSlots.TurnKeepsOrVouches | bootstrap/boot.py:89-134 | one turn leaves at kernel/ what was there, or a tree this turn's pointer vouches for |
| KernelSlots.OnlyVouchedTreesRun | bootstrap/kernel_slots.py:144-192 | whatever the pointer files and the store hold at each boot, kernel/ holds the first tree or one whose digest, and in signed mode signature, some boot verified |
| KernelSlots.ApprovalLeadsToSwap | kernel/core.py:691-720 | an approved version is swapped in if and only if its stored tree has the approved digest, kernel/ has not, and in signed mode the signature is more than blanks |
| KernelLoop.ApprovalAcceptedExactly | kernel/core.py:691-720 | an approval is accepted if and only if no public key is set or a valid signature comes with it; then the active file has the version and the replaced one is kept |
| KernelLoop.RollbackAcceptedExactly | kernel/core.py:731-759 | an operator rollback is accepted if and only if there is a pointer and a target of another version, the predecessor or else the seed |
| KernelLoop.LoopEndsExactly | bootstrap/boot.py:89-169 | a turn ends the loop if and only if the integrity check fails, or a kernel that was not rolled back exits cleanly |
| KernelLoop.CrashesAreCounted | bootstrap/boot.py:134-166 | the crash count after each way a kernel ends, and the pointer at the third crash |
| KernelLoop.FailedGatePutsBack | bootstrap/boot.py:107-134 | a failed gate puts back the tree and the pointer before it, spends the backup and notes the failed version |
| KernelLoop.StartsCountAfresh | bootstrap/boot.py:84-89 | every start of the firmware counts crashes from zero |
| KernelLoop.RequestsTakeEffect | kernel/core.py:691-759 | what each request does to the disk, after the ones before it |
| KernelLoop.ApprovedKernelRunsNext | bootstrap/boot.py:89-156 | over every run of the loop: after an accepted approval and a requested restart the loop goes on, and the next turn runs the approved tree if and only if it deploys and verifies |
| KernelLoop.RollbackRunsNext | bootstrap/boot.py:89-156 | the same for an operator rollback: the next turn runs the predecessor if and only if it deploys, differs and verifies |
| KernelSlots.FailedGateRestores | bootstrap/boot.py:107-134 | after a failed gate the tree is as before the request; so is the pointer exactly when there was one or no older one lay beside it, and then the next boot swaps nothing |
| KernelSlots.FailedRollbackRestores | kernel/core.py:731-759 | the same for a failed operator rollback, without a condition |
| KernelSlots.RunKeepsNoStalePrev | kernel/state_store.py:820-830 | in runs without the crash-count fallback there is never a rollback target without a pointer |
| KernelSlots.FailedUpdateIsUndone | bootstrap/boot.py:95-134 | in such runs every update that is approved in sync, swapped in and fails its gate leaves tree and pointer as before its approval, and the next reconcile swaps nothing |
| KernelSlots.FallBackLeavesStalePrev | bootstrap/kernel_slots.py:266-270 | the fallback clears the pointer and keeps its predecessor: the condition above then fails |
| KernelSlots.SecondRollbackReturns | kernel/core.py:731-759 | an accepted operator rollback makes the version it leaves the next rollback target; once its target runs, a second one is accepted and returns to that version |
| KernelSlots.SeedRollbackNeedsUnsignedMode | kernel/core.py:740-753 | an operator rollback to the seed is swapped in exactly when no public key is set |
| KernelSlots.FallsBackAtThirdCrash | bootstrap/boot.py:150-166 | an active kernel is given up at its third crash and not before, however many requested restarts lie between |
| AuditLog.Audit.FileSize | kernel/state_store.py:497-501 | the size is the sum of the line lengths |
| AuditLog.Audit.TailFromDisk | kernel/state_store.py:479-494 | the tail is the last non-empty hash in the file, or genesis |
| AuditLog.Audit.Append | kernel/state_store.py:504-522 | one write: the tail that is used, the record, the grown file and the cache |
| AuditLog.Audit.VerifyAll | kernel/state_store.py:549-579 | the report of a full recomputation: counts, legacy prefix and first bad line |
| AuditLog.BrokenStays | kernel/state_store.py:549-579 | once a line breaks the chain, the report is the same however the log goes on |
| AuditLaws.VerifierIsExact | kernel/state_store.py:549-579 | the verifier accepts exactly the logs whose lines are records, unhashed ones only in front, and whose hashed records are linked; it counts them and ends on their last hash |
| AuditLaws.ReportIsExact | kernel/state_store.py:549-579 | the report: of a verifying log how many records are chained and how many carry no hash, of any other the first bad line and these numbers for the lines before it |
| AuditLaws.SharedHashPinsHistory | kernel/state_store.py:472-476 | a hash that occurs in two linked chains pins down everything up to it |
| AuditLaws.SameTailSameChain | kernel/state_store.py:549-579 | two verifying logs that end in the same hash hold the same chained records |
| AuditLaws.TamperingIsDetected | kernel/state_store.py:549-579 | changing, dropping or inserting a chained record while keeping a later one makes verification fail |
| AuditLaws.FirstBadLineIsFirst | kernel/state_store.py:549-579 | the reported line ends the shortest failing prefix |
| AuditLaws.RescanAgrees | kernel/state_store.py:479-494 | a rescan of a verifying log ends on the hash the verifier ends on |
| AuditLaws.TailIsLastHash | kernel/state_store.py:479-494 | the tail of any log, verifying or not, is the hash of its last record with one, else genesis |
| AuditLaws.SizeAdds | kernel/state_store.py:497-501 | the size of a log is the sum of its parts, and that of a line its bytes |
| AuditLaws.WriteGrows | kernel/state_store.py:504-522 | a write adds its own bytes, remembers the new size and ends its line |
| AuditLaws.WriteExtends | kernel/state_store.py:504-522 | a write extends a verifying log by exactly one checked record if and only if the last line is ended or blank and the tail it uses is the true one |
| AuditLaws.CacheIsRightExactlyWhen | kernel/state_store.py:513-514 | the cached tail is the rescanned one exactly when the size differs from the one left behind or the log still ends on the same hash |
| AuditLaws.SizeCanReturn | kernel/state_store.py:513-514 | two outside changes that restore the size make the next write break the chain |
| AuditLaws.RunVerifiesExactly | kernel/state_store.py:504-522 | over every run of writes and outside changes, the log verifies at each point if and only if each write finds it closed and uses its true tail and each change leaves a verifying log |
| AuditLaws.RunVerifies | kernel/state_store.py:504-522 | what a caller can ensure: over every run of writes, truncations and replacements that change the size, the log verifies throughout |
| TaskQueue.Kernel.constructor | kernel/core.py:146-149 | boot takes over the backlog of the last run and schedules a drainer if there is one |
| TaskQueue.Kernel.ChangeRequest | kernel/core.py:1090-1097 | a request is appended, gets a future, and a drainer is ensured |
| TaskQueue.Kernel.EnqueueAutonomous | kernel/core.py:1443-1455 | a trigger-fired request is appended without a future, and a drainer is ensured |
| TaskQueue.Kernel.EnsureDrainer | kernel/core.py:1099-1102 | a drainer is created exactly when none was or the last one is done |
| TaskQueue.Kernel.Resolve | kernel/core.py:1138-1141 | the task leaves the queue and its caller, if still waiting, is answered |
| TaskQueue.Kernel.DrainQueue | kernel/core.py:1104-1141 | the drain loop from one await point to the next, whatever ends without suspending |
| TaskQueue.Kernel.Resume | kernel/core.py:1104-1141 | one turn given to the drainer by the event loop |
| TaskQueue.Kernel.Dequeue | kernel/core.py:1477-1498 | a queued task that is not the running one is removed and its caller answered; anything else is refused |
| TaskQueueLaws.StepKeepsInv | kernel/core.py:1089-1141 | every step between await points keeps the invariant |
| TaskQueueLaws.RunKeepsInv | kernel/core.py:1089-1141 | so does every interleaving |
| TaskQueueLaws.TasksStartInOrder | kernel/core.py:1104-1141 | tasks start in arrival order and at most once; the running task heads the queue and cannot be dequeued; a non-empty queue has a live drainer |
| TaskQueueLaws.EachTaskResolvedOnce | kernel/core.py:1138-1141 | every id that arrived is still queued or resolved exactly once, and its caller is answered with how it left |
| TaskQueueLaws.TurnAdvances | kernel/core.py:1104-1141 | one turn of a live drainer finishes the running task and starts the next |
| TaskAnswers.TurnEndsTasks | kernel/core.py:1104-1141 | the tasks that end in a turn leave the queue from the front, each with its own result, which its waiting caller and nobody else is told; then the next one runs |
| TaskAnswers.RunningIsAnswered | kernel/core.py:1138-1141 | the waiting caller of the running task is told that task's result |
| TaskAnswers.AnswersAreResults | kernel/core.py:1104-1141 | over every run, each waiting caller of a task that ends in the next turn is told the result of its own task |
| TaskAnswers.RequestWaits | kernel/core.py:1090-1097 | an awaited request has a waiting future at once, joins the end of the queue and has a live drainer |
| TaskAnswers.DequeueTakesBack | kernel/core.py:1477-1498 | a task is taken back if and only if it is queued and not the current one; its waiting caller is told so and the others keep their order |
| TaskAnswers.LeavingIsSilent | kernel/core.py:1138-1141 | a caller that leaves is told nothing any more, and nothing else changes |
| TaskQueueLaws.BacklogDrains | kernel/core.py:1104-1141 | left alone the drainer runs the whole backlog, one turn per task, and then stops |
| ToolHistory.SanitizeHistory | app/main.py:1755-1788 | the result is well paired, keeps all other messages in order without checkpoint flags, and gives each id's calls its results first come first served, then placeholders |
| ToolHistory.FillPools | app/main.py:1765-1768 | the pools hold each id's results in recorded order |
| ToolHistory.AnswerCalls | app/main.py:1779-1787 | each call of a message is answered at once, in order, from its id's pool or by a placeholder |
| ToolHistory.PairedAt | app/main.py:1756-1762 | well-pairedness read by position: the calls a message opens are answered right behind it, in order, and then no result follows |
| ToolHistory.PairingIsUnique | app/main.py:1755-1788 | a well-paired history is determined by its other messages and each id's results in order |
| ToolHistory.SanitizedIsUnique | app/main.py:1755-1788 | the contract of sanitizing leaves no choice |
| ToolHistory.SanitizedIsRecorded | app/main.py:1755-1788 | each message of the result is a recorded one without its partial and stopped marks, a recorded result, or the text that no result was recorded |
| ToolHistory.WellPairedIsFixed | app/main.py:1755-1788 | an unflagged well-paired history, even one that reuses ids, is its own sanitized form |
| ToolHistory.SanitizeIsIdempotent | app/main.py:1755-1788 | sanitizing twice is sanitizing once |
| ToolHistory.AsManyResultsAsCalls | app/main.py:1756-1762 | a well-paired history has as many results with an id as calls with it |
| ToolHistory.BoundHistory | app/runtime/agent.py:338-346 | the longest end of the last `cap` messages that does not start with a result |
| ToolHistory.CutKeepsPairs | app/runtime/agent.py:338-346 | cutting a well-paired history leaves a well-paired one |
| ToolHistory.KeepsTheMost | app/runtime/agent.py:338-346 | what is kept is the longest end of the history within the cap that does not start with a result |
| ToolHistory.CapHoldsExactly | app/runtime/agent.py:338-346 | for every history, the cut one is within the cap if and only if the cap is positive, or zero with nothing but results in the history |
| ToolHistory.PairedStartsWithoutResult | app/runtime/agent.py:338-346 | a well-paired history does not start with a result, so with a cap of zero only an empty one is bounded |
| RunHub.RunHub.Begin | app/main.py:1626-1651 | a claim: next generation, empty buffer, start timer armed |
| RunHub.RunHub.Start | app/main.py:1653-1659 | a body attaches its task exactly when its claim is the live one and no Stop is under way |
| RunHub.RunHub.ExpireUnstarted | app/main.py:1661-1669 | the timer ends its own unstarted claim, telling viewers first, and nothing else |
| RunHub.RunHub.End | app/main.py:1671-1680 | a run is ended only under its own generation, and its waiters are woken |
| RunHub.RunHub.IsRunning | app/main.py:1682-1687 | a live claim whose task died is closed and announced |
| RunHub.RunHub.Stop | app/main.py:1689-1704 | Stop wakes the waiters, and ends a claim that never started |
| RunHub.RunHub.Publish | app/main.py:1717-1722 | a frame goes to every queue, and into the buffer of a live run |
| RunHub.RunHub.Subscribe | app/main.py:1724-1730 | a late viewer starts with the live run's frames, in order |
| RunHub.RunHub.Unsubscribe | app/main.py:1732-1733 | the viewer's queue is gone, the others are untouched |
| RunHubLaws.StepKeepsUp | app/main.py:1717-1730 | every step keeps every viewer caught up: what it was given since the run began, or since it joined, is exactly the buffer |
| RunHubLaws.StepKeepsInv | app/main.py:1626-1733 | every step keeps viewers, drivers, claims, timers and wake-ups consistent |
| RunHubLaws.ViewersSeeTheRun | app/main.py:1717-1730 | over every interleaving, while a run is live each viewer's queue ends in exactly its frames, whenever it joined |
| RunHubLaws.RetiredForGood | app/main.py:1626-1687 | generations only grow and a retired claim stays retired |
| RunHubLaws.RetiredNeverReturns | app/main.py:1653-1680 | a retired claim can neither be started nor end a newer run, however much later its body or clean-up comes |
| RunHubLaws.OnlyTheLiveRunSpeaks | app/main.py:1805-1838 | a driver at work drives the live run, so only its frames enter the buffer |
| RunHubLaws.EveryClaimCanBeReleased | app/main.py:1661-1687 | no claim is held for good: timer, question or clean-up releases it |
| RunHubEffects.StopReaches | app/main.py:1689-1704 | Stop asks a driver at work to wind down and wakes its waiters, ends an unstarted claim with its two frames, ends one whose driver died, and leaves an idle hub alone |
| RunHubEffects.StopLasts | app/main.py:1653-1704 | over every run after Stop, the run it met stays asked to stop until it is over, and its body cannot start |
| RunHubEffects.TimerReaches | app/main.py:1661-1669 | the timer ends exactly its own unstarted claim, with the two frames |
| RunHubEffects.PollReaches | app/main.py:1682-1687 | asking ends exactly a run whose driver died, with the closing frame |
| RunHubEffects.CleanUpReaches | app/main.py:1671-1680 | a clean-up ends exactly its own live run, and gives viewers nothing |
| RunHubEffects.SendReaches | app/main.py:1626-1651 | a message is turned away by a live run, else begins the next one, open to its body and with the timer armed, and is given to every viewer |
| RunHubEffects.OpenReaches | app/main.py:1653-1659 | a body in time becomes the driver and disarms the timer; a late one changes nothing |
| RunHubEffects.EmitReaches | app/main.py:1717-1722 | a frame of the driver is given to every viewer and kept for later ones |
| RunHubEffects.PublishReaches | app/main.py:1717-1722 | whatever is published goes to every viewer, and into the buffer only while a run is live |
| RunHubEffects.ViewersComeAndGo | app/main.py:1724-1733 | a new viewer starts with the frames of a live run or with nothing, and a leaving one is gone |
| RunTable.StepKeepsInv | app/main.py:1739-1752 | only the hub in the table can be live |
| RunTable.OneLiveRun | app/main.py:1739-1752 | over every run no two hubs of a conversation are live, and Stop finds the live one |
| RunTable.ViewerSeesRunExactly | app/main.py:2199-2213 | over every run: a viewer that stays has been shown exactly the live run's frames if and only if its hub was in the table when its stream opened |
| RunTable.WatchedHubStaysOn | app/main.py:1747-1752 | a watched hub in the table stays there over every run in which its viewer stays |
| RunTable.DroppedExactly | app/main.py:1739-1752 | the table lets go of its hub exactly when a clean-up, a Stop or a timer that ends its claim leaves it idle and unwatched, and makes a hub exactly when one is asked for and there is none |
| RunTable.DroppedHubStaysSilent | app/main.py:1739-1752 | over every run a hub that left the table is never live again and gives its viewers nothing more |
| RunTable.ViewerCanMissTheRun | app/main.py:2199-2213 | a run in which the hub was collected before the stream opened: the condition above can fail |
| EventStream.ReadSSE | app/frontend/src/api.js:124-147 | the events delivered are those of the joined chunks, cut where a callback aborts, however the text is split |
| EventStream.DrainFrames | app/frontend/src/api.js:128-146 | every finished frame in the buffer is delivered and the unfinished rest kept |
| EventStream.DeliverLines | app/frontend/src/api.js:132-144 | line by line: the parsed data payloads, malformed and empty ones skipped |
| EventStream.DeliveredAppend | app/frontend/src/api.js:124-147 | a text may be cut anywhere: reading on from the unfinished rest delivers the remaining events |
| EventStream.ReadsWhatWasWritten | app/main.py:1595-1596 | any mix of objects and comments reads back as exactly the objects in order |
| EventStream.ReadBack | app/frontend/src/api.js:100-147 | a written stream, in any chunks, hands over the written objects in order |
| EventStream.LineCarries | app/main.py:1595-1596 | a written line carries exactly its object, a comment nothing |
| EventStream.CommentCarriesNothing | app/main.py:2204-2210 | no comment or keepalive is ever an event, whatever its text |
| StreamNoise.DataLineCarries | app/frontend/src/api.js:132-144 | a data line carries what its payload decodes to, whatever the blanks around it, and a malformed one is skipped |
| StreamNoise.EmptyDataCarriesNothing | app/frontend/src/api.js:132-144 | a data line without a payload carries nothing |
| StreamNoise.OtherLineCarriesNothing | app/frontend/src/api.js:132-136 | a line that is no data line carries nothing |
| StreamNoise.FrameDeliversLines | app/frontend/src/api.js:128-146 | a frame of several lines delivers what each carries, in order, and what follows is read as if alone |
| StreamNoise.LineEventsCons | app/frontend/src/api.js:132-144 | the events of lines, one after the other |
| StreamNoise.AbortKeepsFirst | app/frontend/src/api.js:137-144 | a caller that aborts in its n-th event is handed the first n |
| EventStream.CutInsideFrame | app/frontend/src/api.js:124-147 | a stream that breaks off inside a frame has delivered exactly the objects of the whole frames before it |
| EventStream.CrLfDeliversNothing | app/frontend/src/api.js:129-131 | a stream whose line feeds all follow a carriage return has no frame end for the reader |
| VersionGraph.ComputeLayout | app/frontend/src/components/VersionGraph.jsx:48-89 | every row's lane and the number of lanes, row by row as the pass leaves them |
| VersionGraphLaws.TrunkIsLaneZero | app/frontend/src/components/VersionGraph.jsx:64-71 | lane 0 holds exactly the trunk |
| VersionGraphLaws.BranchIsOneColumn | app/frontend/src/components/VersionGraph.jsx:64-82 | the parent a branch goes on in gets its child's lane, and no row strictly between uses it |
| VersionGraphLaws.BranchTakesSmallestLane | app/frontend/src/components/VersionGraph.jsx:56-70 | a new branch gets the smallest lane no branch above still holds |
| VersionGraphLaws.WidthIsPeakLoad | app/frontend/src/components/VersionGraph.jsx:48-89 | there are as many off-trunk lanes as some row needs at once, parentless versions holding theirs for good |
| VersionGraphLaws.NoNarrowerPicture | app/frontend/src/components/VersionGraph.jsx:48-89 | no drawing in which each branch is one column that nothing enters while it runs has fewer lanes |
| VersionGraphLaws.LoadCountsOpenBranches | app/frontend/src/components/VersionGraph.jsx:64-82 | the lanes needed at a row: one for every version at it or below that a branch is drawn to there, one for every version above without a parent |
| VersionGraphLaws.ReservedAndFreeAreApart | app/frontend/src/components/VersionGraph.jsx:51-82 | at every row no lane is free twice, none is both free and reserved, and no two reserved are the same |
| VersionGraphLaws.HeldStep | app/frontend/src/components/VersionGraph.jsx:64-82 | which branches hold a lane from one row to the next, by the rows alone |
| VersionGraphLaws.ReservedArePending | app/frontend/src/components/VersionGraph.jsx:67-81 | at every row exactly the parents still to come that have a child off the trunk above have a lane kept, their top child's |
| Knowledge.ChunkText | app/tools/knowledge.py:50-71 | the loop ends for every size and overlap and yields the chunks of the specification |
| Knowledge.PreferBoundary | app/tools/knowledge.py:62-66 | the loop over the separators |
| Knowledge.EverythingIsCovered | app/tools/knowledge.py:50-71 | every non-blank position of the stripped text lies in some chunk |
| Knowledge.ChunksAreParts | app/tools/knowledge.py:50-71 | every chunk is a non-empty trimmed piece of the text, no longer than the size |
| Knowledge.CutsAtStrongestBoundary | app/tools/knowledge.py:60-66 | a window is cut at the last paragraph break past its middle, else the last line break, else the last sentence end, else not at all |
| Knowledge.WindowsOverlap | app/tools/knowledge.py:67-70 | when the step is longer than one, the next window starts the overlap and the stripped lead before the end of the chunk, and shares that end |
| Knowledge.PassagesStayWhole | app/tools/knowledge.py:50-71 | no short passage is torn: one of at most overlap + 1 characters, within what a cut always leaves, lies whole in some chunk |
| Knowledge.LastWindowIsWhole | app/tools/knowledge.py:56-66 | a window that reaches the end of the text is not cut |
| Knowledge.WindowIsNext | app/tools/knowledge.py:56-66 | any other window is the next `size` characters, cut at the three separators in their order |
| Knowledge.ShortIsOneChunk | app/tools/knowledge.py:50-55 | a document within the size is one chunk, a blank one none |
| Instructions.Parse | app/tools/instructions.py:51-64 | metadata and body of a page, with or without its fences |
| InstructionsLaws.PageSurvives | app/tools/instructions.py:51-88 | printing and parsing give back title, category and order, and the body in normal form, whatever the body holds |
| InstructionsLaws.SecondRoundChangesNothing | app/tools/instructions.py:67-88 | a second print and parse leaves the entry unchanged |
| InstructionsLaws.NormalShape | app/tools/instructions.py:59-69 | the normal form: from the first non-newline to the last non-blank and one newline, or nothing |
| InstructionsLaws.IntTextParses | app/tools/instructions.py:67-77 | every integer order reads back |
| InstructionsLaws.OrderReads | app/tools/instructions.py:71-77 | so does one with blanks around it or a plus sign |
| InstructionsLaws.BareTextReads | app/tools/instructions.py:51-88 | a text without both fences is all body, with the default category and order, titled by its heading or slug |
| InstructionsLaws.HeadingIsFirst | app/tools/instructions.py:91-96 | the heading is that of the first line that starts with a mark, without its marks |
| InstructionsLaws.NotesKey | app/tools/instructions.py:60-63 | blanks around a key are no part of it |
| InstructionsLaws.NoColonNotesNothing | app/tools/instructions.py:60-63 | a line without a colon is ignored |
| InstructionsLaws.BreaksSplit | app/tools/instructions.py:60-63 | every line break of `splitlines` ends a line, CR LF as one |
| InstructionsLaws.ParsedNamesAreNames | app/tools/instructions.py:51-64 | whatever a page holds, its parsed title and category are non-empty, trimmed and on one line |
| InstructionsLaws.PageSurvivesExactly | app/tools/instructions.py:60-88 | title and category both survive printing and parsing if and only if both are non-empty, trimmed and on one line |
| InstructionsLaws.FieldsSurviveExactly | app/tools/instructions.py:51-88 | of a title and a category on one line, each survives if and only if it is non-empty and trimmed, whatever the other is; order and body always do |
| InstructionsLaws.GoodTitleIsLost | app/tools/instructions.py:60-88 | with a second `title:` line behind a line break of the category, the page reads back with that title instead of its own good one |
| Triggers.FindSpikes | kernel/triggers.py:100-134 | exactly the groups that trip, in order |
| Triggers.FindProposals | kernel/triggers.py:145-164 | the proposals due, up to the cap per pass |
| Triggers.TriggerManager.UpdateTrigger | kernel/state_store.py:891-901 | one entry, the first with the id, is changed in place |
| Triggers.TriggerManager.FireTrigger | kernel/triggers.py:257-301 | what a fire records: last time, the day's count across rollovers, one-shot disable, pruned fingerprints |
| Triggers.TriggerManager.FireSchedules | kernel/triggers.py:313-323 | the schedule pass |
| Triggers.TriggerManager.FireFetched | kernel/triggers.py:325-370 | the error-spike pass and the advisor pass over what was fetched |
| Triggers.TriggerManager.FireHits | kernel/triggers.py:336-346 | the hits of one trigger until the cap |
| Triggers.TriggerManager.HandleWebhook | kernel/triggers.py:373-394 | the reply and the effect of a webhook call, refusals first |
| TriggerTally.CountersTell | kernel/triggers.py:247-254 | the counters never tell more than the fires of a day, and tell them all if and only if no trigger that fired on it has since fired on another |
| TriggerLaws.FireKeepsInv | kernel/triggers.py:257-301 | one due, cooled-down fire below the cap keeps all counters and distances right |
| TriggerLaws.HitPassFires | kernel/triggers.py:336-346 | a pass over a trigger's hits fires exactly those not in flight for it, in order, up to what the cap leaves room for |
| TriggerLaws.HitPassApartExactly | kernel/triggers.py:336-346 | the pass keeps all fires apart if and only if the hits it fires have different fingerprints or the trigger has no cooldown |
| TriggerRuns.FetchPassApartExactly | kernel/triggers.py:325-370 | the same for a whole fetch pass, trigger by trigger |
| TriggerRuns.StepKeepsInv | kernel/triggers.py:303-394 | every pass, webhook, creation and toggle keeps the counters right and, each under its own condition, the cap and the distances |
| TriggerRuns.CountersTellTheDay | kernel/triggers.py:247-254 | over every run, in any order of times, the gate's count is the day's fires if and only if no trigger that fired on the day has since fired on another |
| TriggerRuns.UndisturbedRunKeepsCap | kernel/triggers.py:247-254 | while that holds for the day of each pass and call, the fires of all kinds on one day never exceed the cap |
| TriggerRuns.DailyCapHolds | kernel/triggers.py:247-254 | over every run whose days come in order, times within a day in any order, the fires of all kinds on one day never exceed the cap |
| TriggerCap.HitPassCapExactly | kernel/triggers.py:336-346 | a pass over a trigger's hits keeps the cap of its day if and only if no trigger that fired on the day has since fired on another, or all hits not in flight fit |
| TriggerCap.FetchPassCapExactly | kernel/triggers.py:325-370 | the same for a whole fetch pass, trigger by trigger |
| TriggerCap.DailyCapHoldsExactly | kernel/triggers.py:303-394 | over every run, in any order of times, the cap of every day holds if and only if each step meets that condition |
| TriggerRuns.FiresAreApartExactly | kernel/triggers.py:77-164 | over every run with ticks in order and webhooks at any time, all fires are apart if and only if every fetch pass meets the condition above on fingerprints |
| TriggerRuns.DistinctRunIsSeparate | kernel/triggers.py:325-370 | a run none of whose fetches lists a fingerprint twice meets it |
| TriggerRuns.FiresAreApart | kernel/triggers.py:77-164 | what apart means: interval fires the interval apart, daily ones on different days, fires for one fingerprint a cooldown apart |
| TriggerRuns.ForgettingIsHarmless | kernel/triggers.py:290-295 | the pruned record decides exactly as the whole history would |
| TriggerCases.SwitchedOffStaysQuiet | kernel/triggers.py:313-323 | a trigger that is switched off is fired neither by the schedule pass nor by its webhook |
| TriggerCases.FetchGoesByItsList | kernel/triggers.py:325-370 | how often a fetch pass fires a trigger goes by the switch in the list read at the start of the tick: once for each hit chosen if listed as enabled, else never |
| TriggerCases.RepeatedPrintFiresTwice | kernel/triggers.py:334-346 | a fetch that repeats a fingerprint, with room under the cap, fires twice at once |
| TriggerCases.LatePassExceedsCap | kernel/triggers.py:303-346 | a tick that goes on behind a webhook of the next day exceeds the cap of its own day |
| TriggerFires.WebhookRefusesInOrder | kernel/triggers.py:373-394 | each refusal of a webhook call by its own condition, the first that applies |
| TriggerFires.WebhookFiresExactly | kernel/triggers.py:373-394 | a webhook call adds one fire if and only if the first webhook with the id is enabled, the call signed, the master switch on and the day has room; else nothing changes |
| TriggerFires.FireIsRecorded | kernel/triggers.py:257-301 | what a fire leaves in its trigger, field by field, and that no other trigger changes |
| TriggerFires.ScheduleFiresExactly | kernel/triggers.py:77-98 | a schedule trigger that is considered fires if and only if it is enabled, its interval or time of day has come, and the day has room |
| TriggerFires.SchedulePassInTurn | kernel/triggers.py:313-323 | a schedule pass considers one trigger after the other |
| TriggerFires.GroupFiresExactly | kernel/triggers.py:100-134 | an error group fires a trigger if and only if it is unresolved, recent, frequent or new enough, rested and not in flight, and the day has room |
| TriggerFires.GroupsOneByOne | kernel/triggers.py:100-134 | the groups of a fetch are judged one by one and kept in order |
| TriggerFires.ProposalFiresExactly | kernel/triggers.py:145-164 | a proposal fires a trigger if and only if it has an id and a prompt, has rested and is not in flight, and the day has room |
| TriggerFires.ProposalsOneByOne | kernel/triggers.py:145-164 | so are proposals, until as many as a tick may take are found |
| TriggerFires.AtMostPerTick | kernel/triggers.py:145-164 | never more than the cap per tick, or one |
| TriggerFires.OneShotFiresOnce | kernel/triggers.py:286-289 | over every run in which nobody switches it on, a one-shot schedule or webhook fires at most once and is off from then on |

## Left out

- Crashes inside a step (between the two renames of a swap, between moving main and writing the slots, between a task's final status and its removal from the queue): each is one step here.
- Two rollbacks whose target reads interleave: reading the undo target and rebooting to it is one step.
- The internals of the verification gate, and the checks a revert excludes from it: the verdict is an input.
- Timestamps, prompts, messages, health reports and the `via` and `line` notes of a status change: the statuses and the fields that later decisions read are kept.
- References that git itself resolves when the index does not, and digits other than ASCII ones in `v<seq>`.
- The seed's exact identity at boot: without a recorded good version, main is started.
- Signature, digest and health probing of the kernel: any digest function, signature predicate and health outcome; the status index of kernel versions is not modelled.
- What a kernel that fails its health gate may have been asked for before it is stopped: only a kernel that came up takes requests.
- The tree left at kernel/ after the crash-count fallback: the model keeps it, as the code does, and claims nothing more.
- Audit lines that are JSON but no object, and a hash stored as null: a line is blank, unreadable or a record.
- Shutdown, cancellation of the drainer, the kernel-change and line-promotion bodies that run inside a task: how a task ends is an input.
- The queue file of a reader that finds it corrupt: the queue is always readable.
- Consumption of a viewer's queue: frames are recorded as they are put in, and an asyncio queue hands them over in that order.
- `wait_stopped`'s polling fallback for a run without a stop event; conversations other than one: their hubs are separate.
- UTF-8 decoding of the byte stream: chunks are decoded text. Errors of the connection end the list of chunks.
- Event streams other than those of the program's own writer: the reader delivers nothing of a stream whose lines end in CR LF (`EventStream.CrLfDeliversNothing`) and takes each `data:` line of a frame as an event of its own, where section 9.2 of the WHATWG HTML standard says otherwise.
- The sort of the versions by number, the drawing and its coordinates: the rows are given newest first, with a missing or empty parent as none.
- Newline translation when pages are read from files; underscores and non-ASCII digits in an order.
- Interval and cooldown fractions (times are whole seconds), rendering of prompts, HMAC of webhooks, malformed error groups, changed settings and deleted triggers: with them the laws do not hold as stated.
- One-shot triggers for errors or proposals with several hits in one pass: the pass goes on after the first, as in the code, and nothing more is claimed.
- The agent, its tools, the advisor, evals, previews, plugins, operator sessions, configuration and all HTTP routes.
