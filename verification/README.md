# A verified model of the workbench's protocols

This project models the parts of the workbench whose guarantees span several calls, several people or
several interleaved processes, and proves those guarantees for every run, every input or every
interleaving. Each module follows one part of the repository:

- `approval.dfy`, `approval_decisions.dfy`, `approval_runs.dfy`, `approval_life.dfy`, `approval_overlap.dfy`: a run
  held for approval. The service calls are methods of a class, each proved equal to a function of the stored run;
  what each call asks and leaves is stated on the run alone; the safety results are about arbitrary sequences of
  decisions, resolutions, edits, policy edits, restarts and cancellations, by anyone; over the whole life of a run
  with its waits, stop requests and gate; and over resolutions that could be interrupted, which in the service they
  cannot.
- `audit_chain.dfy`, `audit_records.dfy`, `audit_writers.dfy`, `audit_tail.dfy`: the hash-chained log, what its
  records hold, any number of writers interleaving under the exclusive lock, and the backward block scan for the tail.
- `task_queue.dfy`, `task_queue_account.dfy`: any number of workers draining one queue, with stops at any await point
  that can suspend, and where every task submitted has gone.
- `invitations.dfy`, `invitations_redeeming.dfy`: invitations redeemed by interleaved callers, one database statement
  at a time, and by one caller alone.
- `password_resets.dfy`, `password_resets_redeeming.dfy`: reset codes, one transaction at a time.
- `administrators.dfy`, `administrators_grants.dfy`: owner setup, access requests, activation, the last-administrator
  rule, and where every account's role comes from.
- `access_codes.dfy`: reading back a code however it was typed.
- `evidence_ledger.dfy`, `evidence_numbers.dfy`, `visual_reading.dfy`, `visual_reading_content.dfy`: evidence
  identifiers, and matching what a vision model answers to the pages it was shown.
- `disputed_inputs.dfy`, `disputed_inputs_reading.dfy`: inputs the sources disagree about, from merging the sources to
  what an open conflict withholds over any sequence of resolutions.
- `claim_verdicts.dfy`, `claim_rules.dfy`: verdicts on the claims of an answer, the checks over them, and the report.
- `assessment.dfy`, `assessment_figures.dfy`, `assessment_order.dfy`, `assessment_withdrawal.dfy`: the integrity
  decision, each of its figures from the inputs, what the order of readings can change in it, and withdrawal.
- `calendar.dfy`, `due_dates.dfy`, `rounding.dfy`: dates, due dates and rounding.
- `config_merge.dfy`, `role_inheritance.dfy`: layered configuration and the inheritance walk over roles.

Conventions. A digest or hash is symbolic or an arbitrary function assumed collision-free; the model that
answers about images, the patterns a sentence matches and the clock are parameters about which nothing else is
assumed, except that `DisputedInputs.OpenConflictInvalidatesTheReport` takes a conclusion of one sentence to be a
conclusion of the answer, as `_stated_conclusions` collects them (`backend/agents/verifier.py:202-216`). Figures
are exact reals, rounded as the formulas round them; where a result holds for any rounding it says so. A refused
call is a value, never a precondition. Where a method is specified by a function, what the function comes to is
stated again on the inputs, without it.

Waits. Publishing an event and rendering a document contain awaits that never suspend
(`backend/core/events.py:42-65`, `backend/tools/registry.py:613-648`), so the code around them runs as one step:
lining up a new task, resolving a conflict, and the gate.

## What the proofs found

Where the code does less than its documentation says, the model follows the code and states exactly when.

- The signatures a release carries always match the plan's roles when the rules in memory are the ones in
  the policy files. The digest hashes the files on disk (`backend/proof/provenance.py:53-62`) while the plan
  comes from rules loaded once, so a file edited, signed under, and only then loaded can leave a signature in
  another role's place: `ApprovalRuns.ReloadCanMisplaceARole`, and `ApprovalRuns.ReleaseIsComplete` for when.
- A stop that comes during a model call whose answer arrives before the next poll is still pending at the gate.
  On the path without review the deliverable is then released and the run cancelled:
  `ApprovalLife.ReleasedMeansDeliveredUnless` and `ApprovalLife.PendingIff` say exactly when, and
  `ApprovalLife.LifeThatStrays` is such a life. A tool call or a routing decision is not polled at all. The shipped
  policy reviews every run that drafts a deliverable (`policies/approval-rules.yaml:13-17`), so it takes another
  policy to see it: `ApprovalLife.ReviewedRunsNeverStray`.
- Choosing an equipment tag leaves out the sources that name another, and with them what only they disputed; the
  conflicts already recorded stay open. The assessment is then calculated while high-impact conflicts are open,
  and one of them may be closed with the value of a source that is no longer read, which the formulas then use:
  `DisputedInputs.OpenButNotConflictedIff` says exactly when, `DisputedInputs.ChosenTagLeavesAConflictOpen` and
  `DisputedInputs.RuledOutValueMayBeUsed` give runs.
- A conclusion is CONFLICTED for what it states only if its kind depends on the inputs:
  `ClaimVerdicts.OnlyDependentKindsAreCaught`. "The remaining lifetime of the shell is 3.2 yrs [F2]." states a
  remaining life and reads as factual, "The severity_band must be High under the procedure." states a severity and
  reads as procedural. The engineering check still fails such an answer while the assessment is conflicted
  (`DisputedInputs.OpenConflictInvalidatesTheReport`); where a chosen tag has left the open conflicts behind nothing
  does (`ClaimVerdicts.IndependentConclusionsPass`).
- The last-administrator check reads and then writes, and its route is a plain function
  (`backend/api/routes/accounts.py:282`), which the framework runs on a thread of its own. Two deactivations
  that overlap leave nobody exactly when no third account administers:
  `Administrators.OverlappingDeactivationsLeaveNobodyIff`.
- With several open input conflicts the first one a claim touches decides, and a sentence that reads as
  withholding is not asked: "the sources disagree, t-min is 8.0 mm [F2]" is SUPPORTED although it takes a side
  (`ClaimVerdicts.TakingASideIsCaughtIff`, `ClaimVerdicts.WithholdingCoversASide`). A verdict is looked up by the
  first 400 characters of its claim: `ClaimVerdicts.LongClaimsShareAVerdict`. Each re-verification writes the note
  of a failed check it keeps once more: `ClaimVerdicts.LimitationsRepeatIff`.
- A location whose formula was refused leaves the comparison without blocking the decision:
  `AssessmentWithdrawal.RefusedLocationsAreIgnored`, with an instance in
  `AssessmentOrder.TiedReportMayDropALocation`. Locations tied on remaining life let the order of readings decide
  location, rate and trigger, exactly when they differ on them: `AssessmentOrder.OrderFixesIff`.
- A withdrawn circuit can still show a due date: a location just below t-min whose rate rounds to zero spends no
  life. It can happen exactly on a wall whose nominal thickness does not exceed t-min by at least half a millionth
  of a millimetre per year in service: `AssessmentWithdrawal.NoDueDateOnThisWallIff`.
- A role whose own level ranks below the default sees less than a parent that states none:
  `RoleInheritance.InheritanceOnlyAdds`.
- A variable whose value is a mapping replaces what is there instead of merging with it:
  `ConfigMerge.VariableIsAnOverlayIff`.
- The chain verifier does not read sequence numbers: `AuditChain.NumbersAreNotVerified`. A log is pinned by its
  head hash only: `AuditChain.TruncationNeedsTheHead`.
- A dropped `RESET-` prefix is recovered unless the body itself begins with it:
  `AccessCodes.ResetPrefixMayBeDroppedUnlessRepeated`.
- The worked piping example divides by the rate as displayed: `DueDates.DisplayedRateComparesIff`.

## Model

| member | source | states |
|---|---|---|
| Approval.ApprovalDesk.DecideApproval | backend/api/task_service.py:803-955 | the stored run and the outcome are the specified decision on the run as it was stored: checks in order, signing, release or refusal |
| Approval.ApprovalDesk.ResolveConflict | backend/api/task_service.py:1158-1205 | the stored run after a resolution: the recomputed, re-rendered run with its signatures refreshed, or the unchanged run and why |
| Approval.ApprovalDesk.CancelRun | backend/api/task_service.py:594-647 | only the submitter or a reader of all tasks stops a run, and only while it is not finished: a held one is closed at once, one in progress keeps its record |
| Approval.ApprovalDesk.RefreshSignatures | backend/api/task_service.py:991-1059 | the plan is recomputed, and the list emptied and written back exactly when a signature is stale or no plan remains |
| Approval.ApprovalDesk.SignNext | backend/api/task_service.py:1061-1122 | the next signature in policy order by a person who has not signed, or the reason it is refused |
| Approval.ApprovalDesk.AnyStale | backend/api/task_service.py:1018-1024 | some signature does not match what its own digest version binds now |
| Approval.ApprovalDesk.Object | backend/api/task_service.py:817-877 | the first check of a decision that fails, in the source's order |
| ApprovalDecisions.RefusedForTheFirstFault | backend/api/task_service.py:813-901 | a decision is refused for the first thing wrong with it, in order, and accepted exactly when nothing is: status, permission, authority, own run, version opened, note, open conflicts, and for an approval the place of the plan |
| ApprovalDecisions.AcceptedDecisionLeaves | backend/api/task_service.py:878-930 | the whole record an accepted decision leaves: the signature in the next place on the version there is, or the status, word, digest and files of the outcome, and nothing else changed |
| ApprovalDecisions.RefusedDecisionLeaves | backend/api/task_service.py:811-823 | a refused decision empties and writes back a list that no longer stands exactly when the caller may decide a held run, and otherwise leaves the whole record alone |
| ApprovalDecisions.DecidedOnTheVersionSeen | backend/api/task_service.py:841-863 | a decision that names the version opened is accepted only on that version, or on a stored version 1 record whose content is unchanged |
| ApprovalDecisions.StaleViewDecidesNothing | backend/api/task_service.py:837-863 | over every run, a page opened before anything its digest binds changed neither signs nor settles afterwards |
| ApprovalDecisions.Version1ViewIsSpent | backend/api/task_service.py:841-851 | a page opened under version 1 decides nothing once the run has been written again |
| ApprovalDecisions.DigestBindsIff | backend/proof/certificate.py:113-147 | two runs have one digest exactly when content, prompt, evidence, policy files and models are the same |
| ApprovalDecisions.ContentBindsIff | backend/proof/certificate.py:149-163 | and one version 1 digest exactly when answer, files, results, conflicts and assessment are |
| ApprovalDecisions.PlanIs | backend/api/task_service.py:1004-1014 | the plan is the policy for the severity computed last on a calculated assessment, else the one stored at the gate |
| ApprovalDecisions.ResolutionRefusedForTheFirstFault | backend/api/task_service.py:1174-1196 | a resolution is refused for the first thing wrong with it, leaving the run alone, and accepted exactly when nothing is |
| ApprovalDecisions.AcceptedResolutionLeaves | backend/agents/orchestrator.py:3265-3336 | the whole record a resolution leaves: one conflict closed by the human evidence and every other as it was, what recomputing found, the deliverable replaced unreleased, signatures kept only if still current |
| ApprovalDecisions.RenderingKeepsWhatWasReleased | backend/agents/orchestrator.py:3434-3438 | a re-rendered draft keeps every released file as often as it was there and replaces the others by the new one, unreleased |
| ApprovalDecisions.CancellationLeaves | backend/api/task_service.py:606-634 | who may stop a run and when, and that a run in progress keeps its record while any other is closed |
| ApprovalRuns.NextKeepsInv | backend/api/task_service.py:803-955 | no event lets a person sign twice or sign their own run, or releases a deliverable of a run that is not delivered |
| ApprovalRuns.DeliveredIsFinal | backend/api/task_service.py:814-815 | no decision, resolution, edit or cancellation changes a delivered run |
| ApprovalRuns.RefreshStandsOrVoids | backend/api/task_service.py:991-1059 | refreshing keeps all signatures or none, none exactly when one is stale or no plan remains, and changes nothing a digest binds |
| ApprovalRuns.ReleaseIsComplete | backend/api/task_service.py:803-955 | any step to delivered is an approval by someone else that fills the last place: plan complete, signers distinct and none the submitter, all current, no high conflict open; every place carries the plan's role if and only if the places signed before did |
| ApprovalRuns.OneStepReleases | backend/api/task_service.py:911-922 | between held and delivered there is one decision that releases everything; nothing before it, nothing changed after it |
| ApprovalRuns.OnlyDecisionsDeliver | backend/api/task_service.py:911-915 | only a decision on a held run delivers it |
| ApprovalRuns.ReleasedImpliesDelivered | backend/agents/orchestrator.py:2457-2488 | in every run of a held task a released deliverable belongs to a delivered run |
| ApprovalRuns.RunKeepsAligned | backend/api/task_service.py:1006-1014 | while the rules in memory follow the policy files, every current signature carries its own place's role, over every run |
| ApprovalRuns.EveryPlaceCarriesItsRole | backend/api/task_service.py:1061-1122 | where the rules in memory follow the policy files, every signature of a release carries the role its place demands |
| ApprovalRuns.WithoutRestartPolicyIsInForce | backend/core/config.py:351-353 | runs without a restart keep one set of rules and so qualify |
| ApprovalRuns.ReloadCanMisplaceARole | backend/proof/provenance.py:53-62 | rules edited before the first signature and loaded after it release a run with a signature in another role's place |
| ApprovalRuns.ShrunkPlanBlocksApproval | backend/api/task_service.py:1080-1081 | with at least as many current signatures as places no approval is accepted |
| ApprovalRuns.ChangeVoidsSignatures | backend/proof/certificate.py:113-147 | any change to what a version 2 digest binds leaves no signature standing at the next decision |
| ApprovalRuns.Version1StandsIff | backend/proof/certificate.py:149-163 | version 1 signatures stand exactly while the content they bind is unchanged and a plan remains |
| ApprovalRuns.ResolutionVoidsSignatures | backend/api/task_service.py:1198-1205 | an accepted resolution leaves no version 2 signature |
| ApprovalRuns.RefusalOnlyVoids | backend/api/task_service.py:1023-1040 | a refused decision changes nothing except dropping stale signatures with the plan they answered |
| ApprovalRuns.ApprovalSigns | backend/api/task_service.py:1061-1122 | an in-order approval adds exactly that signature, keeps the earlier ones current, and delivers only when it fills the plan |
| ApprovalRuns.NthApprovalDelivers | backend/api/task_service.py:1102-1102 | a plan of n is held after each of the first n - 1 in-order approvals by distinct people and delivered by the n-th |
| ApprovalRuns.NeverEarlier | backend/api/task_service.py:878-901 | in any run there are at most as many signatures as accepted approvals, so no release comes before the n-th |
| ApprovalLife.GateHolds | backend/agents/orchestrator.py:2459-2478 | what the gate holds for review is a held run, or a stopped one with nothing released |
| ApprovalLife.GateLeaves | backend/agents/orchestrator.py:2441-2495 | the whole record the gate leaves: status, the one deliverable and whether it is released, the approval asked for without signatures, nothing else |
| ApprovalLife.MomentLeaves | backend/agents/orchestrator.py:652-723 | what each other moment of a run does to it: where a stop is honoured, who may act meanwhile |
| ApprovalLife.StepKeepsLife | backend/agents/orchestrator.py:652-723 | no wait, stage call, stop, gate or outside call leaves a released deliverable on a run not delivered, but the one moment described next |
| ApprovalLife.ReleasedMeansDeliveredUnless | backend/agents/orchestrator.py:2457-2495 | over the whole life of a run, gate included, released implies delivered exactly unless the run met its gate without review, with a render to release, while a stop was pending |
| ApprovalLife.ReviewedRunsNeverStray | backend/agents/orchestrator.py:2459-2478 | a run whose gate asks for review is never that exception |
| ApprovalLife.LifeThatStrays | backend/agents/orchestrator.py:2457-2495 | a run without review that is stopped during a call, polled or not, whose answer comes first ends cancelled with its deliverable released |
| ApprovalLife.PendingIff | backend/agents/orchestrator.py:652-723 | a stop is pending in running code exactly when it came during a wait that ended before the next poll, or that nothing polls, with no stage call or model call begun since |
| ApprovalOverlap.RunKeepsShared | backend/agents/orchestrator.py:3223-3367 | were resolutions interruptible between load and write, still nobody would sign twice or their own run, and only delivered runs would have released deliverables |
| ApprovalOverlap.EveryReleaseIsComplete | backend/api/task_service.py:803-955 | and every release would still be a decision on a complete set |
| ApprovalOverlap.ReleaseUndoneIff | backend/api/task_service.py:1194-1205 | a release would be undone by exactly the writes of resolutions loaded before it |
| ApprovalOverlap.ReleaseStandsIff | backend/api/task_service.py:1194-1205 | over any run a release would stand unchanged to the end exactly when no resolution loaded before it is written after it |
| ApprovalOverlap.UninterruptedIsWhole | backend/api/task_service.py:1194-1205 | uninterrupted, loading and writing are the one step of the service |
| AuditChain.VerifyChain | backend/core/audit.py:220-254 | accepts exactly the unbroken chains; on rejection the records before the reported one are the longest valid prefix and the head hash is theirs |
| AuditChain.AuditLog.Append | backend/core/audit.py:144-176 | one event numbered and linked after the last; an unbroken, numbered log stays so; nothing when auditing is off |
| AuditRecords.RecordHolds | backend/core/audit.py:146-163 | a record holds its event, the next number and the hash before it, and its own hash is over all three |
| AuditRecords.TailIs | backend/core/audit.py:96-118 | the tail is the last number and hash, zero and genesis where there is none |
| AuditChain.AppendKeepsChainIff | backend/core/audit.py:144-176 | an append keeps the chain exactly when the tail it was built from is still the tail |
| AuditChain.FirstBreak | backend/core/audit.py:220-254 | a broken prefix is never mended by what follows |
| AuditChain.HeadCommitsToLog | backend/core/audit.py:87-92 | two accepted logs with equal head hashes are equal record for record |
| AuditChain.RewritingIsDetected | backend/core/audit.py:220-254 | any other log with the head hash of an accepted one is rejected |
| AuditChain.TruncationNeedsTheHead | backend/core/audit.py:220-254 | every proper prefix of an accepted log is accepted, under a different head hash |
| AuditChain.TipIsGenesisOnlyWhenEmpty | backend/core/audit.py:87-92 | the tip of an accepted log is the genesis value only when the log is empty |
| AuditChain.NumbersAreNotVerified | backend/core/audit.py:220-254 | a one-record chain is accepted whatever number it starts at |
| AuditWriters.StepKeepsInv | backend/core/audit.py:120-176 | every step of a writer under the lock keeps the log one numbered chain and only appends |
| AuditWriters.EveryRunIsOneChain | backend/core/audit.py:120-176 | for any number of writers and any interleaving under the lock the log is one unbroken chain numbered 1..n |
| AuditWriters.RunsOnlyAppend | backend/core/audit.py:144-176 | what a run has written, every continuation of it keeps |
| AuditRecords.NoEventIsLost | backend/core/audit.py:144-176 | under the lock the log holds every event written, once, in the order written, whatever the interleaving |
| AuditRecords.WriterIsMovedBy | backend/core/audit.py:120-142 | a writer moves by its own statements alone, takes the lock only free and frees only its own |
| AuditRecords.WritesWhenFree | backend/core/audit.py:144-176 | a writer that finds the lock free appends its event after the last and leaves the lock free |
| AuditRecords.OneWriterInside | backend/core/audit.py:120-142 | at most one writer is past the lock in any run |
| AuditWriters.VerifyAfterRun | backend/core/audit.py:220-254 | the verifier accepts every such log and reports its length and head |
| AuditWriters.UnlockedWritersFork | backend/core/audit.py:120-142 | without the lock two writers reach a log with two records of one number and predecessor, which the verifier rejects |
| AuditTail.Tail | backend/core/audit.py:94-118 | the backward scan, at any block size, equals parsing the last non-blank line, errors it does not catch included, unless a suffix of that line misleads it |
| AuditTail.TailExactIff | backend/core/audit.py:94-118 | the scan agrees with the plain reading at every block size exactly when every proper suffix of the last line is passed over as no JSON or comes to what the line does; one that splits a character and raises is such a suffix |
| AuditTail.MisleadingBlock | backend/core/audit.py:94-118 | where a suffix misleads or raises, a block size at which the scan is wrong |
| AuditTail.LastLineOfSuffix | backend/core/audit.py:101-114 | the last line of what has been read so far is a suffix of the file's last line or all of it |
| AuditTail.TailOfRenderedLog | backend/core/audit.py:94-118 | reading back a rendered log gives the number and hash of its last record at any block size |
| TaskQueue.TaskService.Enqueue | backend/api/task_service.py:554-557 | a new task joins the end of the line and of the queue |
| TaskQueue.TaskService.CancelTask | backend/api/task_service.py:594-647 | the new state of a stop; accepted exactly for a known, unfinished task; reports whether a worker held it |
| TaskQueue.TaskService.TakeNext | backend/api/task_service.py:687-697 | the head leaves the queue and the line, dropped with its stop request spent, or executing |
| TaskQueue.TaskService.BeginRun | backend/api/task_service.py:698-706 | handed to the orchestrator, or let go when the task or its user is gone |
| TaskQueue.TaskService.FinishRun | backend/api/task_service.py:735-743 | the run leaves the list and its stop request is spent |
| TaskQueue.TaskService.QueueState | backend/api/task_service.py:649-681 | running exactly when executing; a waiting task is told of everyone before it and every run in progress |
| TaskQueue.StepKeepsInv | backend/api/task_service.py:683-743 | every step between await points keeps the queue, the line, the runs in progress and the stop requests consistent |
| TaskQueue.QueueIsConsistent | backend/api/task_service.py:683-743 | at every await point the line is the queue without the stopped tasks, nothing is queued and executing, no more runs than workers, and no task is handed over twice |
| TaskQueue.StoppedInQueueNeverRuns | backend/api/task_service.py:619-641 | a task stopped before a worker took it is never handed to the orchestrator, in any continuation |
| TaskQueue.CancelInQueueDooms | backend/api/task_service.py:619-635 | stopping a waiting task leaves it neither held nor ever to be handed over |
| TaskQueue.AheadNeverIncreases | backend/api/task_service.py:649-681 | no step by anyone raises the figure a waiting task is shown |
| TaskQueue.NoOvertaking | backend/api/task_service.py:554-556 | while a task waits, no task behind it has been taken, over every run |
| TaskQueueAccount.EveryTaskIsAccountedFor | backend/api/task_service.py:679-732 | over every run each task submitted is in the queue, announced by a worker, handed over, or left for a named reason: stopped first, gone when its turn came, failed while announced |
| TaskQueueAccount.LeftForGood | backend/api/task_service.py:684-701 | a task leaves for one reason only and is never queued, announced or handed over after that |
| TaskQueueAccount.FoundIsHandedOver | backend/api/task_service.py:698-705 | a task announced and found is handed over by that very step and run by its worker |
| TaskQueueAccount.HandedOverInOrder | backend/api/task_service.py:698-705 | the tasks handed over are exactly those begun and found, in the order begun |
| TaskQueueAccount.FirstInFirstOut | backend/api/task_service.py:554-556 | the queue is what was submitted less what was taken, in order |
| TaskQueueAccount.WorkerIsMovedBy | backend/api/task_service.py:679-738 | how each worker moves, and that only its own steps move it |
| TaskQueueAccount.StopsStandUntilSpent | backend/api/task_service.py:611-611 | a stop stands from its acceptance until its task is dropped from the queue or let go by its worker |
| TaskQueueAccount.ClosedBy | backend/api/task_service.py:614-625 | a task is closed by the stop that finds no worker holding it, or by the run that ended it for good |
| TaskQueueAccount.CreatedBy | backend/api/task_service.py:539-556 | tasks come only from submissions and none is forgotten |
| Invitations.AccountTables.ClaimInviteRow | backend/core/database.py:376-388 | the conditional claim: only an unused, unrevoked, unexpired row, and exactly that row |
| Invitations.AccountTables.RevokeInviteRow | backend/core/database.py:390-397 | the conditional revocation: only an unused, unrevoked row |
| Invitations.AccountTables.ReturnInvite | backend/core/accounts.py:465-472 | the give-back clears the use of the row unconditionally |
| Invitations.AccountTables.AcceptInvite | backend/core/accounts.py:442-483 | with at most one rival account written midway, creates the account the row grants or leaves the tables as the rival left them, with the reason |
| Invitations.StepKeepsInv | backend/core/accounts.py:442-483 | every statement by any caller keeps: one holder per claimed invitation, none beside its account, used and revoked exclusive |
| Invitations.OneAccountPerInvitation | backend/core/accounts.py:442-483 | over every interleaving an invitation yields at most one account, with the row's role and department, claimed before it expired and never revoked |
| Invitations.RevokedYieldsNone | backend/core/accounts.py:423-433 | a revocation that succeeds means no account from that invitation, then or later |
| Invitations.HeldRowIsFrozen | backend/core/database.py:376-397 | while a caller holds an invitation nobody else's statement changes its row |
| Invitations.CollisionGivesTheCodeBack | backend/core/accounts.py:465-472 | after a name collision the row is what it was before the claim, whatever others did meanwhile |
| Invitations.UsedIffProvisioned | backend/core/accounts.py:455-472 | with no call in the middle, an invitation reads as used exactly when an account came of it |
| InvitationsRedeeming.RedeemsIff | backend/core/accounts.py:442-483 | a caller alone with a code gets the account it grants, and uses the code, exactly when the code is live and the name free; else nothing changes and it is told why |
| InvitationsRedeeming.SecondClaimIsRefused | backend/core/accounts.py:457-458 | of two callers past their checks with one code the first claim holds it and the other is refused |
| InvitationsRedeeming.UnknownIsRefused | backend/core/accounts.py:445-448 | a code nobody was given is refused at the first look |
| InvitationsRedeeming.GivenBackMayBeClaimed | backend/core/accounts.py:465-472 | a code given back is claimable again until it lapses, and no account came of it |
| InvitationsRedeeming.StatusIs | backend/core/accounts.py:449-451 | when a code is open, revoked, used or expired, in that order of precedence |
| InvitationsRedeeming.ClaimingChanges | backend/core/database.py:376-388 | a claim marks one live row with the name and the time, and changes no other |
| InvitationsRedeeming.RevokingChanges | backend/core/database.py:390-397 | a revocation dates one row neither used nor revoked, lapsed or not, and changes no other |
| InvitationsRedeeming.GivingBackChanges | backend/core/accounts.py:468-471 | a give-back clears who used one row and when, and changes no other |
| PasswordResets.ResetTable.InsertPasswordReset | backend/core/database.py:399-414 | retires exactly the account's open codes, row by row, and adds the new one |
| PasswordResets.ResetTable.ClaimPasswordReset | backend/core/database.py:423-430 | the conditional claim: only an open, unexpired row, and exactly that row |
| PasswordResets.StepKeepsInv | backend/core/accounts.py:650-700 | every transaction by any caller keeps: one open code per account, one holder per claimed code, none beside its password |
| PasswordResets.OneCodeOnePassword | backend/core/accounts.py:678-700 | over every interleaving an account has at most one open code, and a code sets at most one password, of its own account, claimed before it lapsed |
| PasswordResets.NewerCodeRetiresOlder | backend/core/database.py:399-414 | an open code overtaken by a newer one never sets a password, however far a caller had got with it |
| PasswordResetsRedeeming.IssuingChanges | backend/core/database.py:399-414 | a new code retires the open codes of its own account and leaves every other row as it was |
| PasswordResetsRedeeming.ClaimingChanges | backend/core/database.py:423-430 | a claim marks one live row used and changes no other, failing exactly where the row is not live |
| PasswordResetsRedeeming.RedeemsIff | backend/core/accounts.py:678-700 | a caller alone with a code sets its account's password exactly when the code is live and the account active; else nothing changes |
| PasswordResetsRedeeming.SecondClaimIsRefused | backend/core/accounts.py:691-693 | of two callers past their checks with one code the first claim keeps it and the other is refused |
| PasswordResetsRedeeming.UnknownIsRefused | backend/core/accounts.py:679-682 | a code nobody was given is refused at the first look |
| Administrators.AccountService.CreateOwnerAccount | backend/core/accounts.py:357-386 | the refusal and the new tables of owner setup, one-time token included |
| Administrators.AccountService.RequestAccount | backend/core/accounts.py:486-518 | an inactive placeholder account and a pending request, or the reason not |
| Administrators.AccountService.ApproveRequest | backend/core/accounts.py:543-566 | the granted role and activation, only for a pending request whose account exists |
| Administrators.AccountService.RejectRequest | backend/core/accounts.py:568-591 | the request rejected and its account removed only while inactive |
| Administrators.AccountService.SetAccountActive | backend/core/accounts.py:616-648 | activation and deactivation with their refusals, in the source's order |
| Administrators.AccountService.AnyAdministrator | backend/core/accounts.py:211-215 | finds an active account whose role manages users exactly when there is one |
| Administrators.StepKeepsPendingInactive | backend/core/accounts.py:486-591 | a pending request's account stays its own and inactive through every call |
| Administrators.StepKeepsAdministrator | backend/core/accounts.py:627-648 | no call leaves a host that has an active administrator without one |
| Administrators.DoorStaysShut | backend/core/accounts.py:217-219 | once there is an administrator, setup is never needed again and every owner setup is refused, over every run |
| Administrators.OwnerIsCreatedAtMostOnce | backend/core/accounts.py:357-386 | at most one owner setup succeeds along any run |
| Administrators.LastAdministratorGuardIsExact | backend/core/accounts.py:629-639 | a deactivation is refused as the last administrator's exactly when it would leave none |
| Administrators.OverlappingDeactivationsLeaveNobodyIff | backend/core/accounts.py:627-640 | two deactivations that both pass the check before either writes leave nobody exactly when no third account administers; one after the other they never do |
| AdministratorsGrants.RefusedForTheFirstFault | backend/core/accounts.py:357-641 | every account call is refused for the first thing wrong with it, in order |
| AdministratorsGrants.AcceptedCallLeaves | backend/core/accounts.py:373-641 | what each accepted call makes of its own account and request: role, activation, decision |
| AdministratorsGrants.AcceptedIff | backend/core/accounts.py:357-641 | a call takes effect exactly when nothing is wrong with it and every identifier it draws is unused |
| AdministratorsGrants.OthersAreUntouched | backend/core/accounts.py:357-641 | every other account and request is untouched by each call, and a refused call touches nothing |
| AdministratorsGrants.ActiveRolesAreGranted | backend/core/accounts.py:543-558 | over every run the role of an active account is the one fixed by the last accepted call that provisioned it: owner setup, invitation or approval |
| AdministratorsGrants.AdministratorsComeFrom | backend/core/accounts.py:357-639 | an account begins to administer only by owner setup, a managing role granted to it, or re-activation with one |
| AdministratorsGrants.GrantsMakeAdministrators | backend/core/accounts.py:357-639 | and each of those makes one |
| AccessCodes.SymbolsAreTheAlphabet | backend/core/accounts.py:61-63 | the letters and digits a code is made of are all but I, O, 0 and 1 |
| AccessCodes.RecoversEveryMangling | backend/core/accounts.py:107-130 | an issued code comes back from any sequence of case changes and separators added or dropped |
| AccessCodes.RecoversDroppedPrefix | backend/core/accounts.py:116-130 | without its prefix a code comes back unless the body begins with that prefix |
| AccessCodes.InvitePrefixMayAlwaysBeDropped | backend/core/accounts.py:61-67 | an invitation code always comes back without its prefix, the alphabet having no I |
| AccessCodes.ResetPrefixMayBeDroppedUnlessRepeated | backend/core/accounts.py:116-130 | a reset code comes back without its prefix exactly when its body does not begin with RESET |
| AccessCodes.ResetExceptionExists | backend/core/accounts.py:116-130 | a reset code whose body begins with RESET is lost without its prefix |
| AccessCodes.NormalizeIsIdempotent | backend/core/accounts.py:116-130 | whatever was typed, a code that comes back is well formed and normalises to itself |
| AccessCodes.ManglingsNeverCollide | backend/core/accounts.py:116-130 | manglings of one code are never read as another |
| AccessCodes.CodesDoNotCross | backend/core/accounts.py:116-130 | an invitation code is never read as a reset code, nor the reverse |
| AccessCodes.LookalikesAreRefused | backend/core/accounts.py:116-130 | a lookalike the alphabet leaves out is not corrected: typed anywhere outside the prefix, it leaves no code |
| EvidenceLedgers.EvidenceLedger.constructor | backend/agents/orchestrator.py:478-485 | opening a ledger over any list sets counters that cover every identifier in it |
| EvidenceLedgers.EvidenceLedger.Add | backend/agents/orchestrator.py:487-496 | appends one item under an identifier not in the list, and changes nothing else |
| EvidenceLedgers.NumeralReadsBack | backend/agents/orchestrator.py:483-489 | a printed count is read back as that count |
| EvidenceLedgers.LettersOfId | backend/agents/orchestrator.py:481-484 | the letters and digits of an identifier are its prefix and numeral |
| EvidenceLedgers.ScanCovers | backend/agents/orchestrator.py:478-485 | the opening scan leaves no identifier numbered above its prefix's counter |
| EvidenceLedgers.NextIdIsFresh | backend/agents/orchestrator.py:487-489 | covering counters allocate an identifier that is not in the list |
| EvidenceLedgers.IdentifiersAreNeverReused | backend/agents/orchestrator.py:3248-3248 | whatever the list held and however many ledgers are opened one after another, nothing is touched, no new identifier repeats one, distinct ones stay distinct |
| EvidenceNumbers.NextIsOneAbove | backend/agents/orchestrator.py:478-489 | a ledger opened over a list numbers its next item one above the highest of its prefix, from one where there is none |
| EvidenceNumbers.NumbersRunOn | backend/agents/orchestrator.py:487-489 | one ledger numbers its items of a prefix without a gap |
| EvidenceNumbers.AddedInOrder | backend/agents/orchestrator.py:487-489 | what a ledger adds keeps its order, its content and its prefixes |
| EvidenceLedgers.LedgersOpenTogetherCollide | backend/agents/orchestrator.py:478-485 | two ledgers open at once over one list give out the same identifier |
| VisualReading.RecordPdfBatch | backend/agents/orchestrator.py:1214-1345 | a refused answer adds nothing; an accepted one adds one fresh item per page of the batch |
| VisualReading.IndexPages | backend/agents/orchestrator.py:1229-1248 | the table of an answer's pages by number, or its first fault |
| VisualReading.ExtractPdfBatch | backend/agents/orchestrator.py:1815-1840 | a refused batch is read once more, or page by page |
| VisualReading.ReadFile | backend/agents/orchestrator.py:1933-1944 | the batches of a file in order up to the first that fails |
| VisualReading.ByNumberIsExact | backend/agents/orchestrator.py:1229-1248 | the table is complete exactly when every entry has a number of its own |
| VisualReading.PlaceIsExact | backend/agents/orchestrator.py:1223-1272 | which answers are accepted, both ways, and that an accepted one matches pages and entries one for one |
| VisualReading.AnswerOrderDoesNotMatter | backend/agents/orchestrator.py:1249-1270 | shuffling the entries of an answer changes neither whether it is accepted nor what any page gets |
| VisualReading.RecordedCovers | backend/agents/orchestrator.py:1214-1345 | accepted, each page once in order under the renderer's number; refused, nothing |
| VisualReading.EveryEntryIsRecorded | backend/agents/orchestrator.py:1274-1345 | every entry of an accepted answer becomes the item of the one page its label stands for |
| VisualReading.BatchesPartition | backend/agents/orchestrator.py:1936-1941 | batching loses no page, repeats none, keeps their order and never exceeds the batch size |
| VisualReading.EveryPageExactlyOnce | backend/agents/orchestrator.py:1933-1944 | whatever the model answers, success means every page of every file exactly once in order; failure leaves a prefix of them |
| VisualReading.SinglePagesSuffice | backend/agents/orchestrator.py:1821-1840 | a model that reads single pages acceptably never fails a file, however it answers batches |
| VisualReadingContent.AcceptedIsRecorded | backend/agents/orchestrator.py:1249-1345 | each page of an accepted answer gets the words of the entry that is about it, under the renderer's number, with how the model had labelled it |
| VisualReadingContent.RefusedBecause | backend/agents/orchestrator.py:1223-1272 | why an answer is refused: pages left out, the first entry without a number or with one already given, other numbers, or a page of several left empty |
| VisualReadingContent.LabelStates | backend/agents/orchestrator.py:1232-1241 | a label states a number when it is one or is a text of digits once stripped |
| VisualReadingContent.FiledUnder | backend/agents/orchestrator.py:1232-1243 | an entry is filed under the number stated, or under the one page shown alone |
| VisualReadingContent.BatchFailsIff | backend/agents/orchestrator.py:1815-1840 | a batch fails exactly when it was refused and so was its retry: the page once more, or some page of it alone |
| VisualReadingContent.FileFailsIff | backend/agents/orchestrator.py:1933-1944 | a file fails exactly when some batch of it does |
| VisualReadingContent.EveryReadingIsTheModels | backend/agents/orchestrator.py:1815-1840 | nothing is recorded of a file that the model did not answer about it |
| DisputedInputs.VesselInputs.Contradict | backend/engineering/extraction.py:169-176 | a disagreement joins the one recorded on its field, a value it already holds is not repeated, other fields stay |
| DisputedInputs.VesselInputs.Merge | backend/engineering/extraction.py:178-228 | merging one more source, statement by statement, gives the merge of all statements so far |
| DisputedInputs.VesselInputs.Override | backend/engineering/extraction.py:230-243 | the chosen value is in force and its conflict gone; a reading is replaced only where its location was read |
| DisputedInputs.ReadVessel | backend/engineering/extraction.py:464-491 | the merge of the sources that fit the chosen tag with every choice in force, in whatever order they are applied |
| DisputedInputs.ConflictRecords | backend/engineering/stage.py:111-151 | conflicts already on the task stay as they are, a field seen for the first time is added once |
| DisputedInputs.DisputedIff | backend/engineering/extraction.py:178-228 | merging disputes an input exactly when two statements about it differ, in whatever order they are read |
| DisputedInputs.VesselDisputesIff | backend/engineering/extraction.py:464-491 | after any choices a vessel input is disputed exactly when two sources still read disagree about it and nobody has chosen |
| DisputedInputs.ReadWithoutTag | backend/engineering/stage.py:30-88 | as long as no tag is chosen a choice settles its own conflict and no other, of a vessel or of relief tests |
| DisputedInputs.StepKeepsInv | backend/agents/orchestrator.py:3223-3306 | every resolution and every conflict added keeps one record per input, open until a value is chosen, and the assessment that of the last reading |
| DisputedInputs.OpenConflictWithholds | backend/engineering/stage.py:46-80 | over every sequence of resolutions, as long as no tag is chosen, one open high-impact conflict keeps the assessment conflicted |
| DisputedInputs.ConflictedIff | backend/engineering/stage.py:46-80 | an assessment is conflicted exactly when some open high-impact conflict is still in dispute among the sources read |
| DisputedInputs.OpenButNotConflictedIff | backend/engineering/extraction.py:476-490 | over every run, an open high-impact conflict goes with an assessment that is not conflicted exactly when a tag was chosen and no source still read disputes anything that is open |
| DisputedInputs.OrphanedVesselIff | backend/engineering/extraction.py:476-490 | of a vessel, that is when no two sources of the chosen tag disagree about what is open |
| DisputedInputs.OpenConflictInvalidatesTheReport | backend/agents/orchestrator.py:2191-2277 | while a high-impact conflict is open no answer with a material claim stating a conclusion is reported valid, of whatever kind the claim; where a chosen tag has left the open conflicts behind, if its kind depends on inputs |
| DisputedInputs.ChosenTagLeavesAConflictOpen | backend/engineering/extraction.py:476-490 | for any two records of different vessels with different t-min, choosing one tag leaves the conflict over t-min open on an assessment that is not conflicted |
| DisputedInputs.RuledOutValueMayBeUsed | backend/agents/orchestrator.py:3287-3296 | that conflict may be closed with the t-min of the vessel ruled out, which is then the one used |
| DisputedInputsReading.VesselIsWithheldIff | backend/engineering/extraction.py:82-85 | a vessel is withheld exactly by an unsettled disagreement over any input but its design pressure |
| DisputedInputsReading.ReliefIsWithheldIff | backend/engineering/relief.py:94-128 | relief tests are withheld exactly by an unsettled disagreement within a test over anything but the equipment protected |
| DisputedInputsReading.AssessedFrom | backend/engineering/stage.py:46-88 | which record is assessed: a vessel with a reading and a thickness to compare it with, else a piping record, else relief tests |
| DisputedInputsReading.ValueInForce | backend/engineering/extraction.py:178-243 | the value a formula reads is the one chosen, else the one stated first among the sources still read |
| DisputedInputsReading.VesselDisputeLists | backend/engineering/extraction.py:169-176 | a person is shown for a disputed input exactly the values the sources still read state |
| DisputedInputsReading.DisputesAre | backend/engineering/extraction.py:169-176 | a disputed field has one dispute, listing each value stated of it once, as first written, in the order they were first stated |
| DisputedInputsReading.VesselDisputesAre | backend/engineering/extraction.py:230-243 | a choice takes its own dispute away and leaves every other as the sources still read make it |
| DisputedInputsReading.FittingAre | backend/engineering/extraction.py:476-488 | a source is left out exactly when a tag was chosen and it names another |
| DisputedInputsReading.ResolvingTouchesOne | backend/agents/orchestrator.py:3270-3285 | a resolution closes its own conflict with the person's evidence and value and touches no other |
| DisputedInputsReading.AssessmentsAreRecorded | backend/engineering/stage.py:111-151 | the stage and every resolution leave the status assessed, a record of each dispute found, and no other new record |
| DisputedInputsReading.RecordIs | backend/engineering/stage.py:118-146 | a conflict is recorded open, with its field's impact and its candidates |
| DisputedInputsReading.CandidatesAre | backend/engineering/stage.py:97-108 | one candidate for each value, as written and where |
| ClaimVerdicts.JudgeClaims | backend/agents/verifier.py:822-1002 | one verdict per material claim, in order, by the rules in their order of authority |
| ClaimVerdicts.RuleOnConflicts | backend/agents/verifier.py:883-931 | the first open conflict a claim touches decides, input conflicts before facts |
| ClaimVerdicts.CheckClaims | backend/agents/verifier.py:1004-1024 | passes exactly when no claim is conflicted and no engineering claim unsupported; lists those that are |
| ClaimVerdicts.CompileReport | backend/agents/verifier.py:1141-1189 | counts the claims carried, adds the last check, and notes every check that failed |
| ClaimVerdicts.DisputedConclusionIsConflicted | backend/agents/verifier.py:883-899 | while a high-impact input is disputed a claim stating a conclusion, of a kind that depends on inputs, is CONFLICTED whatever it cites or the registry computed |
| ClaimVerdicts.OnlyDependentKindsAreCaught | backend/agents/verifier.py:888-893 | a claim stating a conclusion and naming no candidate value is CONFLICTED exactly if its kind depends on inputs |
| ClaimVerdicts.DispositionsAreForAPerson | backend/agents/verifier.py:932-937 | a disposition is never CALCULATED or carried by a passage, and no registry or evidence changes its verdict |
| ClaimVerdicts.TakingASideIsCaughtIff | backend/agents/verifier.py:868-907 | the verdict on a claim taking a side of a disputed input is CONFLICTED exactly when it states a conclusion that depends on inputs, or it does not read as withholding and no earlier conflict is reported in full |
| ClaimVerdicts.WithholdingCoversASide | backend/agents/verifier.py:869-884 | a claim with a word of withholding and no conclusion is SUPPORTED beside any input conflict, whichever side it takes |
| ClaimVerdicts.ValidIff | backend/agents/verifier.py:1141-1189 | a report is valid exactly when every check passed and enough claims are carried |
| ClaimVerdicts.DisputedConclusionInvalidatesTheReport | backend/agents/verifier.py:1004-1024 | with a disputed input, no answer with a material claim that states a conclusion and is of a kind that depends on inputs is reported valid, whatever else was checked |
| ClaimVerdicts.DisputedAssessmentInvalidatesTheReport | backend/agents/verifier.py:728-744 | for a conflicted assessment a conclusion anywhere in the answer makes the report invalid |
| ClaimVerdicts.IndependentConclusionsPass | backend/agents/verifier.py:868-1002 | where the engineering check passes, conclusions of no kind that depends on inputs are reported valid beside any open conflict whose values they do not name |
| ClaimVerdicts.LongClaimsShareAVerdict | backend/agents/verifier.py:418-424 | a claim alike in its first 400 characters to a settled one counts as carried whatever its own verdict |
| ClaimVerdicts.ShortClaimsKeepTheirVerdict | backend/agents/verifier.py:418-424 | up to 400 characters, a claim no passage carries is counted exactly by its own verdict |
| ClaimVerdicts.ReverifyingKeepsTheChecks | backend/agents/orchestrator.py:3369-3404 | checking again with nothing changed gives the same checks and the same validity |
| ClaimVerdicts.LimitationsRepeatIff | backend/agents/orchestrator.py:3369-3404 | checking again gives the same limitations exactly when no check it keeps has failed |
| ClaimRules.ConflictedIff | backend/agents/verifier.py:868-931 | a claim is CONFLICTED exactly when it reports no dispute and the first open input it touches, or failing that the first open fact, is one it concludes from or names one side of |
| ClaimRules.FirstFactRules | backend/agents/verifier.py:911-931 | where no dispute is reported and no open input touched, the first open fact mentioned and named decides: one value is CONFLICTED, several SUPPORTED, with that conflict's sources |
| ClaimRules.FirstInputRules | backend/agents/verifier.py:885-907 | the first open input a claim touches decides, by conclusion or by how many of its values are named, with its sources |
| ClaimRules.ReportsAreSupported | backend/agents/verifier.py:869-884 | a claim that reports a dispute is carried by every source of every input conflict and the choices made since |
| ClaimRules.UndisputedVerdict | backend/agents/verifier.py:932-1001 | where no dispute is touched: a disposition is a person's, the registry contradicts or calculates what it speaks on, a passage or nothing supports the rest, each with its evidence |
| ClaimRules.VerdictIsOfItsClaim | backend/agents/verifier.py:262-271 | a verdict carries the claim up to 400 characters and the kind of the first pattern it matches |
| ClaimRules.AnswerIsValidIff | backend/agents/verifier.py:1141-1189 | an answer is valid exactly when every other check passed, it agrees with the assessment, no claim is disputed or an unsupported engineering claim, and enough are carried |
| ClaimRules.ReverifiedChecksAre | backend/agents/orchestrator.py:3369-3404 | the checks of a re-verified report: the fresh ones and those of the old nothing replaces |
| ClaimRules.ReverifiedNotesAre | backend/agents/orchestrator.py:3375-3379 | its limitations: the old notes nothing replaces and one for each check that failed now |
| Assessment.AssessVessel | backend/engineering/assessment.py:147-250 | the record shows the vessel decision, or only what is missing |
| Assessment.AssessPiping | backend/engineering/assessment.py:296-345 | the record shows the circuit's decision, or only what is missing |
| Assessment.MissingSummary | backend/engineering/assessment.py:89-108 | what is asked for, each once, and the readings to confirm |
| Assessment.ReadingsToConfirm | backend/engineering/assessment.py:120-144 | the readings above both their earlier reading and nominal, in order |
| Assessment.GoverningRow | backend/engineering/assessment.py:173-174 | the first complete row of least life, and the locations below t-min |
| Assessment.VesselDecidedIff | backend/engineering/assessment.py:160-172 | a vessel is decided exactly when everything is stated, nothing is missing or in question, and one location is complete |
| Assessment.PipingDecidedIff | backend/engineering/assessment.py:306-314 | a circuit is decided exactly under the same condition, from its dates alone |
| Assessment.GoverningHasLeastLife | backend/engineering/assessment.py:160-174 | the governing location is complete, no complete one has less life, and no reading is thicker than both its earlier one and nominal |
| Assessment.CircuitGoverningHasLeastLife | backend/engineering/assessment.py:306-316 | the same of a circuit |
| AssessmentFigures.LocationFigures | backend/engineering/formulas.py:161-213 | a location is computed exactly when fully read; its rate, which rate that is, its life and whether it is below t-min, from its readings |
| AssessmentFigures.WallIs | backend/engineering/formulas.py:153-158 | the spans of a report: between two dates in order, or as stated where they are not both known, and of a circuit from dates alone |
| AssessmentFigures.VesselFigures | backend/engineering/assessment.py:173-249 | every figure of a decided vessel: loss, severity band, triggers, survey, withdrawal and interim limit, from the reading that governs and the locations below t-min |
| AssessmentFigures.InterimPassesAtNineTenths | backend/engineering/formulas.py:589-596 | under any rounding to six places an interim limit passes only an operating pressure of at most 0.9 of MAWP, and fails only one above it, within the rounding |
| AssessmentFigures.HigherPressureNeverPasses | backend/engineering/formulas.py:589-596 | raising the operating pressure changes nothing else and never turns a failure into a pass |
| AssessmentFigures.ComputedPressuresKeepOrder | backend/engineering/formulas.py:589-596 | the rounding of the formulas keeps the order of pressures, within half a unit |
| AssessmentFigures.FiguresAreRounded | backend/engineering/formulas.py:153-219 | rates and pressures are within half a millionth, lives half a hundredth, years and percentages half a tenth |
| AssessmentFigures.CircuitFigures | backend/engineering/assessment.py:315-344 | every figure of a decided circuit, with its next measurement at half the life or the class maximum |
| AssessmentFigures.GapsAre | backend/engineering/assessment.py:89-144 | what stands in the way of a decision, each input once: what the report leaves out, what a location lacks, readings thicker than the wall has been |
| AssessmentFigures.RefusedAre | backend/engineering/formulas.py:161-223 | when each formula at a location is refused |
| AssessmentFigures.WithheldSays | backend/engineering/assessment.py:167-171 | a vessel not decided is told what stands in the way, or where nothing does which formulas were refused |
| AssessmentOrder.OrderDoesNotMatter | backend/engineering/assessment.py:147-345 | the order of readings changes neither the governing life, the set below t-min, the severity, the schedule nor the withdrawal |
| AssessmentOrder.MayGovernIff | backend/engineering/assessment.py:173-173 | the rows some order of the readings makes govern are exactly those of least life |
| AssessmentOrder.OrderFixesIff | backend/engineering/assessment.py:173-227 | location, rate, which rate governs, metal loss and triggers are the same for every order exactly when all rows of least life agree on them (triggers: on losing more than a quarter); the interim limit follows the triggers |
| AssessmentOrder.OrderFixesCircuitIff | backend/engineering/assessment.py:315-323 | of a circuit the same for location, rate and which rate governs |
| AssessmentOrder.TiedLocationsFollowTheOrder | backend/engineering/assessment.py:173-222 | a decided report, with the rounding of the formulas, whose order decides location and trigger |
| AssessmentOrder.TiedReportMayDropALocation | backend/engineering/assessment.py:160-172 | the same report with one more reading of the wrong kind is decided without that location |
| AssessmentWithdrawal.BelowForcesWithdrawal | backend/engineering/assessment.py:174-249 | one location below t-min forces High, withdrawal, no due date and no interim limit judged |
| AssessmentWithdrawal.BelowForcesCircuitWithdrawal | backend/engineering/assessment.py:316-344 | one location below t-min withdraws a circuit |
| AssessmentWithdrawal.VesselWithdrawnIff | backend/engineering/assessment.py:239-270 | a vessel is withdrawn exactly when some complete location is below t-min, or some has spent its life and a survey is computed; it then has no due date and no interim limit |
| AssessmentWithdrawal.WithdrawnCircuitHasDueDateIff | backend/engineering/assessment.py:315-344 | a withdrawn circuit carries a due date exactly when some complete location is below t-min, none has spent its life, one is thinning at a rate that rounds above zero, and survey date and class maximum are known |
| AssessmentWithdrawal.SoundWallHasNoDueDate | backend/engineering/assessment.py:315-344 | under any rounding to six-place rates and two-place lives, a circuit whose nominal wall exceeds t-min by at least 5e-7 mm per year in service carries no due date when withdrawn |
| AssessmentWithdrawal.ThinCircuitKeepsADueDate | backend/engineering/assessment.py:315-344 | on every wall with less than that margin there is a decided, withdrawn circuit that carries one |
| AssessmentWithdrawal.NoDueDateOnThisWallIff | backend/engineering/assessment.py:315-344 | so no readings on a wall can give a withdrawn circuit a due date if and only if the wall had that margin |
| Rounding.RoundRounds | backend/engineering/formulas.py:161-205 | half-even rounding gives a whole number of units at most half a unit away |
| Rounding.RoundPositiveIff | backend/engineering/formulas.py:161-205 | a positive value rounds to zero exactly up to half a unit |
| Rounding.RoundIs | backend/engineering/formulas.py:161-205 | rounding gives the nearest whole number of units, of two as near the even one, and no other |
| AssessmentWithdrawal.DropsOutIsRefused | backend/engineering/assessment.py:48-86 | a row that is incomplete and asks for nothing had a formula refused |
| AssessmentWithdrawal.RefusedLocationsAreIgnored | backend/engineering/assessment.py:160-172 | a decided vessel is decided as if the refused locations had never been read |
| AssessmentWithdrawal.RefusedCircuitLocationsAreIgnored | backend/engineering/assessment.py:306-314 | the same of a circuit |
| AssessmentWithdrawal.WrongReadingIsIgnored | backend/engineering/assessment.py:160-172 | a reading of the wrong kind added to any decided vessel drops out and leaves the decision as it was |
| Calendar.AddMonths | scripts/seed_demo_data.py:412-415 | moving a valid date by any number of months gives a valid date |
| Calendar.MonthMovesExactly | scripts/seed_demo_data.py:412-415 | the month moves by exactly that many, the day is kept or is the month's last |
| Calendar.MonotoneInDate | scripts/seed_demo_data.py:412-415 | a later date never comes out earlier |
| Calendar.StrictInMonths | scripts/seed_demo_data.py:412-415 | more months always come out later, and equal only for equal months |
| Calendar.SplitIsNeverLater | scripts/seed_demo_data.py:412-415 | two steps come out in the same month and never later than one |
| Calendar.SplitIsEqualIff | scripts/seed_demo_data.py:412-415 | two steps equal one exactly when the month on the way keeps the day |
| Calendar.ThereAndBackIff | scripts/seed_demo_data.py:412-415 | there and back is the same date exactly when the month between was long enough |
| Calendar.DayNumbersFollowTheCalendar | scripts/seed_demo_data.py:407-409 | days counted between dates agree with calendar order, leap years included |
| Calendar.DaysAreCountedOneByOne | scripts/seed_demo_data.py:407-409 | the day after any date has the next number, through months, years and leap days, counted from 1 January of year 1 |
| DueDates.GoverningLifeIsShorterIff | scripts/seed_demo_data.py:422-439 | the life from the higher rate is at most that from the short-term rate exactly at or above t-min, or when the short-term rate governs |
| DueDates.HigherRateIsNeverDueLater | scripts/seed_demo_data.py:599-656 | at or above t-min and thinning, the due date from the higher rate is never later than from the short-term rate alone |
| DueDates.BelowTMinTheDatesTurnRound | scripts/seed_demo_data.py:599-656 | below t-min it can be: an input whose higher rate gives the later due date |
| DueDates.DisplayedRateComparesIff | scripts/seed_demo_data.py:630-635 | with the displayed rate the comparison holds exactly when rounding has not carried it above the governing one |
| DueDates.DisplayedAsZeroIff | scripts/seed_demo_data.py:630-635 | a rate is displayed as zero exactly up to half of the last place |
| DueDates.LessLifeNeverLaterSurvey | scripts/seed_demo_data.py:659-685 | less life never moves a survey back; under four years the interval is half, to the month below, otherwise all of it |
| DueDates.IntervalIs | scripts/seed_demo_data.py:627-633 | an interval is the whole months in half the life or in the class maximum, whichever is shorter |
| ConfigMerge.DeepMerge | backend/core/config.py:83-96 | the loop computes the recursive merge of the two mappings |
| ConfigMerge.MergedEntry | backend/core/config.py:83-96 | what the merge holds under each key |
| ConfigMerge.MergeWithItself | backend/core/config.py:83-96 | merging anything with itself changes nothing |
| ConfigMerge.MergeAbsorbs | backend/core/config.py:83-96 | laying an overlay on twice is laying it on once |
| ConfigMerge.CoversIff | backend/core/config.py:83-96 | when an overlay hides what is under it entirely |
| ConfigMerge.AssociativeIff | backend/core/config.py:83-96 | exactly when three layers may be grouped either way |
| ConfigMerge.AssociativeWhenMappingsAreKept | backend/core/config.py:83-96 | three layers may be grouped either way when no layer puts a scalar over another's mapping |
| ConfigMerge.NotAssociativeInGeneral | backend/core/config.py:83-96 | three layers whose grouping changes the result |
| ConfigMerge.StanceMeans | backend/core/config.py:163-169 | what it means for an overlay to replace, extend or say nothing on a path, in lookups alone |
| ConfigMerge.GetFromMerged | backend/core/config.py:163-169 | every dotted lookup in a merge: the overlay's, the base's, or the merge of both |
| ConfigMerge.ApplyEnvOverrides | backend/core/config.py:127-143 | the variables are written one path at a time, in order |
| ConfigMerge.VariableIsAnOverlayIff | backend/core/config.py:127-143 | writing a variable is laying on the overlay that sets only its path exactly when nothing is there yet or the value overrides all of it |
| ConfigMerge.LastVariableWins | backend/core/config.py:127-143 | a variable is what its path reads, whatever it holds and whatever lies beneath, unless a later path runs through it or it through that one |
| RoleInheritance.RolePermissions | backend/core/config.py:288-301 | terminates on every graph; returns exactly the union over the roles reached, or an undefined role among them |
| RoleInheritance.RoleMaxClassification | backend/core/config.py:303-320 | the highest-ranked clearance over the roles reached, or an error exactly when one is undefined or unranked |
| RoleInheritance.WalkComplete | backend/core/config.py:288-301 | a walk with nowhere new to go has seen exactly the roles it can reach |
| RoleInheritance.InheritanceOnlyAdds | backend/core/config.py:288-320 | a role has at least its parent's permissions, and at least its clearance except exactly when the parent has only the default and the role's own level ranks below it |
| RoleInheritance.InheritedIs | backend/core/config.py:288-320 | a role may do what it is granted and what the role it inherits from may do, and nothing more, cycles included; it is undefined exactly when one of them is |

## Left out

- Crash recovery of the audit file with torn lines, file-lock internals and clock behaviour; the lock is a step only one writer can take.
- SHA-256, signatures, password hashing and token randomness: collision-freedom is assumed where a result needs it, nothing else.
- AuditTail.TailOfRenderedLog: that every proper suffix of a line `record` writes is passed over is assumed of the rendering; the lines are ASCII (`json.dumps` escapes the rest), so no block splits a character of one.
- DisputedInputs.ReadVessel: how a text is read into statements, labels and notes, and the order in which relief disputes are numbered are left out; what is compared across the tests of one valve is a parameter.
- Approval records without an approval section, as stored by early versions, and the audit entries, events and certificates a decision issues.
- ApprovalRuns.OneStepReleases: takes each service call as one step, as the service runs them; ApprovalOverlap is about interruption between load and write only.
- ApprovalLife.StepKeepsLife: a run that fails, is blocked or loses its process is not modelled; none of these releases anything.
- The rule that turns policy text into required signatures, and the recomputation a resolution makes: any function and any result, respectively.
- TaskQueue.StepKeepsInv: what a run does between its start and its end is one arbitrary outcome, and shutdown of the workers is left out.
- AccessCodes.RecoversEveryMangling: letters and digits are ASCII; `str.upper` on other scripts is not modelled.
- Invitations.AccountTables.AcceptInvite: in the method at most one other request acts, between the name check and the claim; arbitrary interleavings are the step model's. Name, display name and password rules are left out.
- Administrators.AccountService.ApproveRequest: as one atomic call its conditional update cannot miss, so that branch has no counterpart; checks that read no table (reasons, departments, passwords) are left out.
- PasswordResets.ResetTable.InsertPasswordReset: sessions ended by a new password, and who may issue a code, are left out.
- EvidenceLedgers.EvidenceLedger.Add: prefixes are non-empty ASCII letters, as every caller's are.
- VisualReading.RecordPdfBatch: confidence, local OCR of an empty page and header recovery change an item's content, not which pages are recorded; digits in labels are ASCII. A failure of the model call itself ends the run and is not an answer.
- ClaimVerdicts.JudgeClaims: identifiers are listed before duplicates are removed, and the wording of reasons, details and warnings is left out; matching of sentences is left to the patterns.
- Assessment.AssessVessel: the calculation records, the wording of bases and actions, and the action text an exceeded interim limit adds are left out. Arithmetic is exact before each rounding, where the program's is binary floating point, and unit conversion is left out; a date past year 9999 is not refused.
- ConfigMerge.ApplyEnvOverrides: the walk through nested mappings, which the source updates in place through a cursor, is rebuilt on values.
- DueDates.HigherRateIsNeverDueLater: over exact reals; what rounding the displayed rate does is DisplayedRateComparesIff.
- Model inference, prompts, routing, streaming, the sandbox, retrieval, connectors, HTTP wiring and the frontend.
