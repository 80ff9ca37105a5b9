# Involute work graph: a verified model

Involute's server keeps a graph of work items in a database and moves it with small transactions.
This project models the six components of `packages/server/src` whose correctness depends on whole
runs or on a dense algorithm, and proves what each of them promises.

* **Agent requests** (`RequestModel`, `RequestInvariants`, `RequestTheorems`, `RequestRaces`,
  `RequestOutcomes`, `RequestLedger`).
  A lease protocol with fencing tokens. The ledger holds request rows, comments and every token ever
  minted. An answer is two steps, a read and a later compare-and-set, with any other steps in between.
  Sweeps fail overdue requests and hand them on; agents delegate under a budget. States follow
  section 6.3 (TaskState) of the Agent2Agent protocol, version 0.2.
* **SLA clock** (`SlaClock`, `SlaHistory`, `SlaReadings`, `SlaAlerts`). The interval sweep equals a pointwise count of
  running milliseconds; what later events can and cannot do to it; reminders sent by interleaved sweeps.
* **Delivery packages** (`DeliveryGraph`, `DeliveryPolicy`, `DeliveryGrant`, `DeliveryExecution`,
  `DeliveryRuns`, `DeliveryReview`, `DeliveryOutcomes`). The depth-first check of the dependency graph, the memoised
  creation of units, claiming behind predecessors, and acceptance.
* **Work claims** (`WorkClaims`, `WorkBoard`). Claim, renew, release and expiry, with the runs
  executed under a claim.
* **Autonomy policy and contract amendments** (`AutonomyPolicy`, `AutonomyOutcomes`, `AmendmentModel`,
  `AmendmentTheorems`, `AmendmentDesk`).
* **Two queues** (`ReadyQueue`, `ItemIds`, `AttentionQueue`). The bucketed, paged ready list and the keyset pages
  of the attention queue.

Where the source updates rows in place the model is a class whose methods are proved equal to a pure
step function; the theorems are about runs of that function, and the `…Iff` and `…Is` lemmas say of each
step, without its own helpers, when it goes through and what it leaves. A digest is modelled as a constructor, so
distinct tokens have distinct digests, and a minted token is a number never minted before. A transaction
is one step, but for an answer, whose read and write are two, and for delegations and hand-offs, whose overlap
`RequestRaces` models beside the runs of whole steps. Clock readings are parameters of the steps and need not
advance from one step to the next.

## What turned out not to hold

* The comment at `packages/server/src/agent-request-service.ts:398` says COMPLETED is reached only with an
  answering comment. It holds of every request but a needinfo: when one comment settles several of a
  person's open needinfos, only the earliest gets the comment (`need-info-service.ts:205-213`).
  `RequestTheorems.NeedInfoCompletedUnanswered` reaches such a ledger and
  `RequestTheorems.CommentAnswersAllIff` says exactly when every settled needinfo gets the comment.
* A hand-off never opens an overdue request, but a delegation can: it takes the chain's deadline as it is.
  `RequestTheorems.DelegationLiveIff` gives the exact condition and `RequestTheorems.DelegationBornOverdue` a run.
* Intake dispatch sets the root's budget again if the same work is dispatched twice, so the chain's total
  then changes: `RequestTheorems.DispatchLinkRefills`.
* The SLA's elapsed time can fall, and a breach be undone, when no transition was recorded yet and the first one
  stops the clock; `SlaHistory.NeverDropsIff` and `SlaHistory.BreachIsPermanentIff` give the exact conditions.
* A live, unreleased claim does not always keep its holder until the lease ends: completing a run deletes the
  claim (`run-service-report.ts:337-343`), and another actor may then take the work afresh.
  `WorkClaims.CompletionFreesTheWork` is such a run; `WorkClaims.ClaimKeepsHolderIff` says exactly when a claim is
  still there and `WorkClaims.LiveClaimEnds` what can end a live one.
* The comment at `autonomy-policy.ts:209` says that with an unknown fact auto falls back to a person. It does when
  the rule in force cannot be met without that fact (`AutonomyPolicy.NeededFactFallsBack`; under an automatic preset
  this is exactly when its condition names the field, `AutonomyPolicy.PresetFallsBackIff`), and with nothing known at
  all exactly as `AutonomyPolicy.UnknownFactsIff` says. It does not when only a built-in lock looks at the fact: a
  verified bug fix is accepted with its delivery actions unknown, though a deploy among them would hand it to a person
  (`AutonomyPolicy.UnknownFactsCanBeAutomatic`). An automatic decision stands whatever unknown facts turn out to be
  exactly when every lock of the gate looks at a known field (`AutonomyPolicy.AutomaticStandsIff`).
* Delegations and hand-offs run under no lock. Two delegations that read one parent at once always add to the
  chain's total (`RequestRaces.TwoDelegationsAtOnce`), and two sweeps of one chain that pick the same successor ask
  that actor twice (`RequestRaces.TwoSweepsAtOnce`). `RequestRaces.LateConservesIff`,
  `RequestRaces.LateDelegationDistinctIff` and `RequestRaces.LateHandOffDistinctIff` say exactly when overlapping
  ones do no harm.
* The attention queue is sorted with `localeCompare` in the process's locale, but its cursor compares code units.
  Under the root collation the two agree on every id an item can have (`ItemIds.RootAgrees`), so every page size
  reads the whole queue. Under a locale that sorts "aa" as a letter after z, as Danish does, they disagree on two ids
  of one kind and one instant, and paging drops an item: `AttentionQueue.DanishWalkDropsOne`. The exact conditions are
  `AttentionQueue.PagingCompleteIff`, for every page size, and `AttentionQueue.SortedPagingIff`, for every such locale.

## Model

| member | source | states |
|---|---|---|
| RequestStates.WireTablesInvert | packages/server/src/agent-request-state.ts:19-61 | a spelling reads as a state exactly when that state is written so, and a state is claimable exactly when it is not terminal |
| RequestTheorems.StaleTokenFenced | packages/server/src/agent-request-service.ts:284-518 | in every interleaving, once a later generation is minted a token neither renews nor commits an answer, however early the answer did its read |
| RequestTheorems.CurrentHolderSucceeds | packages/server/src/agent-request-service.ts:294-317 | the fence does not shut out the holder: its token renews, and its read followed by its commit answers |
| RequestTheorems.TakeMintsNextGeneration | packages/server/src/agent-request-service.ts:319-340 | a take happens only with no live lease, raises the generation by one and mints a token no row stores |
| RequestTheorems.ClaimOutcomeIff | packages/server/src/agent-request-service.ts:294-350 | told by the table of minted tokens: a claim renews exactly with the current generation's token under a live lease, takes exactly with no live lease, and moves that row only |
| RequestTheorems.AnswerCommitsIff | packages/server/src/agent-request-service.ts:415-494 | with any run between its read and its compare-and-set, an answer commits exactly when the request is still WORKING at the generation read; the request is then COMPLETED, FAILED or INPUT_REQUIRED as the answer says, given up when it asks back, and the answer stands in its own thread; else nothing changes |
| RequestOutcomes.LeaseGiven | packages/server/src/agent-request-service.ts:289-340 | a claim that succeeds holds the request under the returned token until the lease asked for, or a minute, from now |
| RequestOutcomes.LeaseServes | packages/server/src/agent-request-service.ts:284-518 | at every instant before that end the token renews, and a read followed by its commit answers |
| RequestOutcomes.AnswerReadIff | packages/server/src/agent-request-service.ts:422-445 | the read half goes through exactly for the target with the current generation's token under a live lease |
| RequestOutcomes.HumanAnswerIff | packages/server/src/agent-request-service.ts:548-606 | when a person's answer goes through, the state each verdict leaves, the freed claim, and the comment in the thread |
| RequestOutcomes.CancelIff | packages/server/src/agent-request-service.ts:653-676 | exactly an open request is cancelled; its row says so and nothing else moves |
| RequestOutcomes.ReplyIff | packages/server/src/agent-request-service.ts:765-790 | exactly a request asked back returns to its target, on its requester's reply or an admin's with a reason |
| RequestOutcomes.CreateIff | packages/server/src/agent-request-service.ts:67-131 | when a request is opened, what it holds and when it is due; a key in use opens nothing and names its request |
| RequestOutcomes.NeedInfoIff | packages/server/src/need-info-service.ts:105-182 | when a needinfo is opened: for somebody else who can answer on the team and has none open there, due in a week |
| RequestOutcomes.WithdrawIff | packages/server/src/need-info-service.ts:219-262 | who may take an open needinfo back, and that it is then cancelled and unheld |
| RequestOutcomes.EarliestTakesComment | packages/server/src/need-info-service.ts:183-216 | of several needinfos one comment settles, only the one asked first takes it |
| RequestOutcomes.SuccessorIs | packages/server/src/agent-request-handoff.ts:74-134 | the declared successor if they may take over, else the target's owner if they may, else the first of the five oldest human owners who may, else nobody; who may is told on the rows, people and credentials |
| RequestOutcomes.ExpireIff | packages/server/src/agent-request-expiry.ts:134-256 | exactly an open request past its deadline fails, with a notice in its thread, and is handed on exactly when it is no needinfo and has a successor |
| RequestOutcomes.HandedOnIs | packages/server/src/agent-request-handoff.ts:167-217 | what the next request holds: requester, work and thread of the old one, one hop on, its deadline and its chain |
| RequestOutcomes.DelegateIff | packages/server/src/autonomy-delegation.ts:72-135 | a delegation is granted exactly when everything it is checked for holds, the policy's verdict, the chain and the balance among it |
| RequestOutcomes.DelegatedIs | packages/server/src/autonomy-delegation.ts:108-151 | what the delegated request holds, and that its share is the lesser of the amount asked and the parent's balance |
| RequestOutcomes.DispatchIs | packages/server/src/autonomy-delegation.ts:184-196 | a first dispatch opens one request due in a day and makes it the root of a chain of its own |
| RequestTheorems.TerminalAtMostOnce | packages/server/src/agent-request-service.ts:284-518 | along any run at most one move into a terminal state commits per request, and one exactly when the request ends up terminal |
| RequestTheorems.ReachableRow | packages/server/src/agent-request-service.ts:319-340 | every reachable row: SUBMITTED and INPUT_REQUIRED unclaimed, WORKING held by the target with token and lease, the stored token is the current generation's, COMPLETED (but a needinfo) answered in its own thread, from the hop limit on addressed to a person |
| RequestTheorems.RowHistory | packages/server/src/agent-request-service.ts:474-490 | generations never decrease; a terminal row keeps its state and answer for good |
| RequestTheorems.ChainsAreShort | packages/server/src/agent-request-handoff.ts:156-217 | in every reachable ledger the targets of a chain are pairwise distinct, so no chain is longer than the number of actors |
| RequestTheorems.SweepingStops | packages/server/src/agent-request-handoff.ts:136-217 | however often it is swept, a chain is handed on at most as often as there are actors |
| RequestTheorems.HandOffIsLive | packages/server/src/agent-request-handoff.ts:167-217 | a handed-off request has a deadline strictly after the sweep, capped by the chain for an agent; from the hop limit on it goes to a person; its origin is failed and was never handed off before |
| RequestTheorems.DelegationLiveIff | packages/server/src/autonomy-delegation.ts:109-113 | a granted delegation is not overdue at birth exactly when the chain's deadline lies after now |
| RequestTheorems.DelegationBornOverdue | packages/server/src/autonomy-delegation.ts:140-150 | a run that grants a delegation which a sweep at the same instant fails |
| RequestTheorems.DelegationMovesBudget | packages/server/src/autonomy-delegation.ts:108-150 | a granted share is at least 1, moves from parent to child without overdraft, and changes a chain's total only when the parent carries no balance |
| RequestTheorems.BudgetConserved | packages/server/src/autonomy-delegation.ts:108-150 | from a budgeted root any run without hand-offs or re-dispatches of the chain keeps the sum of balances, each non-negative |
| RequestTheorems.DispatchLinkRefills | packages/server/src/autonomy-delegation.ts:186-196 | linking a dispatch sets the root's balance anew; the total stays exactly when the balance was the default |
| RequestRaces.LateConservesIff | packages/server/src/autonomy-delegation.ts:105-136 | a delegation that writes after other steps keeps the chain's total exactly when the parent still holds the balance it read |
| RequestRaces.LateBalances | packages/server/src/autonomy-delegation.ts:134-150 | whatever such a write overwrites, no balance goes negative and the share is at least 1 |
| RequestRaces.TwoDelegationsAtOnce | packages/server/src/autonomy-delegation.ts:90-152 | two delegations that read one budgeted parent at once add the first one's share to the chain's total, always |
| RequestRaces.LateDelegationDistinctIff | packages/server/src/autonomy-delegation.ts:121-124 | a late delegation keeps targets distinct exactly when its target was not asked in the chain in the meantime |
| RequestRaces.LateHandOffDistinctIff | packages/server/src/agent-request-handoff.ts:159-217 | a late hand-off keeps targets distinct exactly when the successor picked was not asked in the chain in the meantime |
| RequestRaces.TwoSweepsAtOnce | packages/server/src/agent-request-handoff.ts:159-217 | two overdue requests of one chain swept at once to the same successor ask that actor twice, always |
| RequestTheorems.CommentAnswersAllIff | packages/server/src/need-info-service.ts:183-216 | a comment completes exactly the author's open needinfos on the work; all of them get the comment exactly when at most one was open |
| RequestTheorems.NeedInfoCompletedUnanswered | packages/server/src/need-info-service.ts:183-216 | a reachable ledger with a needinfo COMPLETED without any comment |
| RequestInvariants.StepKeeps | packages/server/src/agent-request-service.ts:67-518 | every step of every operation keeps the ledger invariant and lets rows only evolve |
| RequestInvariants.RunKeeps | packages/server/src/agent-request-service.ts:67-518 | so does every run |
| RequestInvariants.FirstEligibleIsFirst | packages/server/src/agent-request-handoff.ts:86-133 | the pick is an eligible candidate with no eligible one before it, and none is picked only when none is eligible |
| RequestInvariants.HandOffKeyFree | packages/server/src/agent-request-handoff.ts:136-147 | the key of a request's hand-off is unused while the request is open: nothing is handed off twice |
| RequestLedger.PickSuccessor | packages/server/src/agent-request-handoff.ts:74-134 | the loop over candidates finds the first eligible one and records why each earlier one was skipped |
| RequestLedger.RequestLedger.CreateRequest | packages/server/src/agent-request-service.ts:67-131 | the class step equals the model step and keeps the invariant; a replayed key opens nothing |
| RequestLedger.RequestLedger.ClaimRequest | packages/server/src/agent-request-service.ts:284-362 | renew by live token, else take, else the refusal the source gives |
| RequestLedger.RequestLedger.BeginAnswer | packages/server/src/agent-request-service.ts:401-445 | the read half of an answer and its refusals |
| RequestLedger.RequestLedger.FinishAnswer | packages/server/src/agent-request-service.ts:447-518 | the compare-and-set half; a lost race leaves no comment |
| RequestLedger.RequestLedger.AnswerAsHuman | packages/server/src/agent-request-service.ts:548-651 | a person's answer, with an admin's override |
| RequestLedger.RequestLedger.CancelRequest | packages/server/src/agent-request-service.ts:653-676 | cancel as one compare-and-set |
| RequestLedger.RequestLedger.ReplyToRequest | packages/server/src/agent-request-service.ts:765-811 | the reply to a question asked back reopens the request |
| RequestLedger.RequestLedger.ExpireOne | packages/server/src/agent-request-expiry.ts:129-300 | fail by compare-and-set, post the notice, hand off, in one step |
| RequestLedger.RequestLedger.ExpireOverdue | packages/server/src/agent-request-expiry.ts:104-127 | a sweep fails exactly the listed requests still overdue and counts them; no other row moves, and nothing it opens is overdue |
| RequestLedger.RequestLedger.DelegateRequest | packages/server/src/autonomy-delegation.ts:72-153 | delegation with every check in the source's order |
| RequestLedger.RequestLedger.OpenDispatch | packages/server/src/autonomy-delegation.ts:184-195 | the first statement of an intake dispatch |
| RequestLedger.RequestLedger.LinkDispatch | packages/server/src/autonomy-delegation.ts:196 | the second statement: the root of a budgeted chain |
| RequestLedger.RequestLedger.WriteComment | packages/server/src/need-info-service.ts:183-216 | a comment settles the author's open needinfos on the work |
| SlaClock.PausedWithin | packages/server/src/bug-sla.ts:46-59 | the sweep over sorted spans counts exactly the instants some pause covers, for any overlapping, nested or open pauses |
| SlaClock.ComputeSlaClock | packages/server/src/bug-sla.ts:69-107 | the loop over spells computes the clock of a count of running instants, for any overlapping, nested or open pauses |
| SlaReadings.ReadingIs | packages/server/src/bug-sla.ts:69-107 | every field of that clock on the timeline, state and pauses: elapsed is the number of instants at which the state in force is neither Review nor closed and no pause covers; the exact condition of each status; the due date |
| SlaReadings.RunningStatus | packages/server/src/bug-sla.ts:91-106 | while the clock runs with nothing new, on track until a fifth of the budget is left before the due date, at risk up to it, breached after it |
| SlaReadings.RunningNeverRecovers | packages/server/src/bug-sla.ts:91-106 | so it moves from on track to at risk to breached and never back |
| SlaHistory.ElapsedMonotone | packages/server/src/bug-sla.ts:75-90 | time passing and events added at or after now never lower the elapsed time, once a transition is recorded or while the clock stood still all along |
| SlaHistory.NeverDropsIff | packages/server/src/bug-sla.ts:80-90 | the elapsed time can never drop exactly when a transition is recorded, the current state stops the clock, or every instant so far was paused |
| SlaHistory.BreachIsPermanentIff | packages/server/src/bug-sla.ts:91-97 | for a fixed budget a breached clock stays breached, whatever follows, exactly when a transition is recorded or the budget is negative |
| SlaHistory.DueAtFixedIff | packages/server/src/bug-sla.ts:98-105 | two readings of a running clock name the same due date exactly when it ran at every instant between; remaining time is due date minus now |
| SlaHistory.DueAtStands | packages/server/src/bug-sla.ts:98-105 | while the clock runs and nothing new happens the due date stands still |
| SlaAlerts.RemindedOnce | packages/server/src/bug-sla.ts:118-185 | however sweeps interleave, each work gets at most one reminder of each kind, none at risk after one breached, and a breach is recorded exactly when it was sent |
| SlaAlerts.AlertSweep.SweepBug | packages/server/src/bug-sla.ts:116-184 | a breach records both reminders and sends the second, at risk records and sends the first, each only if not recorded before; any other status does nothing |
| DeliveryGraph.TopologicalIsAcyclic | packages/server/src/delivery-policy.ts:73-85 | a graph whose keys are all listed predecessors first has no cycle and no unknown predecessor |
| DeliveryPolicy.ByKeySize | packages/server/src/delivery-policy.ts:71-72 | the map is as large as the list exactly when keys are unique |
| DeliveryPolicy.Visitor.Visit | packages/server/src/delivery-policy.ts:75-84 | the search terminates, lists every key after its predecessors, and reports a cycle or unknown key only when there is one |
| DeliveryPolicy.ValidateUnits | packages/server/src/delivery-policy.ts:71-88 | accepted exactly when keys are unique, predecessors known and checked, and the relation acyclic; each refusal names a real defect |
| DeliveryPolicy.CheckPredecessors | packages/server/src/delivery-policy.ts:86-88 | true exactly when every predecessor has technical checks |
| DeliveryPolicy.UnitOfByKey | packages/server/src/delivery-policy.ts:92-95 | with unique keys the first match in the list is the map's entry |
| DeliveryExecution.DeliveryStore.Instantiate | packages/server/src/delivery-execution.ts:47-63 | the memoised recursion terminates, creates predecessors first and no unit twice, and adds exactly the edges into new rows |
| DeliveryExecution.DeliveryStore.InstantiateApprovedUnits | packages/server/src/delivery-execution.ts:40-67 | afterwards a unit has a row exactly when it had one or lies in the dependency closure of the requested keys; one row per key; links exactly the edges, dispatches exactly the executors; a second call changes nothing |
| DeliveryExecution.ClosureCreated | packages/server/src/delivery-execution.ts:51-52 | along any dependency path from a created unit every unit is created |
| DeliveryRuns.CreatedUnitBinds | packages/server/src/delivery-grant.ts:21-32 | a row just created passes the binding check as its own unit |
| DeliveryRuns.InstantiatedIsLive | packages/server/src/delivery-execution.ts:40-67 | a fully instantiated package satisfies what the run theorems assume |
| DeliveryRuns.ReadyIffPredecessorsProved | packages/server/src/delivery-readiness.ts:15-41 | a unit of a live package is ready exactly when every direct predecessor is proved |
| DeliveryRuns.ReadyNeedsProofs | packages/server/src/delivery-readiness.ts:30-41 | whatever other links there are, a ready unit has every direct predecessor proved |
| DeliveryRuns.PredecessorsClaimedAndProved | packages/server/src/claim-service.ts:1059-1064 | whatever other links there are, at the first claim of a unit each direct and transitive predecessor was claimed, and then proved, before |
| DeliveryRuns.NeverDeadlocked | packages/server/src/delivery-readiness.ts:30-41 | while some unit is unproved, it or one of its predecessors is unproved and ready |
| DeliveryRuns.CanAlwaysFinish | packages/server/src/delivery-policy.ts:86-88 | from any point of any run every unit can still be claimed and every checked unit proved |
| DeliveryReview.PrepareDeliveryAcceptance | packages/server/src/delivery-review.ts:10-36 | goes ahead exactly when the package is authorised, has as many tasks as units and each is delivered, told on its run, claim, effects and evidence; then tasks and units are in bijection |
| DeliveryOutcomes.UnauthorisedDoesNothing | packages/server/src/delivery-grant.ts:11-32 | of a package revoked, changed since approval, or with a closed, uncommitted or superseded root, no unit is bound, proved or ready |
| DeliveryOutcomes.NoClaimWithoutAuthority | packages/server/src/claim-service.ts:1045-1064 | however far a package was run before, without authority no unit of it is claimed for the first time |
| DeliveryOutcomes.BindingIff | packages/server/src/delivery-grant.ts:21-32 | when exactly an issue counts as an approved unit, told on both rows, the grant and the unit's acceptance lines |
| DeliveryOutcomes.NewUnitIs | packages/server/src/delivery-execution.ts:50-55 | the row created for a unit: committed, unstarted, a child of the root, on the acceptance lines the unit names in its order |
| DeliveryOutcomes.UnitTermsIff | packages/server/src/delivery-policy.ts:92-97 | a unit's terms are the root's acceptance lines it names and the root's other terms, and no other terms are |
| DeliveryOutcomes.OrdinaryReadyIff | packages/server/src/delivery-readiness.ts:15-41 | an issue of no package is ready exactly when its committed, unsuperseded blockers are closed |
| DeliveryOutcomes.ReadyNeedsClosedBlockers | packages/server/src/delivery-readiness.ts:15-41 | whatever a ready issue is, no blocker outside its package is still open |
| DeliveryOutcomes.DependencyBlocksIff | packages/server/src/delivery-readiness.ts:22-27 | between two units of a live package a dependency blocks exactly until it is proved |
| DeliveryReview.ReviewBoard.AcceptChildren | packages/server/src/delivery-review.ts:38-46 | each prepared task moves once and gets one decision, no other row changes |
| WorkClaims.ClaimKeepsHolderIff | packages/server/src/claim-service.ts:1052-1064 | along any run a claim is still there, with its actor and token, exactly when no step released it, completed a run of its work, or swept or retook it after its lease |
| WorkClaims.LiveClaimEnds | packages/server/src/run-service-report.ts:337-344 | while its lease is live a claim ends only by a release or by its holder completing a run |
| WorkClaims.CompletionFreesTheWork | packages/server/src/run-service-report.ts:337-344 | a run in which a claim, live and never released or swept, is gone and another actor takes the work; the work is ready again then after a scheduled round, which leaves its state alone, or once it is moved back from review |
| WorkClaims.CompletionEndsRuns | packages/server/src/run-service-report.ts:170-187 | a claim has at most one open run, so completing it leaves no open run that was opened under that claim |
| WorkClaims.AgentRenewsByToken | packages/server/src/claim-service.ts:1056-1061 | an agent renews exactly by the token of its own live claim, and only the lease end changes |
| WorkClaims.TakenIff | packages/server/src/claim-service.ts:1052-1114 | a work is taken afresh exactly when it is ready and no claim on it is live; the taker holds it under a new id and token, and no other claim moves |
| WorkClaims.RenewedIff | packages/server/src/claim-service.ts:1052-1061 | exactly a live holder renews, an agent only with its token, and only the lease end changes |
| WorkClaims.LeaseGiven | packages/server/src/claim-service.ts:1101-1105 | a claim lasts the seconds asked for, or two hours, from now |
| WorkClaims.ReleasedIff | packages/server/src/claim-release.ts:27-53 | a person releases any claim, an agent exactly its own live one with its token, always with a reason |
| WorkClaims.SweptIff | packages/server/src/claim-expiry.ts:23-37 | a sweep ends exactly a claim whose lease is over |
| WorkClaims.ReportRunIff | packages/server/src/run-service-report.ts:207-295 | when a report on a named run goes through, and the status it leaves |
| WorkClaims.ReportWorkIff | packages/server/src/run-service-report.ts:143-241 | when a report that names no run opens one, and the late case |
| WorkClaims.ReportRebinds | packages/server/src/run-service-report.ts:170-187 | with a run open under the claim it is the report on that run |
| WorkClaims.FreshTakeEndsRuns | packages/server/src/claim-service.ts:1094-1114 | after a fresh take no earlier run of the work is open or unrevoked, those not completed have failed, and other works' runs are untouched |
| WorkClaims.EndedStaysEnded | packages/server/src/claim-service.ts:1094-1100 | and so it stays along every further run |
| WorkClaims.EndedClaimEndsRuns | packages/server/src/claim-release.ts:45-53 | after a release or expiry every run opened under that claim is revoked and, unless completed, failed; no other run moves |
| WorkClaims.OnlyTheHolderWrites | packages/server/src/run-service-report.ts:143-344 | but for a late one, a run is written only by the holder of the claim it was opened under, an agent only under a live lease with its token; completing it, and only that, deletes the claim; no other run moves |
| WorkClaims.AfterKeepsInv | packages/server/src/claim-service.ts:1019-1222 | along every run ids and tokens stay unshared, an attached run names the live claim of its own work, actor and token, and no claim has two open runs |
| WorkBoard.WorkBoard.UpsertWorkClaim | packages/server/src/claim-service.ts:1153-1199 | drop the expired row, extend one's own or create a new one; refused exactly while another actor's lease is live |
| WorkBoard.WorkBoard.TakeOrRenew | packages/server/src/claim-service.ts:1052-1114 | the class step equals the model step and keeps the invariant |
| WorkBoard.WorkBoard.ReleaseClaim | packages/server/src/claim-release.ts:22-53 | release, with the refusals in the source's order |
| WorkBoard.WorkBoard.SweepOne | packages/server/src/claim-expiry.ts:23-37 | an ended claim goes and its runs end; a renewed one is left alone |
| WorkBoard.WorkBoard.SweepExpired | packages/server/src/claim-expiry.ts:14-46 | exactly the listed claims whose lease ended go, each counted once |
| AutonomyPolicy.EvaluateMonotone | packages/server/src/autonomy-policy.ts:209-228 | a condition that holds keeps holding as more facts become known |
| AutonomyPolicy.ResolveAutonomy | packages/server/src/autonomy-policy.ts:277-321 | the loops compute the minimum of ceiling, request and trust, the most specific rule that may apply at each gate, and the locks of automatic gates |
| AutonomyOutcomes.LevelIs | packages/server/src/autonomy-policy.ts:266-292 | the effective level reaches l exactly when the unpaused ceiling, the project or else the team, and the agent's trust all do |
| AutonomyOutcomes.RuleIs | packages/server/src/autonomy-policy.ts:297-310 | the rule in force is the most specific scope's that does not open what the level keeps shut, else the preset |
| AutonomyOutcomes.PresetIs | packages/server/src/autonomy-policy.ts:109-142 | which gates each level opens by itself, and which are nobody's |
| AutonomyOutcomes.DecisionIs | packages/server/src/autonomy-policy.ts:330-341 | automatic, a person's or nobody's, exactly, from the rule in force, its condition, what is grave, and whether the scope is watching |
| AutonomyOutcomes.LockedIff | packages/server/src/autonomy-policy.ts:151-159 | the built-in locks match exactly a review of something severe, deployed or intermittent |
| AutonomyOutcomes.OperatorsAre | packages/server/src/autonomy-policy.ts:210-228 | NOT_IN denies IN on a known field, EQ is IN on a single value, the bounds meet at the value |
| AutonomyOutcomes.CommitUnderPresets | packages/server/src/autonomy-policy.ts:89-94 | when a candidate is committed automatically under the presets |
| AutonomyOutcomes.AcceptUnderPresets | packages/server/src/autonomy-policy.ts:96-102 | when a review is accepted automatically under the presets, whatever else is known |
| AutonomyOutcomes.AmendUnderPresets | packages/server/src/autonomy-policy.ts:95 | when an amendment is accepted automatically under the presets |
| AutonomyPolicy.RaisingKeepsAutomatic | packages/server/src/autonomy-policy.ts:277-341 | for every override table, lock match and fact set an automatic decision stays automatic when ceiling, request or trust rises |
| AutonomyPolicy.NeverAutomatic | packages/server/src/autonomy-policy.ts:109-155 | nothing is automatic when paused, at ceiling 0 or for an OBSERVE agent |
| AutonomyPolicy.LearningFacts | packages/server/src/autonomy-policy.ts:330-341 | learning facts takes an automatic decision away exactly when a lock comes to match |
| AutonomyPolicy.UnknownFactsIff | packages/server/src/autonomy-policy.ts:330-341 | with nothing known a decision is automatic exactly when the rule in force is, the policy is not observing, and the rule's condition is absent or true by its shape, needing no fact |
| AutonomyPolicy.AutomaticStandsIff | packages/server/src/autonomy-policy.ts:330-341 | for any facts decided automatically, the decision stands whatever more becomes known exactly when every built-in lock of the gate looks at a known field |
| AutonomyPolicy.NeededFactFallsBack | packages/server/src/autonomy-policy.ts:209-228 | while a field the rule in force needs is unknown nothing is decided automatically: of a conjunction some part needs it, of a disjunction every part |
| AutonomyPolicy.PresetFallsBackIff | packages/server/src/autonomy-policy.ts:89-149 | under an automatic preset, for every field: leaving it unknown always falls back to a person exactly when the preset names it |
| AutonomyPolicy.PresetsFallBack | packages/server/src/autonomy-policy.ts:89-149 | under the presets nothing is automatic while nothing is known |
| AutonomyPolicy.UnknownFactsCanBeAutomatic | packages/server/src/bug-auto-accept.ts:176-183 | under the presets at level 2, on the facts the caller builds for a verified fix, delivery actions unknown: automatic, and a deploy learnt later withdraws it |
| AutonomyPolicy.DelegationUnderPresets | packages/server/src/autonomy-policy.ts:103-149 | under the presets delegation is automatic exactly at level 3 with budget left and at most three hops |
| Text.NormalizeIdempotent | packages/server/src/contract-amendment.ts:60-63 | normalising a value twice is normalising it once |
| Text.NormalizeIs | packages/server/src/contract-amendment.ts:60-63 | white space alone is no value; of any other value what lies between its first and last other character is kept |
| AmendmentTheorems.ProposeIff | packages/server/src/contract-amendment.ts:104-142 | when a proposal goes through |
| AmendmentTheorems.ProposalRecords | packages/server/src/contract-amendment.ts:131-158 | it records exactly the requested fields that would change, each with the normalised value it has and the one it is to get; what was pending on the work is superseded |
| AmendmentTheorems.ProposeThenAccept | packages/server/src/contract-amendment.ts:104-290 | accepted at once it goes through, every requested field then says what was requested and the others are untouched |
| AmendmentTheorems.RejectIff | packages/server/src/contract-amendment.ts:292-308 | exactly a pending amendment is rejected, by a person with a note, and contracts stand |
| AmendmentTheorems.ReopenIff | packages/server/src/contract-amendment.ts:344-352 | exactly what the gate accepted can be taken back, by a person with a reason |
| AmendmentTheorems.RunKeeps | packages/server/src/contract-amendment.ts:122-158 | in every reachable state a work has at most one pending amendment, and decided amendments never change |
| AmendmentTheorems.AcceptChangesExactly | packages/server/src/contract-amendment.ts:269-280 | accepted exactly when pending and not stale; then exactly the touched fields move, from their recorded before values to the proposed ones |
| AmendmentTheorems.ReopenRestoresIff | packages/server/src/contract-amendment.ts:339-365 | after any run, reopening a gate-accepted amendment leaves a pending copy that is not stale, and restores the normalised contract exactly when the untouched fields still say the same |
| AmendmentTheorems.ReopenAtOnceRestores | packages/server/src/contract-amendment.ts:339-365 | with no edit in between the normalised contract is restored outright |
| AmendmentDesk.AmendmentDesk.Differences | packages/server/src/contract-amendment.ts:131-139 | the loop collects exactly the fields that really change, with the values they replace |
| AmendmentDesk.AmendmentDesk.SupersedePending | packages/server/src/contract-amendment.ts:144-148 | exactly the work's pending amendments are superseded |
| AmendmentDesk.AmendmentDesk.ProposeAmendment | packages/server/src/contract-amendment.ts:104-158 | the class step equals the model step and keeps the invariant |
| AmendmentDesk.AmendmentDesk.AcceptAmendment | packages/server/src/contract-amendment.ts:256-290 | accept, with the refusals in the source's order |
| AmendmentDesk.AmendmentDesk.RejectAmendment | packages/server/src/contract-amendment.ts:292-329 | reject, with a person's note |
| AmendmentDesk.AmendmentDesk.ReopenAmendment | packages/server/src/contract-amendment.ts:339-366 | a person takes back what the gate accepted |
| ReadyQueue.ListReadyWork | packages/server/src/context-service.ts:268-313 | for every page size, filter and batch boundary the list is the first n of all ready items in order of compareReadyWork, n being the number asked for within 1 and 200, or 20; there is a next page exactly when more are ready |
| ReadyQueue.BucketsFormListing | packages/server/src/context-service.ts:281-291 | reading the buckets in order gives all ready items sorted by compareReadyWork |
| ReadyQueue.BucketsAreTheListing | packages/server/src/context-service.ts:347-365 | and it is the only such list |
| ReadyQueue.BeforeIs | packages/server/src/context-service.ts:347-365 | urgent, high, medium, low, none, then others; within a rank the newest first, then by identifier |
| AttentionQueue.PageAttention | packages/server/src/attention-service.ts:181-194 | the scan for the cursor's successor and the page cut from it |
| AttentionQueue.WalkNeverRepeats | packages/server/src/attention-service.ts:176-194 | whatever vanishes or arrives between pages, no (since, id) is returned twice |
| AttentionQueue.WalkReturnsExactlyOnce | packages/server/src/attention-service.ts:176-194 | an item that stays with an unchanged (since, id) is returned exactly once by a walk that finishes |
| ItemIds.RootAgrees | packages/server/src/attention-service.ts:465-474 | under the root collation localeCompare and code units order the ids of items, a kind and a lower-case UUID, alike |
| AttentionQueue.RootWalkReturnsExactlyOnce | packages/server/src/attention-service.ts:163-194 | so for the queue as it is sorted, an item that stays is returned exactly once and none twice |
| AttentionQueue.SortIsInOrderIff | packages/server/src/attention-service.ts:163-164 | in any locale the sorted queue is in the cursor's order exactly when the two orders agree on ids sharing a since |
| AttentionQueue.SortedPagingIff | packages/server/src/attention-service.ts:163-194 | a sorted, unchanging queue is read in full one by one exactly when the orders agree on it, and then at every page size |
| AttentionQueue.EveryPageSizeIff | packages/server/src/attention-service.ts:181-194 | pages of every size meet when the queue is in the cursor's order, and pages of one only then |
| AttentionQueue.DanishWalkDropsOne | packages/server/src/attention-service.ts:163-194 | two items a queue can hold that Danish sorts one way and the cursor compares the other: paging never returns the second |
| AttentionQueue.PagingCompleteIff | packages/server/src/attention-service.ts:181-194 | for every page size, reading an unchanging queue gives all of it exactly when at each page boundary nothing before lies after the boundary's last item and the next item does |

## Left out

- Notifications, audit rows, outbox events, mentions, evidence rows and every message text.
- Access control and permission checks (`assertActorCan`, `assertExecutionAuthority`, team membership reads), which come in as parameters where a decision depends on them.
- Deleting works, comments or actors, and changing an actor's kind while requests are open.
- Idempotency keys of callers, intake and hand-offs live in separate name spaces; a caller who spells out another's prefix is not modelled.
- Asking and withdrawing a needinfo are steps of the ledger model (their effect on rows is covered by every run theorem) without a class method of their own.
- RequestTheorems.ReachableRow: COMPLETED has an answering comment is stated for requests other than needinfos, because it is false of those; RequestTheorems.CommentAnswersAllIff gives the exact condition.
- RequestTheorems.BudgetConserved: runs of whole transactions without hand-offs of the chain, because a handed-off request carries no budget; overlapping ones are in RequestRaces.
- RequestTheorems.ChainsAreShort: runs of whole transactions; the source takes no lock, and overlapping delegations and hand-offs are in RequestRaces, one late writer at a time.
- RequestLedger.RequestLedger.DelegateRequest: the policy's verdict, the commitment of the work and the target's credential are parameters, and asking the owner for more budget is not modelled.
- RequestLedger.RequestLedger.OpenDispatch: which agent the intake rule picks is a parameter.
- RequestLedger.RequestLedger.ExpireOverdue: nobody else moves a request between two of its transactions (the run theorems allow it); the batch the database lists, in deadline order and at most 50 long, is a parameter.
- WorkBoard.WorkBoard.SweepExpired: the works the database lists, at most 100, are a parameter; moving work back to Ready is not modelled.
- WorkBoard.WorkBoard.TakeOrRenew: replays of an idempotency key and the move to In Progress are not modelled; readiness is a parameter, modelled by DeliveryGrant.
- WorkClaims.OnlyTheHolderWrites: whether a late run is allowed (state, window, latest expiry) is a parameter; a run named by its claim's id, replays and the work's move to Review are not modelled.
- SlaClock.ComputeSlaClock: transitions come sorted, as the timeline loader delivers them; the at-risk share is exact real arithmetic.
- SlaHistory.ElapsedMonotone: the committed instant and the recorded transitions stay as they are; the timeline loader can move both on a partial history, taking the first COMMITTED audit and adding a transition at the row's last write when it moved without an audit (`work-timeline.ts:95-107`), and then elapsed time may fall.
- SlaAlerts.RemindedOnce: who is reminded is not modelled; a reminder counts as sent even when it has no recipient.
- Field-level validation of a delivery policy (`delivery-policy.ts:44-69`): each rule is one branch.
- DeliveryGrant.BindingOf: a contract's digest is the contract itself, and acceptance text is the list of its lines.
- DeliveryRuns.PredecessorsClaimedAndProved: runs at one grant revision, with rows and grant unchanged; proving and losing proof are environment steps.
- Returning a package for changes (`returnDeliveryChildren`), executor effects and dispatch generations beyond their creation.
- AutonomyPolicy.EvaluateMonotone: numbers are integers and lower-casing is ASCII; gates a workspace lists as locked are only reported by the source and claimed nothing about.
- Validation of predicates and gate tables, and the descriptions of levels and facts.
- AmendmentDesk.AmendmentDesk.ProposeAmendment: the attempt to accept at once that follows is a separate step; request parsing is left out.
- ReadyQueue.ListReadyWork: the database does not change during one call, and identifiers have one total order.
- ItemIds.RootAgrees: a collation is its primary keys on the characters of ids; case and accents decide only between ids with equal keys, and no tailoring but the contraction of "aa" is modelled.
- The attention loaders, groups, blockers and overdue flags.
- CLI, web, browser extension, authentication, GitHub verification, search and the IQL compiler.
