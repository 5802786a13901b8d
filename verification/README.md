# A verified model of durable alert delivery

The gateway takes in alerts under an idempotency key, queues them in SQLite, and lets one worker
turn each into a case in TheHive, an execution in Shuffle and, for account activity, a pending
approval. Retries, reservations, idempotency keys and crash recovery live in separate tables and
modules, and what the service promises holds only if all of them cooperate over whole runs. This
project states that cooperation as one transition system, proves what it guarantees, and shows
that the worker, the endpoints, the stores and the Wazuh adapter, written out as they run, take
the steps of that system and no others.

## How the project is organised

- `Protocol.dfy` is the transition system: `Enabled` and `Next` say when each step may be taken
  and what it does. Every SQLite transaction is one step, every call to MISP, TheHive or Shuffle
  ends in an answer the environment chooses, a crash may fall between any two worker steps, and
  intake, replay, reconciliation, approvals and the clock act at any time. `Run` is a history.
- `Deliveries.dfy`, `Approvals.dfy`, `Alerts.dfy` and `RetryingClient.dfy` say what the
  transactions and answers mean; `Invariants.dfy` proves what every step keeps.
- `ShuffleBound.dfy`, `Lifecycle.dfy`, `Cases.dfy`, `Attempts.dfy` and `Recovery.dfy` prove the
  properties of whole histories.
- `Progress.dfy` says what the worker reaches by its own steps; the recovery theorems and the
  worker's methods both build on it.
- `Witnesses.dfy` builds the histories, from the empty tables, in which the failures listed below
  happen.
- `DeliveryStore.dfy`, `IncidentStore.dfy` and `ApprovalStore.dfy` are the stores as objects that
  update their tables; `Worker.dfy` is the worker over them, and `Gateway.dfy` the endpoints.
- `Adapter.dfy` composes the Wazuh adapter's processes and spool with the gateway, `Spool.dfy`
  proves what becomes of spooled files and refused alerts, and `AdapterProcess.dfy` is one such
  process.
- `Enrichment.dfy`, `Timestamps.dfy` and `Labels.dfy` are the three algorithmic pieces: canonical
  indicator extraction, the text order of timestamps, and printed metric labels.

## What was found

Each failure comes with a history that reaches it and with the exact condition under which it
happens or cannot happen.

- **Two acceptances after one retry.** `ShuffleBound.AcceptedBounded` bounds the acceptances of a
  trace by one plus the retries allowed by analysts. TROUBLESHOOTING.md:104 asks them to confirm first
  that no execution exists. That does not make a retry safe: by `Recovery.RetrySafeExactly` it is safe
  if and only if, besides, no earlier request is still under way. Retries after a lost request
  cost nothing (`ShuffleBound.AcceptedOnce`, and `Witnesses.CarefulRetryReached` for such a history);
  `Witnesses.TwoAcceptances` is a history with one retry that came too early, and by
  `Witnesses.OnceExactly` a trace is accepted once in all histories exactly if none does.
- **A completed delivery that is retried.** The result is stored and the audit line written within
  one `try`. If the line cannot be written, the failure is recorded for the completed row, whose
  update has no guard on the status: the delivery is retried, or has failed, with its result still
  stored. By `Lifecycle.CompletedIsFinal` a completed delivery is final if and only if the worker has
  let go of it, and by `Witnesses.FinalityExactly` completed deliveries are final in all histories
  exactly if no such line fails. `Witnesses.RelapseReached` is a history in which one does, and
  in `Witnesses.RelapseIntoDeadEnd` the completed delivery ends as one that can never be completed.
- **A worker that stops.** The audit lines of a recorded failure and of a recovery are written
  outside any `try`: if one cannot be written, the worker's loop ends while the service goes on taking
  alerts. By `Attempts.ClaimableExactly` waiting deliveries can be claimed without a restart if and only
  if the worker has not stopped, and by `Witnesses.StopsExactly` this holds in all histories exactly if
  no such line is lost; `Witnesses.StopReached` is a history in which one is.
- **A dead end.** A handoff that Shuffle acknowledged without naming an execution is stored as
  completed without an identifier, and a retry of its delivery then neither proceeds nor can be
  reconciled. `Recovery.CompletableExactly` shows that these are the only failed deliveries that
  can never be completed, `Witnesses.DeadEndReached` that they occur.
- **Incidents without a case.** AUTOMATED_ENRICHMENT.md:43 says that a failed enrichment or case
  creation releases the incident reservation. A crash does not:
  `Cases.UnresolvedExactlyAfterCrash` shows that a fingerprint stays reserved without a case, for
  ever, exactly when a crash fell inside its window, and `Cases.PendingMeansCrash` that exactly
  then its deliveries end as `pending`, as in `Witnesses.PendingReached`.
- **More cases than attempts.** AUTOMATED_ENRICHMENT.md:39 relies on the case tag for recovery. A
  create request that times out may be acted on after the next lookup found nothing, so that the
  number of cases of a fingerprint exceeds the client's attempts by the number of requests of earlier
  calls that are acted on (`Cases.CasesBounded`, attained in `Witnesses.LateCaseReached`; by
  `Witnesses.CaseBoundExactly` the bound by the attempts alone holds exactly without them). Once a
  case exists, `Cases.RediscoveryExactly` says when it is the last, and `Cases.CasesCeiling` how many
  can follow.
- **Shared traces.** The trace is a digest of `key:alert id`. By `Alerts.TracesShared` two keys can
  share one exactly if one of them is the other followed by a colon and more;
  `Alerts.TraceCollision` shows two that intake accepts. The agreement theorems ask that no two
  deliveries share a trace, for which keys without a colon suffice (`Invariants.ColonFreeIsAdmissible`)
  as the adapter's are (`Adapters.KeyColonFree`); the bound on acceptances does not need this.
  `Witnesses.SharedTraceReached` shows what happens otherwise: the second delivery is completed with
  the execution of the first, nothing is sent for it, and it gets no approval of its own.
- **Shared incidents.** The fingerprint joins hour, rule, agent and indicators by vertical bars, which
  intake accepts in rule and agent identifiers. By `Alerts.FingerprintDetermines` a fingerprint tells
  rule and agent exactly if neither has a bar and there are no indicators; among alerts without bars
  it does, and by `Cases.CaseSharedExactly` such deliveries share a case exactly if hour, rule, agent
  and indicators agree. Otherwise `Witnesses.SharedIncidentReached` shows what happens: the second of
  two deliveries with one fingerprint is completed with the case of the first, and so is its approval.
- **Overwritten alerts.** The adapter's key leaves out the data of an alert, and an alert that was
  spooled can be overwritten by another one (`Adapters.OverwrittenAlert`). Every handled alert is
  kept if and only if the keys tell the forwarded alerts apart (`Adapters.KeptExactly`). A spooled
  alert whose key the gateway holds with other contents stays in the spool until a process writes
  under its key, unless a process is about to remove what was stored there before
  (`Spools.ConflictStaysExactly`, reached in `Spools.ConflictReached`).
- **Starvation.** A process tries the first files of the spool only. While nothing is written under
  the keys of the stuck files before it, a file is never tried if and only if there are as many of
  them as a process tries (`Spools.StarvedExactly`); whatever that number is, such histories exist
  (`Spools.StarvationOccurs`).
- **Alerts given up.** docker/wazuh/README.md:20 says that gateway failures are spooled; after a 4xx
  answer the alert is given up with an error instead. By `Spools.GivenUpExactly` such an alert is kept
  nowhere from then on, unless a process has it to send or store once more, exactly if it was not kept
  already and either the gateway holds its key with another alert or no other request for it is under
  way. Both happen: `Spools.GivenUpReached` for any two forwarded alerts of one key, and
  `Spools.RefusedAtOnce` for every forwarded alert, as after a 401 or a 422.

## Assumptions

- SQLite transactions are atomic and do not fail; there is one worker and one event loop; the
  settings do not change. The attempt limits are at least one. Every audit line of the worker may fail
  to be written, like any call to another system.
- Digests are injective: the fingerprint, the trace and the payload hash are represented by what
  is digested, and the adapter's digest is a hexadecimal text that determines its input.
- Identifiers that are drawn are new. Listed cases carry an identifier.
- TheHive lists the cases it has and no others. It may act on a create request, and Shuffle on a
  trigger, at any time after it was sent, but at most once, whatever was answered, and either may be
  lost; only an HTTP error answer from Shuffle means that the trigger was not accepted. An alert that
  the gateway refused with a 4xx answer does not arrive again unless it is sent again.
- Times are whole microseconds within the calendar of `datetime`, the years 1 to 9999, counted from
  its start; a retry that would be scheduled after that calendar is not considered.

## Model

| member | source | states |
|---|---|---|
| ShuffleBound.AcceptedBounded | src/soc_integration/worker.py:101-125 | In every history, with crashes, retries, timeouts, replays and reconciliations, and for any keys, the triggers of a trace that Shuffle has accepted or may still accept number at most one plus the `retry` reconciliations of that trace |
| ShuffleBound.AcceptedOnce | src/soc_integration/app.py:403-424 | With distinct traces, the triggers of a trace that were accepted or may still be number at most one plus the careless retries, those allowed while one had been accepted or was under way: retries after lost requests cost nothing |
| Witnesses.LostTriggerReached | src/soc_integration/worker.py:112-118 | A trigger that times out and is lost: the analyst is asked, with nothing accepted and nothing under way |
| Witnesses.CarefulRetryReached | src/soc_integration/app.py:403-424 | From there one retry leads to a second request, exactly one acceptance and a completed delivery |
| Witnesses.OnceExactly | src/soc_integration/app.py:403-424 | In all histories with at most n careless retries a trace is accepted at most once if and only if n is zero |
| ShuffleBound.OpenStep | src/soc_integration/deliveries.py:194-259 | No step adds an open trigger of a trace without taking its reservation or spending an analyst's retry |
| Recovery.RetrySafeExactly | src/soc_integration/app.py:403-424 | A `retry` keeps the trace at one acceptance, further retries aside, if and only if nothing of it had been accepted and nothing was under way, in any state of the worker; both cases occur after an unanswered trigger |
| Recovery.RetryTooEarly | src/soc_integration/deliveries.py:244-248 | Otherwise the worker, started again if it had stopped, and Shuffle by themselves can reach two acceptances |
| Witnesses.AmbiguityReached | src/soc_integration/worker.py:112-118 | An unanswered trigger leads to a failed delivery that awaits an analyst, with nothing accepted and one request under way |
| Witnesses.TwoAcceptances | src/soc_integration/app.py:403-424 | While the first request is under way a single, careless retry leads to two acceptances |
| Lifecycle.LifecycleStep | src/soc_integration/deliveries.py:108-169 | Every step keeps a delivery's alert, trace and creation time and moves it along the intended edges at most, leaving completed rows as they are, save that the failure of the audit line is recorded for a completed row, which is retried or has failed with its result |
| Lifecycle.CompletedIsFinal | src/soc_integration/worker.py:152-171 | No continuation changes a completed row, result included, if and only if the worker has let go of it: until the audit line is written, its failure can be recorded for the row |
| Lifecycle.ReportedIsFinal | src/soc_integration/worker.py:152-166 | In histories in which every audit line of a completed delivery is written, a row never changes once it is completed |
| Lifecycle.RowsAreKept | src/soc_integration/deliveries.py:130-169 | Over any continuation no row disappears, and alert, trace and creation time stay |
| Witnesses.FinalityExactly | src/soc_integration/worker.py:152-171 | In all histories with at most n audit lines lost after completion, completed rows are final if and only if n is zero |
| Witnesses.RelapseReached | src/soc_integration/worker.py:162-171 | For every key and alert, such a line is lost, and the completed delivery is to be retried or has failed, with its result still stored |
| Witnesses.RelapseIntoDeadEnd | src/soc_integration/worker.py:103-171 | With a handoff acknowledged without an identifier, the delivery that was completed ends as one that no continuation completes |
| Lifecycle.CompletedHandoffIsFinal | src/soc_integration/deliveries.py:211-259 | A completed handoff is never altered or removed by completion, release, reconciliation, retry or crash |
| Lifecycle.HandoffAgreement | src/soc_integration/worker.py:99-152 | In every reachable state a completed delivery stores exactly the execution of its completed handoff, or none without a webhook, and pending handoffs have none |
| Lifecycle.CaseAgreement | src/soc_integration/worker.py:132-152 | A completed delivery of rule 100102 with a case has exactly one approval of its trace, shared with no other, for the one allow-listed response, and result, approval, incident row and TheHive agree on the case |
| Lifecycle.ApprovedForAccounts | src/soc_integration/worker.py:132-148 | Conversely, every approval of a trace is that of a delivery of rule 100102, for the recorded case of its incident |
| Invariants.InvAlways | src/soc_integration/worker.py:63-171 | The invariants of the protocol hold in every reachable state: one processing row, held by the worker; handoffs, incidents and approvals agree with it |
| Invariants.InvStep | src/soc_integration/worker.py:63-171 | Every step, of whichever party, keeps them |
| Invariants.ExclusiveStep | src/soc_integration/worker.py:63-77 | At most one row is `processing`, one the worker holds; the worker holds a completed row only while its audit line is written or has failed; a completed row has its result |
| Invariants.ColonFreeIsAdmissible | src/soc_integration/app.py:451-453 | Histories whose keys have no colon never give two deliveries one trace, so that the invariants hold throughout |
| Witnesses.SharedTraceReached | src/soc_integration/worker.py:101-148 | For any two keys and alerts of one trace with different fingerprints: the second delivery is completed with the execution of the first, one request is sent in all, and the one approval names the case of the first |
| Witnesses.SharedIncidentReached | src/soc_integration/pipeline.py:58-64 | For any two keys and alerts of one fingerprint and two traces, whatever their rules and agents are: there is one case, both deliveries are completed with it, and an approval of the second names it |
| Cases.CasesBounded | src/soc_integration/pipeline.py:75-86 | In every history a fingerprint has at most as many cases as the client makes attempts, plus the create requests of earlier calls that were acted on; a case that appears during a call of which requests are outstanding counts for that call |
| Witnesses.CaseBoundExactly | src/soc_integration/pipeline.py:75-86 | In all histories with at most n such late requests the attempts alone bound the cases if and only if n is zero |
| Witnesses.LateCaseReached | src/soc_integration/integrations/base.py:52-67 | A timed-out request that is acted on late: one case more than the client makes attempts, with a single late request |
| Cases.OneCaseUnlessWasted | src/soc_integration/integrations/base.py:46-100 | At most one case beyond the create requests that were acted on and nevertheless repeated, or acted on some time after they were sent |
| Cases.RediscoveryExactly | src/soc_integration/integrations/thehive.py:28-43 | No continuation adds a case to an existing one if and only if no create request has outlived its call and no call at hand can still send one |
| Cases.CasesCeiling | src/soc_integration/pipeline.py:66-86 | Once a case exists, no continuation exceeds a number of cases if and only if the existing ones, the requests that outlived their call and those a call at hand has left do not exceed it |
| Cases.UnresolvedExactlyAfterCrash | src/soc_integration/pipeline.py:60-86 | Outside the window of its fingerprint, an incident row lacks its case if and only if a crash once fell inside that window |
| Cases.PendingMeansCrash | src/soc_integration/pipeline.py:61-64 | A result is `pending` exactly when it has no case, and exactly when a crash once fell inside the window of its fingerprint |
| Witnesses.PendingReached | src/soc_integration/pipeline.py:60-89 | Such a crash occurs, and its delivery is completed as `pending` |
| Cases.CrashFreeHasCase | src/soc_integration/pipeline.py:60-89 | Without crashes every completed delivery has a case |
| Cases.CaseSharedExactly | src/soc_integration/pipeline.py:58-64 | In every reachable state two completed deliveries have the same case if and only if their alerts agree in hour, rule, agent and the well-formed indicators they offer, as long as no vertical bar is in any of these |
| Cases.CaseOfOneRule | src/soc_integration/pipeline.py:58-64 | Whatever the indicators are, deliveries that share a case agree in hour, rule and agent |
| Attempts.AttemptsCountClaims | src/soc_integration/deliveries.py:108-169 | The attempt counter is the number of claims since intake or the last requeue, and exceeds the maximum only by the crashes that interrupted the delivery meanwhile |
| Attempts.ClaimsArePaidFor | src/soc_integration/worker.py:76-93 | Claims plus the remaining weight of the queue never exceed what new deliveries, requeues and interruptions brought |
| Attempts.UndisturbedClaims | src/soc_integration/deliveries.py:139-150 | N deliveries, without crash or operator, are claimed at most N times the maximum number of attempts |
| Attempts.SettledExactly | src/soc_integration/worker.py:167-171 | With nothing in processing, the remaining weight is zero exactly when every delivery is completed or failed |
| Attempts.QuietOrClaims | src/soc_integration/worker.py:67-74 | An idle worker with weight left can claim again once enough time has passed, if and only if it has not stopped |
| Attempts.StoppedUntilRestart | src/soc_integration/worker.py:63-74 | A worker that has stopped stays so, and claims nothing, in every history without a restart |
| Attempts.ClaimableExactly | src/soc_integration/worker.py:63-74 | Some history without a restart claims one of the waiting deliveries if and only if the worker has not stopped |
| Witnesses.StopReached | src/soc_integration/worker.py:167-188 | A failure is recorded, its audit line is lost, and a delivery that arrives afterwards waits for a restart |
| Witnesses.StopsExactly | src/soc_integration/worker.py:64-66 | In all histories with at most n lost audit lines of failures and recoveries, an idle worker can go on to claim what waits without a restart if and only if n is zero |
| Attempts.ClaimsAreSpaced | src/soc_integration/worker.py:168-171 | With a monotone clock and no crash, claim i+1 of an epoch comes at least the backoff times 2^(i-1) after claim i |
| Attempts.DelaysBounded | src/soc_integration/worker.py:168 | Without crashes the delays of an epoch add up to at most the backoff times (2^(max-1) - 1) |
| Attempts.DelaysAddUp | src/soc_integration/worker.py:168 | The delays scheduled so far are the first terms of the doubling series, one per failure that scheduled a retry |
| Deliveries.DoubledIsProduct | src/soc_integration/worker.py:168 | Doubling a number n times multiplies it by 2^n |
| Recovery.AmbiguityBlocks | src/soc_integration/worker.py:112-120 | A timeout, a transport failure, an answer below 400 whose body cannot be read, or a crash around the trigger leaves the delivery blocked |
| Recovery.TriggerAnswered | src/soc_integration/worker.py:108-125 | What is kept of a trigger, for every answer: after a status of 400 or more its reservation is gone and nothing else; after a timeout, a transport failure or an unreadable body everything stays and the attempt fails; after any other answer the handoff is completed with the execution that the body names, an empty name counting as none |
| Recovery.BlockedUntilReconciled | src/soc_integration/worker.py:103-105 | Until it is reconciled, through replays and crashes, a blocked delivery never completes and nothing is sent for it |
| Recovery.BlockedFails | src/soc_integration/deliveries.py:139-150 | Left alone it uses up exactly its remaining attempts and then has failed |
| Recovery.CompletableExactly | src/soc_integration/deliveries.py:226-259 | A failed delivery can be completed by some operator and a cooperative environment if and only if its handoff was not acknowledged without an execution identifier |
| Witnesses.DeadEndReached | src/soc_integration/worker.py:121-131 | A failed delivery whose handoff was so acknowledged occurs: no identifier in the reply, then a failed comment |
| Recovery.ReconciliationCompletes | src/soc_integration/app.py:397-434 | After `retry` the delivery can complete with exactly one more request, after an observed execution with none; a worker that has stopped has to be started again |
| Recovery.ReadyCompletes | src/soc_integration/worker.py:76-152 | Under cooperation a queued delivery whose handoff is not in the way is completed, with the requests it needs and no more, after what the worker holds and whatever is older, and after a restart if the worker had stopped |
| Recovery.CompletedHandoffSendsNothing | src/soc_integration/worker.py:101-107 | After a handoff is completed, no history sends anything for its trace |
| DeliveryStores.DeliveryStore.Enqueue | src/soc_integration/deliveries.py:83-106 | A new key is queued, a known one changes nothing and is a duplicate or a conflict by its payload |
| DeliveryStores.DeliveryStore.ClaimDue | src/soc_integration/deliveries.py:108-128 | Claims a due row of least creation time although it compares texts, and nothing exactly when none is due |
| DeliveryStores.DeliveryStore.Complete | src/soc_integration/deliveries.py:130-137 | Stores the result whatever the status was; an unknown key changes nothing |
| DeliveryStores.DeliveryStore.Fail | src/soc_integration/deliveries.py:139-150 | Ends as failed exactly when the attempts are used up, otherwise schedules the retry; unknown keys are an error |
| DeliveryStores.DeliveryStore.RecoverProcessing | src/soc_integration/deliveries.py:152-160 | Returns exactly the interrupted rows to the queue, and their number |
| DeliveryStores.DeliveryStore.Requeue | src/soc_integration/deliveries.py:162-169 | Only failed rows, with a fresh budget |
| DeliveryStores.DeliveryStore.Counts | src/soc_integration/deliveries.py:187-192 | The number of rows of every status |
| DeliveryStores.CountsAddUp | src/soc_integration/deliveries.py:187-192 | The five counts add up to the number of accepted keys |
| DeliveryStores.DeliveryStore.ReserveHandoff | src/soc_integration/deliveries.py:194-209 | Reserves an unknown trace; a known one answers with its execution, an empty one counting as none |
| DeliveryStores.DeliveryStore.CompleteHandoff | src/soc_integration/deliveries.py:211-217 | Completes an existing reservation |
| DeliveryStores.DeliveryStore.ReleaseHandoff | src/soc_integration/deliveries.py:219-224 | Removes a pending reservation and nothing else |
| DeliveryStores.DeliveryStore.ReconcileHandoff | src/soc_integration/deliveries.py:226-259 | Resolves a pending handoff either way, or answers missing, already completed or invalid and changes nothing |
| DeliveryStores.DeliveryStore.OldestPendingAge | src/soc_integration/deliveries.py:261-270 | The age of the oldest unfinished row, zero if there is none or it lies ahead |
| DeliveryStores.DueByTextIsDue | src/soc_integration/deliveries.py:112-118 | Comparing the stored texts selects exactly the rows that are due in time |
| IncidentStores.IncidentStore.Reserve | src/soc_integration/incidents.py:36-46 | Reserves an unknown fingerprint; a known one answers with its case, if any |
| IncidentStores.IncidentStore.Complete | src/soc_integration/incidents.py:48-53 | Records the case where a row exists |
| IncidentStores.IncidentStore.Release | src/soc_integration/incidents.py:55-60 | Gives up a reservation, never a recorded case |
| ApprovalStores.ApprovalStore.Create | src/soc_integration/approvals.py:71-86 | Adds one pending approval under a new identifier |
| ApprovalStores.ApprovalStore.CreateOnce | src/soc_integration/approvals.py:88-121 | Creates the one approval of a trace or answers with the one it has |
| ApprovalStores.ApprovalStore.Decide | src/soc_integration/approvals.py:152-197 | A pending approval takes any first decision except that approving anything off the allow-list is a conflict; the proposal and every other approval stay; approving disables the identity or finds it disabled, rejecting and escalating have no effect; the same verdict again is a no-op, another one a conflict, an unknown approval missing, and these change nothing |
| ApprovalStores.ApprovalStore.IdentityState | src/soc_integration/approvals.py:143-150 | Of a sound ledger: only the laboratory identity is known, and it is shown as disabled exactly when precisely one approval has the result `disabled` |
| ApprovalStores.DisabledExactlyOnce | src/soc_integration/approvals.py:60-63 | Over every history of create, create_once and decide, the identity is disabled exactly when precisely one approval has the result `disabled` |
| ApprovalStores.OnlyApprovalDisables | src/soc_integration/approvals.py:168-183 | Only a first approval of an allow-listed proposal changes the identity |
| ApprovalStores.FinalDecision | src/soc_integration/approvals.py:160-163 | A decided approval never changes; the same verdict again is a no-op, another one a conflict |
| ApprovalStores.DecisionStands | src/soc_integration/approvals.py:152-197 | A decision stands over every later history |
| ApprovalStores.FirstDecisionRecorded | src/soc_integration/approvals.py:165-195 | After every history the first decision on a pending approval is recorded and nothing else of the table changes, unless it approves something off the allow-list; only approving touches the identity |
| ApprovalStores.EffectExactly | src/soc_integration/approvals.py:168-195 | After every history an approval has an effect if and only if it was approved, and then its proposal is on the allow-list |
| ApprovalStores.RefusedForGood | src/soc_integration/approvals.py:160-195 | What was rejected or escalated stays so and never has an effect, over every later history |
| ApprovalStores.OffListRefused | src/soc_integration/approvals.py:169-170 | Approving anything off the allow-list is a conflict and changes nothing |
| ApprovalStores.SourcesLinked | src/soc_integration/approvals.py:52-56 | Over every history each trace has at most one approval of its own and no two traces share one |
| Workers.DeliveryWorker.ProcessOnce | src/soc_integration/worker.py:76-189 | Takes the worker's steps of the protocol and no others; claims an oldest row that is queued or retrying and due, or nothing exactly when there is none; the claimed row ends completed, retrying or failed with one more attempt, after a lost audit line as after any exception, and no other row changes |
| Workers.DeliveryWorker.Recover | src/soc_integration/worker.py:64-66 | Every interrupted row is to be retried at once, marked as restarted, and no other row changes; an audit line is written exactly if there was one; this is the protocol's restart step |
| Workers.DeliveryWorker.Run | src/soc_integration/worker.py:63-74 | After a restart in any state, rounds of processing, until one raises, are steps of the protocol, and claim no more deliveries than the recovered queue can pay for |
| Workers.DeliveryWorker.Turn | src/soc_integration/worker.py:67-70 | Every round that claims a delivery lowers the remaining weight of the queue by at least one |
| Workers.DeliveryWorker.Correlate | src/soc_integration/pipeline.py:42-89 | A recorded case is reused, a reservation without one leaves the delivery pending, otherwise a case of the fingerprint that TheHive had, or a new one, is recorded; it answers only if nothing that was asked failed, and raises only after something did, leaving no reservation behind, and nothing recorded unless only the audit line was lost |
| Workers.DeliveryWorker.OpenCase | src/soc_integration/pipeline.py:75-86 | A new case is opened and recorded for the fingerprint, or the reservation is given up where a request, its answer or the observables fail; only a lost audit line raises with the case recorded |
| Workers.DeliveryWorker.PostAll | src/soc_integration/integrations/base.py:46-122 | The create requests are those of one call of the client on the same answers, and its verdict is what the last answer and its body say: an error unless that is a readable answer below 400 that names a case |
| Workers.DeliveryWorker.Find | src/soc_integration/integrations/thehive.py:28-43 | The lookup by tag: what was found is a case of the fingerprint and is recorded, nothing found means that TheHive has none, and an error gives the reservation up |
| Workers.DeliveryWorker.AddObservables | src/soc_integration/pipeline.py:81-86 | If the observables are added the case is recorded, otherwise the reservation is given up |
| Workers.DeliveryWorker.Post | src/soc_integration/integrations/base.py:49-121 | One create request of that call, acted on now, later or never: it is repeated exactly after a timeout, a transport failure, 429, 502, 503 or 504 while attempts are left; an answer below 400 names the case or raises; any other gives up, and giving up releases the reservation |
| Workers.DeliveryWorker.HandOff | src/soc_integration/worker.py:99-131 | Without a webhook nothing is sent; a known execution is reused and a handoff without one refused, and nothing is sent; a new one is sent once, and what is passed on is what the completed handoff holds; a comment is made exactly for a case; nothing that was asked failed, or an exception is raised |
| Workers.DeliveryWorker.Obtain | src/soc_integration/worker.py:99-125 | The same without the comment, exactly: the answer to the one request decides whether the handoff is completed, stays pending or is gone, and which exception is raised |
| Workers.DeliveryWorker.Trigger | src/soc_integration/worker.py:108-125 | One trigger, for every answer that is heard: a status of 400 or more releases the reservation; a timeout, a transport failure or an unreadable body keeps it; any other answer completes it with the execution named, if any |
| Workers.DeliveryWorker.Close | src/soc_integration/worker.py:132-166 | For rule 100102 with a case the trace has an approval afterwards, otherwise the approvals do not change; the row is completed with the whole result; the audit line decides whether that is reported, and else is left to be recorded as a failure |
| Workers.DeliveryWorker.Propose | src/soc_integration/worker.py:132-148 | Exactly for rule 100102, a case and a trace without an approval, one pending approval is added under a new identifier, for that case and the one allow-listed response; identities never change |
| Workers.DeliveryWorker.Conclude | src/soc_integration/worker.py:132-188 | The row ends as completed exactly if the audit line was written; otherwise its failure is recorded, and the result stays |
| Workers.DeliveryWorker.Handle | src/soc_integration/worker.py:79-171 | The pipeline, the handoff and the end of a claimed delivery, with at most one failure recorded, from wherever it was raised, the audit line after completion among them; a row ends as completed only if nothing that was asked failed |
| Workers.DeliveryWorker.RecordFailure | src/soc_integration/worker.py:167-188 | An exception is recorded as one failed attempt, whatever the status of the row: it has failed if the attempts are used up, and otherwise is retried after the backoff times 2^(attempts-1), with the first 200 characters of the error; exactly a lost audit line of that stops the worker |
| Progress.WorkIsARun | src/soc_integration/worker.py:76-185 | Taking only such steps means that a history of the protocol leads from the first state to the last |
| Gateways.Gateway.ReceiveAlert | src/soc_integration/app.py:436-479 | 422 exactly for keys outside 8 to 128 characters, 409 exactly for a known key with another alert, 202 otherwise; exactly a new key adds a row, queued, due at once, without attempts, its trace made of key and alert identifier; intake is the protocol's step |
| Gateways.Gateway.ReplayDelivery | src/soc_integration/app.py:383-391 | 200 exactly for a failed delivery, which is queued again without attempts or error; otherwise 409 and no change; handoffs stay |
| Gateways.Gateway.GetDelivery | src/soc_integration/app.py:369-381 | 404 exactly for an unknown key; otherwise what the row holds, field by field |
| Gateways.Gateway.ReconcileHandoff | src/soc_integration/app.py:397-434 | 422 exactly for bodies that validation refuses; 404 and 409 as key, status and handoff demand, and then no change; on 200 the delivery is queued again without attempts, a reported retry removes the handoff and a reported completion stores it with the execution of the body |
| Gateways.ShownForGood | src/soc_integration/app.py:369-381 | A key that is shown stays known with its alert and trace; of a completed delivery a result is shown, with the execution of its completed handoff, and nothing that is shown changes any more once the worker has let go of it |
| Adapters.NothingLost | docker/wazuh/integrations/soc_gateway_adapter.py:144-160 | In every interleaving of processes, deaths, lost, late and repeated requests, every alert for which `process` returned has its key in the spool or the queue |
| Adapters.AlertKept | docker/wazuh/integrations/soc_gateway_adapter.py:80-89 | Where the key determines the alert, it is that very alert that is kept |
| Adapters.CreatedExactlyOnce | src/soc_integration/deliveries.py:83-106 | Every queued key was answered as created exactly once, every other never |
| Adapters.RemovedAfterAcceptance | docker/wazuh/integrations/soc_gateway_adapter.py:122-141 | A file leaves the spool only by `unlink`, once its key is in the queue |
| Adapters.OverwrittenAlert | docker/wazuh/integrations/soc_gateway_adapter.py:109-119 | Any two forwarded alerts under one key: a history that handles both and keeps the first nowhere |
| Adapters.KeptExactly | docker/wazuh/integrations/soc_gateway_adapter.py:80-89 | All histories over a set of alerts keep every handled one if and only if no two forwarded alerts of the set have the same key |
| Spools.ConflictStaysExactly | docker/wazuh/integrations/soc_gateway_adapter.py:126-140 | A file that the gateway refuses as a conflict stays, while nothing is written under its key, exactly if no process is about to remove what was stored there before |
| Spools.ConflictReached | docker/wazuh/integrations/soc_gateway_adapter.py:150-160 | Such a file occurs whenever two forwarded alerts have the same key |
| Spools.StarvedExactly | docker/wazuh/integrations/soc_gateway_adapter.py:122-141 | While nothing is written under the keys of the stuck files before it, a file stays in the spool and is never tried if and only if there are as many of them as a process tries |
| Spools.StarvationReached | docker/wazuh/integrations/soc_gateway_adapter.py:109-141 | So many pairs of forwarded alerts, each pair under one key, and an alert with a later key: a history after which its file is starved |
| Spools.StarvationOccurs | docker/wazuh/integrations/soc_gateway_adapter.py:126 | Whatever the number of files that a process tries, there is a history after which a file is never tried |
| Spools.GivenUpExactly | docker/wazuh/integrations/soc_gateway_adapter.py:150-157 | After a permanent refusal of its own alert a process gives it up; over every continuation in which no process sends or stores it again the alert is kept nowhere, exactly if it was not kept already and either the gateway holds its key with another alert or the refused request was the only one for it under way |
| Spools.GivenUpReached | docker/wazuh/integrations/soc_gateway_adapter.py:150-157 | Any two forwarded alerts under one key: the second is refused as a conflict and lost |
| Spools.RefusedAtOnce | docker/wazuh/integrations/soc_gateway_adapter.py:150-157 | Every forwarded alert: refused as the first under its key, it leaves spool and queue empty and is lost |
| Spools.AwaitedIsSent | docker/wazuh/integrations/soc_gateway_adapter.py:92-106 | At least as many requests for an alert are under way as processes wait for their answer |
| Adapters.GatewayIsLawful | src/soc_integration/app.py:436-479 | What happens to the gateway within the whole system is a history of the protocol in which no two deliveries share a trace, so its theorems apply |
| Adapters.EndToEnd | docker/wazuh/integrations/soc_gateway_adapter.py:144-160 | A handled alert is kept, is created at most once, alone has its trace, and triggers at most one accepted execution beyond the retries allowed |
| Adapters.SaneStep | docker/wazuh/integrations/soc_gateway_adapter.py:122-160 | What every step of the composed system keeps |
| Adapters.KeyColonFree | docker/wazuh/integrations/soc_gateway_adapter.py:80-89 | The adapter's keys have no colon |
| Adapters.KeysAgreeExactly | docker/wazuh/integrations/soc_gateway_adapter.py:80-89 | Without a vertical bar in them, keys are equal if and only if identifier, time, agent and rule are: the data of the alert is not in the key |
| Adapters.DigestInjective | docker/wazuh/integrations/soc_gateway_adapter.py:89 | The stand-in for the digest determines what was digested |
| AdapterProcesses.WazuhAdapter.Process | docker/wazuh/integrations/soc_gateway_adapter.py:144-160 | One run takes steps of the system only; a record of another rule or group raises and sends nothing; otherwise the first files are sent in their order and removed exactly on a 202, then the alert itself is sent, and the code of its answer decides: delivered means queued, spooled means stored, and raised that nothing was kept |
| AdapterProcesses.WazuhAdapter.Flush | docker/wazuh/integrations/soc_gateway_adapter.py:122-141 | Sends the first files as they are stored, in their order, each once, and removes exactly those answered by a 202, which the queue then holds; conflicting files stay |
| AdapterProcesses.WazuhAdapter.FlushFile | docker/wazuh/integrations/soc_gateway_adapter.py:126-140 | One file is sent as it is stored and removed exactly on a 202 |
| AdapterProcesses.WazuhAdapter.SendOwn | docker/wazuh/integrations/soc_gateway_adapter.py:150-160 | Delivered exactly on a 202, raised exactly on a code in 400 to 499, and spooled exactly on any other code or without an answer |
| AdapterProcesses.WazuhAdapter.FirstFiles | docker/wazuh/integrations/soc_gateway_adapter.py:126 | The first names of the spool in order, up to the limit |
| AdapterProcesses.DoesIsLawful | docker/wazuh/integrations/soc_gateway_adapter.py:144-160 | What one run does continues any lawful history of the system |
| RetryingClient.Client.Request | src/soc_integration/integrations/base.py:46-122 | A request is repeated exactly after a timeout, a transport failure, 429, 502, 503 or 504, while attempts are left, and never when not retry-safe; the deciding attempt is returned exactly below 400, and raised as an authentication error for 401 and 403, an HTTP error with its code for any other status, a timeout or an unavailable service; `retry_exhausted` only for no attempts at all; each pause is what `Retry-After` asks for, between 0 and 5 seconds, or the backoff times the number of the attempt |
| RetryingClient.OneExchange | src/soc_integration/integrations/base.py:49-100 | What a server would answer determines which answers one call of the client gets |
| RetryingClient.PausesBounded | src/soc_integration/integrations/base.py:66-100 | Such pauses, after n-1 failed attempts, add up to at most 5(n-1) + backoff n(n-1)/2 seconds |
| Timestamps.TextOrderIsTimeOrder | src/soc_integration/deliveries.py:18-19 | For all microsecond instants the stored texts compare as the instants do, although the fraction is omitted at zero |
| Timestamps.IsoOrder | src/soc_integration/deliveries.py:18-19 | Printed timestamps compare as their calendar fields, since `+` sorts before `.` |
| Timestamps.IsoLayout | src/soc_integration/deliveries.py:18-19 | The digits and separators of a printed timestamp, position by position: 25 characters without microseconds, otherwise 32, ending in +00:00 |
| Timestamps.Gregorian | src/soc_integration/deliveries.py:18-19 | Lengths of months and years, leap years, and the days before 1970, as in the Gregorian calendar |
| Enrichment.ExtractIndicators | src/soc_integration/enrichment.py:70-79 | Exactly the well-formed indicators that the document offers, each once, ordered by kind and then by value: at any depth, a string under a key that names a kind, stripped, and in lower case for domains and hashes |
| Enrichment.ListInvalidCandidates | src/soc_integration/enrichment.py:82-96 | Exactly the non-empty texts so offered that are not well formed, each once, ordered by kind, key and value |
| Enrichment.IndicatorsCanonical | src/soc_integration/enrichment.py:70-79 | The extraction is strictly sorted and holds exactly the valid normalised candidates that occur at any depth |
| Enrichment.InvalidCandidatesCanonical | src/soc_integration/enrichment.py:82-96 | The invalid candidates are strictly sorted and are exactly the non-empty ones that fail validation |
| Enrichment.CandidatesPartition | src/soc_integration/enrichment.py:70-96 | Whatever non-empty value a string under a naming key comes to is in exactly one of the two results |
| Enrichment.ReadingExactly | src/soc_integration/enrichment.py:55-79 | A member is read as an indicator exactly if its key names the kind, in whatever case, and its text comes to the value |
| Text.StripExactly | src/soc_integration/enrichment.py:70-79 | Stripping is the one way to take blanks off both ends so that the rest neither begins nor ends with one |
| Text.LowerExactly | src/soc_integration/enrichment.py:70-79 | Lower case changes exactly the 26 capital letters, each to its own |
| Text.LessExactly | src/soc_integration/enrichment.py:70-79 | Texts are ordered by the first character in which they differ, a beginning before what continues it |
| Enrichment.ExtractionInvariant | src/soc_integration/enrichment.py:45-52 | Key order, item order and repetition at any depth do not change the extraction |
| Enrichment.NestingInvariant | src/soc_integration/enrichment.py:45-52 | Nor does wrapping a container in a list or an object |
| Alerts.FingerprintInvariant | src/soc_integration/incidents.py:25-34 | Nor do they change the fingerprint |
| Alerts.FingerprintTells | src/soc_integration/incidents.py:25-34 | Without a vertical bar in hour, rule and agent, equal fingerprints mean equal hours, rules, agents and joined indicator labels |
| Alerts.FingerprintExactly | src/soc_integration/incidents.py:25-34 | If the indicators have none either, fingerprints are equal if and only if hour, rule, agent and the well-formed indicators on offer are the same |
| Alerts.FingerprintCollision | src/soc_integration/incidents.py:25-34 | What follows a vertical bar in the rule may as well precede one in the agent, under the same fingerprint |
| Alerts.FingerprintDetermines | src/soc_integration/incidents.py:25-34 | No alert of another rule or agent has the fingerprint of this one if and only if its rule and agent have no vertical bar and it offers no well-formed indicators |
| Alerts.ScenarioExactly | src/soc_integration/worker.py:20-31 | Rule 100100 is a login and 100102 account activity, whatever the data is; otherwise a hash comes before a domain, and either may be a member's name in any case or stand anywhere in the printed data |
| Alerts.TracesShared | src/soc_integration/app.py:451-453 | Two keys can have alerts of one trace if and only if they are equal or one is the other followed by a colon and more |
| Alerts.TraceCollision | src/soc_integration/app.py:451-453 | Two keys of a length that intake accepts, with alerts of one trace |
| MetricLabels.EscapeIsOnePass | src/soc_integration/metrics.py:42-48 | The three passes of escaping amount to one character map |
| MetricLabels.OrderMatters | src/soc_integration/metrics.py:42-48 | In another order they do not |
| MetricLabels.EscapeRoundTrip | src/soc_integration/metrics.py:42-48 | Escaping has a left inverse |
| MetricLabels.LabelsRoundTrip | src/soc_integration/metrics.py:51-54 | Every printed label set reads back as it was |
| MetricLabels.SeriesDistinct | src/soc_integration/metrics.py:85-101 | Name and printed labels at the head of a sample line tell the series apart |
| MetricLabels.LabelsOnOneLine | src/soc_integration/metrics.py:51-54 | A printed label set contains no line feed |
| MetricLabels.Labels | src/soc_integration/metrics.py:35-39 | The items by ascending name, or an error exactly when a name is not a letter, an underscore or a colon followed by such and digits |
| MetricLabels.NamedExactly | src/soc_integration/metrics.py:32-39 | The check of a name accepts exactly such names |
| MetricLabels.NormalFormUnique | src/soc_integration/metrics.py:35-39 | A label mapping always names the same series |

## Left out

- HTTP transport, FastAPI wiring, authentication, TLS and pydantic parsing, the length limits of
  most fields among it; the limits of idempotency keys and of reconciliations are modelled.
- SQLite's own failures, WAL mode, file renames and JSON serialisation: each transaction and each
  rename is one atomic step.
- The validity of an indicator (`_valid`) is an arbitrary set; case folding covers the ASCII
  letters, stripping the ASCII white space.
- Several workers at once: the service starts one, and the unguarded updates are not meant for more.
- The contents of case comments, audit lines, log output and case payloads; the score, the summary
  and the enrichment records inside a result.
- Audit lines that fail at the endpoints, which then answer 500 after their step.
- `MetricsRegistry`: its three update methods and the assembly and number formatting of `render`.
- `scoring.py`, `triage.py`, `diagnostics.py`, `reporting.py`, `observability.py`, `health.py`,
  `idempotency.py`: a few branches or sums each, or superseded by the delivery store.
- The class names recorded for exceptions of MISP, TheHive and Shuffle other than integration
  errors and unreadable create and trigger replies.
- Rounding of times from floating point, and `_utc` falling back to the current time for zero; a
  `Retry-After` that is not a number in the sense of the client's parser but NaN.
- Interleaving inside the methods of `Workers.DeliveryWorker`: intake, operators, crashes and late
  effects of earlier requests act between any two steps of the protocol, over which the properties
  are proved, while the methods show the worker's own steps in sequence, with time passing at the
  start and before the last one.
- The 64-character length of the adapter's digest, and its configuration file.
