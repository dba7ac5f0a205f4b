# lurus-platform: a verified model of its protocols

This project models the hard parts of the platform core: the QR session protocol,
the account deletion pipeline, the money and subscription state machines, billing
dates, check-in streaks and the hook retry engine. `dafny verify dfyconfig.toml`
checks all of it.

Two forms are used side by side.

- **Machines.** Where the source relies on a shared store (Redis scripts, conditional
  UPDATEs, partial unique indexes) and many callers, the model is a transition system:
  a `State`, a `Step` for every store statement, external call or
  passage of time, `Next`, and `Run` over any sequence of steps. An inductive invariant
  is proved for every step, and the theorems hold in every reachable state. A thread
  that is never scheduled again has crashed. `WriteFault` lets every write fail before
  or after it took effect.
- **Classes.** Where the source is a method over fields or a loop, the model is a class
  or a method with the same branches, specified by a function whose own properties are
  proved. The classes of handlers take interference from outside, or are tied to the
  machine of the same component.

| files | models |
|---|---|
| QrScripts, QrProtocol, QrProtocolProofs, QrTheorems, QrHistory, QrPoller, QrPayload | QR sessions v2 and v1, the poll handlers, payload signing |
| DeleteRequests, DeleteRequestProofs, DeleteRequestTheorems, DeleteRequestHistory, PurgeWorker, SelfDelete | deletion requests, purge workers, the self-service call |
| AccountPurge, PurgeAudit | one purge with its cascade; many purges over the audit table |
| TopupOrder, Reconciliation, ReconciliationWorker, Ranking | one order under concurrency; the books and the reconciliation tick |
| Refunds | one refund under concurrent approvals and rejections, and the service |
| Subscriptions, SubscriptionRace, SubscriptionCalls, Entitlements, BillingDates, Calendar | lifecycle, alone and under interleaved calls; entitlement rows and cache; expiry dates |
| IsoDates, Checkin, CheckinService, CheckinRace | streaks, rewards, racing check-ins |
| HookRegistry, HookFailures | retries with backoff and the dead-letter table |

Money is an integer number of fen (rewards are exact rationals), QR times are
milliseconds, other times seconds, HMAC is an uninterpreted function, and provider
answers, cancellations, jitter and failures are parameters.

## Where the code and its comments differ

The model follows the code.

- A poller that reads on its own can report a delegate operation as confirmed while it
  is still running (`EarlyReport`): exactly the pollers that were not yet blocked on the
  channel at the confirm can (`EarlyReportIff`).
- The confirm script preserves the TTL except when the remaining time rounds to 0
  (`ConfirmKeepsWindowIff`).
- FinishPurge flips the account first and the audit row second, and a row whose final
  write is lost blocks its account for good (`AbandonedRowBlocks`).
- Account rows are saved whole, by profile edits and on every login. One that was read
  before a purge and is saved after it makes the account active again under a completed
  audit row (`CompletedButAlive`, `CompletedMeansDeletedIff`).
- The cron adapter passes caller 0, which BeginPurge refuses (`ExecuteDelegate`).
- The cascade leaves trial subscriptions alone, and only those; it cannot empty a wallet
  that is partly frozen or was debited by an earlier purge attempt (`ExecuteDelegate`,
  `NothingFailsIff`).
- MarkPaymentOrderPaid is an UPDATE and a separate SELECT; when the SELECT fails the
  order stays paid and uncredited. A checkout handler's full-row save can reopen an
  order (`LateSaveReopens`); the unique ledger reference still bounds the credit.
- A tick expires overdue orders before it asks the providers, so a payment confirmed
  too late is not recovered (`TickVerdict`).
- A refund whose credit failed stays approved: the retry event offered to the outbox
  has no consumer here (`StuckForGood`).
- A dead letter's attempts are the policy's even when a cancellation came first
  (`LetterCountsIff`), and the default policy sleeps twice, not three times
  (`DefaultSleeps`).
- A cached entitlement answer outlives a row that lapses (`GetIsRefreshIff`), a failed
  Activate can leave no live subscription (`ActivateReplaces`), and a lost reply in
  EndGrace leaves the entitlements of an expired subscription in place (`EndGrace`).
- Subscription rows are saved whole too: interleaved calls can bring a cancelled
  subscription back (`CancelledComesBack`) and reset a renewed one (`RenewalIsReset`).

## Model

| member | source | states |
|---|---|---|
| `QrScripts.SessionKey.TryConfirm` | internal/adapter/handler/qr_handler.go:1684-1698 | the confirm script wins exactly on a live pending key; it stores the account and keeps the remaining TTL, rounded as the TTL command rounds it, or starts 300 s when that is 0; otherwise nothing changes |
| `QrScripts.SessionKey.TryConsume` | internal/adapter/handler/qr_handler.go:1710-1718 | the consume script wins exactly on a live confirmed key, keeps the account and leaves 60 s; otherwise nothing changes |
| `QrProtocolProofs.StepKeepsInv` | internal/adapter/handler/qr_handler.go:774-982 | one inductive invariant of session, pollers, confirmers, mailboxes, slots and log is kept by every step of every thread, v1 and v2 |
| `QrTheorems.OneWinnerOneToken` | internal/adapter/handler/qr_handler.go:957-982 | over every interleaving at most one confirm and one consume succeed, consume only after confirm, at most one login token, for the winning confirmer's account |
| `QrTheorems.ExactlyOneResponse` | internal/adapter/handler/qr_handler.go:818-871 | a poller that has returned wrote exactly one response and one that has not wrote none, although the wake-up branch ignores writePollResult's verdict |
| `QrTheorems.GrantIsTheWinners` | internal/adapter/handler/qr_handler.go:877-926 | the token or the confirmed report goes to one poller only and names the winning confirmer, though the account comes from a snapshot older than the consume script |
| `QrTheorems.ConfirmAnswers` | internal/adapter/handler/qr_handler.go:1164-1249 | a confirm request is answered at most once, and only the script's winner is told it was accepted |
| `QrHistory.OnlySignedRequestsConfirm` | internal/adapter/handler/qr_handler.go:1145-1169 | on every v2 run a confirm none of whose reads found a matching signature never wins, runs no side effect and ends, if at all, in an error of loading, key or signature |
| `QrHistory.UnsignedRequestsChangeNothing` | internal/adapter/handler/qr_handler.go:1145-1169 | no step of such a request touches the session, a poller, a slot or the log |
| `QrHistory.MismatchIsRefused` | internal/adapter/handler/qr_handler.go:1145-1169 | on a live v2 session, whatever its status, a mismatch is answered as an invalid signature and nothing else changes |
| `QrTheorems.CasWinsIff` | internal/adapter/handler/qr_handler.go:1700-1706 | over any history, a confirm script that takes effect on a live key wins exactly when no script has won before, whichever thread runs it |
| `QrTheorems.WinIsFinal` | internal/adapter/handler/qr_handler.go:1684-1706 | no continuation of a won session adds a win or changes the account it granted |
| `QrTheorems.NoLostWakeup` | internal/adapter/handler/qr_handler.go:831-863 | once a confirm has been published, every poller blocked on its subscription has a message: read, subscribe, read, wait leaves no gap |
| `QrTheorems.WokenPollerIsAnswered` | internal/adapter/handler/qr_handler.go:851-863 | that poller's own next steps end in exactly one definite response, at any later time |
| `QrTheorems.ConfirmWins` | internal/adapter/handler/qr_handler.go:1164-1200 | a new confirmer left alone with a live pending session wins, with exactly the state change of the script |
| `QrTheorems.WinnerFinishes` | internal/adapter/handler/qr_handler.go:1202-1249 | a winner left alone runs its side effect if the action has one, then publishes to every subscription, then answers |
| `QrTheorems.PollerGetsToWait` | internal/adapter/handler/qr_handler.go:783-850 | a new poller left alone with a pending session takes a slot, subscribes and blocks, changing nothing else |
| `QrTheorems.EffectAtMostOnce` | internal/adapter/handler/qr_handler.go:1254-1330 | AddMember or ExecuteDelegate is called at most once over all runs, for the winner's account, never for a login |
| `QrHistory.AnswersHaveCauses` | internal/adapter/handler/qr_handler.go:1202-1330 | an organisation or delegate confirm is accepted only after its checks passed and its side effect succeeded, failed only after it failed, refused only by those checks; and the side effect is called only past them |
| `QrHistory.PollAnswersHaveCauses` | internal/adapter/handler/qr_handler.go:877-982 | a read error, a pending answer, a failed consume, a failed token and a token each have the step that causes them on the run |
| `QrTheorems.SettledIff` | internal/adapter/handler/qr_handler.go:1202-1233 | no continuation can start or finish a side effect exactly when the winner is past it or has none |
| `QrTheorems.BlockedPollerReportsAfterEffect` | internal/adapter/handler/qr_handler.go:1202-1233 | a poller blocked on the channel when the script won reports confirmed only after the side effect has returned for good |
| `QrTheorems.EarlyReport` | internal/adapter/handler/qr_handler.go:1202-1210 | a concrete reachable state in which a newly arrived poller reports confirmed while ExecuteDelegate still runs, contrary to the comment |
| `QrTheorems.EarlyReportIff` | internal/adapter/handler/qr_handler.go:818-871 | in every reachable, live, confirmed state whose side effect is not over, an unfinished poller can get to a confirmed report by its own steps, the side effect still not over, exactly when it was not blocked on the channel at the confirm |
| `QrTheorems.LifetimeBounds` | internal/adapter/handler/qr_handler.go:1684-1718 | a confirm wins only within 300 s of creation and the record is gone 660 s after it, for every TTL reply |
| `QrTheorems.ConfirmKeepsWindowIff` | internal/adapter/handler/qr_handler.go:1681-1697 | the confirm keeps the remaining window, to within a second either way, exactly when TTL replied with a positive number; a zero reply starts 300 s anew |
| `QrTheorems.SlotsAreConserved` | internal/adapter/handler/qr_handler.go:783-816 | each unfinished v2 poller holds one slot, a finished one none, and the semaphore's capacity is never exceeded |
| `QrTheorems.RunRefines` | internal/adapter/handler/qr_login_handler.go:83-303 | every run of v1 and of v2, step by step, is a run of one abstract machine: open, granted to one account, redeemed once, gone |
| `QrPoller.OthersAreEnv` | internal/adapter/handler/qr_handler.go:818-871 | whatever step another thread of the protocol takes is, for one poller, one of the interferences the handler's proof allows |
| `QrPoller.EnvIsRely` | internal/adapter/handler/qr_handler.go:818-871 | any number of interferences keep what the handler relies on: status only moves forward, a message implies the session left pending |
| `QrPoller.PollHandler.WritePollResult` | internal/adapter/handler/qr_handler.go:877-926 | writes one justified response unless the session it was given is pending; when its own consume script has won, that is the grant, or the reported fault or the token that could not be signed; session_consumed only if it has not won; the script wins exactly when it takes effect on a session still live and confirmed |
| `QrPoller.PollHandler.PollingLoop` | internal/adapter/handler/qr_login_handler.go:83-175 | the one-second loop (v1, and v2 as fallback) writes exactly one response under arbitrary interference between any two store calls, justified when written; it is the grant exactly when its own script has won without a fault, as it must win on a session still redeemable at its first read and script |
| `QrPoller.PollHandler.PollStatus` | internal/adapter/handler/qr_handler.go:774-871 | the v2 handler writes exactly one justified response under arbitrary interference and gives its slot back; it is the grant exactly when its own script has won without a fault, as it must win when the session is redeemable, or becomes so while it waits, and nobody else takes it |
| `QrPoller.PollHandler.PollSubscribed` | internal/adapter/handler/qr_handler.go:823-850 | past the subscription: a session confirmed before the second read, or during the wait, is granted by this poller unless another takes it |
| `QrPoller.PollHandler.AwaitMessage` | internal/adapter/handler/qr_handler.go:851-871 | the select over message, deadline and cancellation: one justified response, the grant exactly when its own script has won without a fault |
| `QrPayload.DecimalRoundTrip` | internal/adapter/handler/qr_handler.go:1627-1639 | formatting a timestamp in decimal loses nothing |
| `QrPayload.MessageIsInjective` | internal/adapter/handler/qr_handler.go:1627-1639 | for hex ids and NUL-free actions the signed message determines id, action and timestamp |
| `QrPayload.NeverALegacyMessage` | internal/adapter/handler/qr_handler.go:1643-1656 | a message of this format is never one of the legacy format |
| `QrPayload.WindowIff` | internal/adapter/handler/qr_handler.go:1595-1606 | for every int64 t and now, the freshness check accepts exactly t-30 s to t+330 s and the listed overflow cases |
| `QrPayload.OneWrappingTimestamp` | internal/adapter/handler/qr_handler.go:1595-1606 | for a clock after 1970 the check accepts the window and, beside it, the one timestamp 2^63 seconds back |
| `QrPayload.CurrentIsGreatest` | internal/adapter/handler/qr_handler.go:134-159 | current() of a sorted ring is the key with the greatest kid |
| `QrPayload.AddedKeySignsIff` | internal/adapter/handler/qr_handler.go:119-159 | a key added to the ring becomes the signer exactly when its kid is the greatest |
| `QrPayload.VerifyPayloadSig` | internal/adapter/handler/qr_handler.go:1595-1620 | the loop without early exit accepts exactly in the window and for a tag that is the first 24 characters of the MAC, under some key of the ring, of 0x01, the id, NUL, the action, NUL and the decimal timestamp |
| `QrPayload.TagBindsThePayload` | internal/adapter/handler/qr_handler.go:1595-1639 | for a MAC whose 24-character prefixes tell the signed texts apart, a tag accepted for two payloads under one secret is for the same session, action and timestamp |
| `QrPayload.VerifyPayloadSigLegacy` | internal/adapter/handler/qr_handler.go:1643-1656 | the legacy loop accepts exactly the first 16 characters of the MAC of id, NUL and action under some key of the ring |
| `QrPayload.RotationKeepsPayloads` | internal/adapter/handler/qr_handler.go:119-159 | a payload signed by current() verifies, within its window, under every ring that still holds its secret |
| `QrPayload.GenerationsDoNotMix` | internal/adapter/handler/qr_handler.go:1595-1656 | no text is accepted both as a current and as a legacy tag, because their lengths differ |
| `SelfDelete.AccountDeleteRequestService.RequestSelfDelete` | internal/app/account_delete_request_service.go:100-187 | with any statements of other callers before its insert and its second lookup: the answer and the rows as an exact function of the account, the guards, the pending row at each of the three statements and their failures |
| `SelfDelete.AccountDeleteRequestService.SubscriptionsBlock` | internal/app/account_delete_request_service.go:138-148 | the guard loop blocks exactly on an active or grace subscription |
| `PurgeWorker.DeleteRequestTable.Create` | internal/adapter/repo/account_delete_request.go:42-56 | inserts one pending row, or fails exactly when the account has one |
| `PurgeWorker.DeleteRequestTable.GetPending` | internal/adapter/repo/account_delete_request.go:62-74 | finds the account's pending row |
| `PurgeWorker.DeleteRequestTable.UpdateStatus` | internal/adapter/repo/account_delete_request.go:81-175 | a conditional status update moves the one row if it is in the expected status and touches nothing else |
| `PurgeWorker.DeleteRequestTable.ClaimExpiredPending` | internal/adapter/repo/account_delete_request.go:110-143 | claims distinct eligible rows, earliest cooling-off first, all of them if they fit the limit, and moves exactly those to processing |
| `PurgeWorker.PurgeWorker.ProcessRow` | internal/app/account_purge_worker.go:203-247 | one cascade, then completed if it succeeded and expired if not, unless the mark takes no effect, then the event only when both succeeded |
| `PurgeWorker.PurgeWorker.ProcessBatch` | internal/app/account_purge_worker.go:184-199 | every claimed row is processed on its own, in order; a failing one does not stop the batch; no other row changes |
| `PurgeWorker.PurgeWorker.Tick` | internal/app/account_purge_worker.go:184-199 | one pass claims a batch of eligible rows and settles exactly those: completed and announced, or expired and silent, by how the cascade of each ended |
| `PurgeWorker.BatchEventsMean` | internal/app/account_purge_worker.go:184-262 | in those effects each claimed row's cascade occurs once, no other's, and its event exactly when cascade and bookkeeping succeeded |
| `DeleteRequestProofs.StepKeepsInv` | internal/adapter/repo/account_delete_request.go:42-175 | the invariant of rows, request calls and worker queues is kept by every statement, call and crash |
| `DeleteRequestTheorems.ClaimedOnceAfterCoolingOff` | internal/adapter/repo/account_delete_request.go:110-143 | across any number of replicas a row is claimed at most once, never before its cooling-off ended, and its cascade runs at most once |
| `DeleteRequestTheorems.LifecycleOfARow` | internal/adapter/repo/account_delete_request.go:81-175 | a row's statuses are a prefix of pending, processing, completed or expired, or of pending, cancelled |
| `DeleteRequestTheorems.RowsPersist` | internal/adapter/repo/account_delete_request.go:81-175 | no run deletes a row or rewrites its history |
| `DeleteRequestTheorems.EmittedOnceWhileCompleted` | internal/app/account_purge_worker.go:203-262 | the account-deleted event is attempted at most once per row, only while it is completed, and it stays completed |
| `DeleteRequestTheorems.AtMostOnePending` | internal/adapter/repo/account_delete_request.go:28-56 | an account never has two pending requests |
| `DeleteRequestTheorems.OneCreator` | internal/app/account_delete_request_service.go:153-187 | exactly the inserting call reports a non-idempotent creation, unless its INSERT's reply was lost |
| `DeleteRequestTheorems.ReturnedIdWasPending` | internal/app/account_delete_request_service.go:120-187 | every id a call returns is of a request of its account that was pending at some moment during that call |
| `DeleteRequestTheorems.PendingIsReturned` | internal/app/account_delete_request_service.go:120-180 | while a request is pending, a call that is not refused returns that one, from either lookup |
| `DeleteRequestHistory.OnlyAllowedRequestsAreMade` | internal/app/account_delete_request_service.go:100-187 | on every run a row stands for a call that found its account, saw no pending request and was allowed by the subscription guard; a call reports success only after those steps |
| `DeleteRequestHistory.RequestAlone` | internal/app/account_delete_request_service.go:100-187 | a call left alone answers the pending row, or makes exactly one row due 30 days later when the account may go, or changes nothing |
| `DeleteRequestHistory.LateRequestAlone` | internal/app/account_delete_request_service.go:153-187 | a call whose insert finds another row pending makes none and answers that one, or that one is pending when it cannot be read |
| `DeleteRequestHistory.CancelStopsPending` | internal/adapter/repo/account_delete_request.go:81-108 | a cancelled request stays cancelled and is never claimed or run, on every continuation |
| `DeleteRequestHistory.ClaimTakes` | internal/adapter/repo/account_delete_request.go:110-143 | a claim moves exactly its rows to processing and queues them, or leaves them to no worker when its reply is lost |
| `DeleteRequestTheorems.FrontRowIsSettled` | internal/app/account_purge_worker.go:203-247 | a worker left alone takes its front row to completed or expired after one cascade, or leaves it processing when the mark takes no effect |
| `DeleteRequestTheorems.FrontRowIsAnnounced` | internal/app/account_purge_worker.go:228-297 | and announces a completed one, then goes on with the next row |
| `AccountPurge.CancelsMean` | internal/adapter/handler/account_delete_executor.go:218-229 | the cancellations attempted are those of the active and grace subscriptions |
| `AccountPurge.NothingFailsIff` | internal/adapter/handler/account_delete_executor.go:201-255 | the three steps record no failure exactly when the lists and balance can be read, every active or grace subscription can be cancelled, the balance is not positive or can be debited, and the identity user can be deactivated |
| `AccountPurge.Account.CancelSubscription` | internal/app/subscription_service.go:127-141 | ends the live subscription of the product, and fails when there is none |
| `AccountPurge.Account.CancelSubscriptions` | internal/adapter/handler/account_delete_executor.go:213-229 | attempts every active or grace subscription whatever fails; which attempts fail and which subscriptions end, exactly; a trial is not touched |
| `AccountPurge.Account.DebitAll` | internal/adapter/repo/wallet.go:80-124 | the debit of the whole balance is refused while any of it is frozen or once a purge debit is on the ledger |
| `AccountPurge.Account.ZeroWallet` | internal/adapter/handler/account_delete_executor.go:233-242 | when the balance is debited and when a failure is recorded, exactly |
| `AccountPurge.Account.DisableIdentity` | internal/adapter/handler/account_delete_executor.go:246-253 | when the identity user is deactivated and when a failure is recorded, exactly |
| `AccountPurge.Account.RunCascade` | internal/adapter/handler/account_delete_executor.go:191-255 | returns nil exactly when every call goes through, in terms of stores, subscriptions and wallet, else the first failure; the attempts, failures and outcome of each domain do not depend on the others |
| `AccountPurge.Account.BeginPurge` | internal/app/account_service.go:261-286 | opens one audit row exactly for a positive initiator and an account that is found, not deleted and not in flight, when the insert works; the other answers, exactly |
| `AccountPurge.Account.FinishPurge` | internal/app/account_service.go:312-346 | success, account status and row status as an exact function of the outcome and the store; a completed row implies a deleted account |
| `AccountPurge.Account.ExecuteDelegate` | internal/adapter/handler/account_delete_executor.go:113-183 | returns nil exactly for the right operation and target, a caller with a positive id, an account that is found, and either deleted already or purged now with every call going through; the account is flipped exactly after a cascade that went through; the new audit row is completed, failed or still in flight, exactly; what is wiped, and when a live subscription is left |
| `PurgeAudit.StepKeepsInv` | internal/app/account_service.go:261-346 | the invariant of audit rows, account statuses and executors is kept by every step |
| `PurgeAudit.CompletedMeansDeletedIff` | internal/adapter/repo/account.go:24-26 | over every run, with profile edits and logins saving whole account rows beside it, the account under a completed audit row or after an executor's success is deleted exactly when no save of an older row has revived it since its flip |
| `PurgeAudit.CascadeComesFirst` | internal/adapter/handler/account_delete_executor.go:146-170 | on every run a row is completed, and an account flipped by an executor, only after the cascade of that row has succeeded |
| `PurgeAudit.OpenedAlone` | internal/app/account_service.go:261-286 | an executor left alone opens one row, or returns, exactly as caller, lookup, account status, rows in flight and insert decide |
| `PurgeAudit.SettledAlone` | internal/app/account_service.go:312-346 | past that it flips the account, marks the row and reports success exactly as cascade, lookup, save and mark went |
| `PurgeAudit.RevivedIff` | internal/adapter/handler/account.go:56-90 | an account is revived exactly by a save whose row was read before the flip and lands after it, until a purge or a later save undoes it |
| `PurgeAudit.NoEditsNoRevival` | internal/app/account_service.go:312-346 | runs without such saves revive nothing, so there completed means deleted |
| `PurgeAudit.CompletedButAlive` | internal/adapter/handler/account.go:56-90 | a concrete run: a profile edit read before the purge and saved after it leaves a live account under a completed audit row |
| `PurgeAudit.OnePurgeAtATime` | internal/adapter/repo/account_purge.go:30-46 | at most one row in flight and one executor past BeginPurge per account |
| `PurgeAudit.LeftInFlightIff` | internal/adapter/handler/account_delete_executor.go:146-170 | with all executors back, a row is still in flight exactly when its insert's reply was lost or its final mark took no effect |
| `PurgeAudit.AbandonedRowBlocks` | internal/adapter/repo/account_purge.go:30-46 | such a row never moves again and blocks every later purge of its account |
| `TopupOrder.CreditedAtMostOnce` | internal/app/wallet_service.go:418-442 | however deliveries, recoveries, expiry and the checkout save interleave, a top-up order is credited at most once, for its own account and amount, and no other order ever is |
| `TopupOrder.LifecycleIff` | internal/adapter/handler/internal_api.go:474-490 | the order keeps to pending then paid, or pending then expired, exactly as long as every full-row save of a checkout request, repeated ones included, found it pending |
| `TopupOrder.PaidUncreditedIff` | internal/app/reconciliation_worker.go:112-145 | without such a save, a credited order is paid, and the paid top-ups without credit are exactly those whose one winner is still between its steps or gave up at an error before its credit took effect |
| `TopupOrder.PaymentAlone` | internal/app/wallet_service.go:418-442 | a delivery left alone with a pending order: status, ledger, answer and first error, for every failure of its three statements |
| `TopupOrder.RedeliveryChangesNothing` | internal/app/wallet_service.go:418-442 | a delivery left alone with a paid or expired order moves neither status nor ledger, and succeeds when its statements work |
| `TopupOrder.LateSaveReopens` | internal/adapter/handler/wallet.go:161-163 | a concrete run in which the save reopens a credited order, which then expires |
| `TopupOrder.StepKeepsInv` | internal/adapter/repo/wallet.go:210-229 | the invariant behind the order theorems is kept by every step |
| `ReconciliationWorker.Wallets.MarkPaymentOrderPaid` | internal/adapter/repo/wallet.go:210-229 | flips a pending order, then re-reads it; the flip stays when the re-read fails |
| `ReconciliationWorker.Wallets.Credit` | internal/adapter/repo/wallet.go:41-76 | credits wallet and ledger together or neither; refuses a reference already on the ledger |
| `ReconciliationWorker.Wallets.MarkOrderPaid` | internal/app/wallet_service.go:418-442 | flip, re-read, and a credit only by the call that flipped a top-up |
| `ReconciliationWorker.Wallets.ExpireStalePendingOrders` | internal/adapter/repo/wallet.go:295-304 | exactly the overdue pending orders become expired |
| `ReconciliationWorker.Wallets.FindStalePendingOrders` | internal/adapter/repo/wallet.go:541-550 | the fifty oldest pending orders older than ten minutes, by creation |
| `ReconciliationWorker.Wallets.FindPaidTopupOrdersWithoutCredit` | internal/adapter/repo/wallet.go:519-535 | of exactly the paid top-ups without ledger entry, the hundred paid last |
| `ReconciliationWorker.Wallets.CreateReconciliationIssue` | internal/adapter/repo/wallet.go:554-563 | files the issue unless one of its type is open for the order; a failed count suppresses nothing |
| `ReconciliationWorker.Wallets.CheckPaidOrdersIntegrity` | internal/app/reconciliation_worker.go:112-145 | one issue and one alert per orphan, nothing else |
| `ReconciliationWorker.Wallets.VerifyStalePendingOrders` | internal/app/reconciliation_worker.go:151-240 | the loop over stale orders, with its continue branches and its counter, computes RecoverAll |
| `ReconciliationWorker.Wallets.Tick` | internal/app/reconciliation_worker.go:86-108 | a tick is expiry, then integrity check, then verification |
| `Reconciliation.SuccessSettles` | internal/app/wallet_service.go:418-442 | on a pending order MarkOrderPaid succeeds exactly when each of its calls does, and then the order is paid and, if a top-up, credited |
| `Reconciliation.SettledOrdersAreLeft` | internal/app/wallet_service.go:418-442 | on an order no longer pending MarkOrderPaid changes nothing and succeeds exactly when its statements do |
| `Reconciliation.RecoverAllKeepsBooks` | internal/app/reconciliation_worker.go:151-240 | a whole verification pass, whatever fails, keeps every entry honest, every order's identity, and each wallet's balance minus its credits |
| `Reconciliation.EveryConfirmedOrderIsSettled` | internal/app/reconciliation_worker.go:171-233 | order by order: a listed order its provider confirms is paid, credited and alerted exactly as its calls went; every other order is left alone |
| `Reconciliation.EveryDeservedIssueIsFiled` | internal/app/reconciliation_worker.go:171-233 | an order has an open missed-webhook issue after the pass exactly if it had one, or its confirmed recovery failed and the insert worked; an amount mismatch likewise, for a recovered order whose positive provider amount differs |
| `Reconciliation.RecoveredAreCounted` | internal/app/reconciliation_worker.go:167-240 | the counter of the pass is the number of confirmed orders whose recovery went through |
| `Reconciliation.OrphansAreReported` | internal/app/reconciliation_worker.go:112-145 | every orphan found has an open issue afterwards unless its insert failed |
| `Reconciliation.ReportingAgainAddsNothing` | internal/adapter/repo/wallet.go:554-563 | a second report of orphans already filed adds no issue while the counts work |
| `Reconciliation.TickKeepsBooks` | internal/app/reconciliation_worker.go:86-108 | a tick conserves money and honesty whatever fails |
| `Reconciliation.TickVerdict` | internal/app/reconciliation_worker.go:86-108 | what a tick does to a pending order: overdue means expired and uncredited even if the provider would confirm it; otherwise paid exactly when it is on the stale list and confirmed |
| `Reconciliation.StaleListIsTheOldest` | internal/adapter/repo/wallet.go:541-550 | the stale list is full before a stale order is left out, and then holds none that is younger |
| `Reconciliation.OrphanListIsTheNewest` | internal/adapter/repo/wallet.go:519-535 | the orphan list is full before an orphan is left out, and then holds none that was paid earlier |
| `Ranking.ForemostAreIn` | internal/adapter/repo/wallet.go:541-550 | ORDER BY with LIMIT leaves out no row that precedes one it keeps |
| `Ranking.OrderByIs` | internal/adapter/repo/wallet.go:541-550 | ORDER BY sorts and keeps every row as often |
| `Refunds.StepKeepsInv` | internal/app/refund_service.go:138-253 | the invariant of refund, ledger and calls is kept by every step of every Approve and Reject |
| `Refunds.RefundedAtMostOnce` | internal/app/refund_service.go:138-253 | the credit happens at most once, for exactly the amount, never on a pending or rejected refund, always on a completed one |
| `Refunds.OneDecision` | internal/app/refund_service.go:138-253 | at most one call succeeds; a successful Approve leaves the refund completed and credited, a successful Reject rejected |
| `Refunds.StuckIff` | internal/app/refund_service.go:159-203 | with all calls back, a refund is stuck in approved exactly after a lost approval reply, a failed credit or a completion without effect, and the customer has the money exactly in the last case or when the failed credit took effect all the same |
| `Refunds.StuckForGood` | internal/app/refund_service.go:138-152 | a decided refund that no winner is still working on never moves and is never credited again |
| `Refunds.ApprovalIsASchedule` | internal/app/refund_service.go:138-222 | an uninterrupted Approve, whatever fails, is one schedule of the concurrent machine |
| `Refunds.RejectIsASchedule` | internal/app/refund_service.go:228-253 | an uninterrupted Reject rejects a pending refund exactly when its update takes effect, succeeds exactly when nothing failed, and never touches ledger or retries |
| `Refunds.RefundService.UpdateStatus` | internal/adapter/repo/refund.go:57-74 | a conditional update that errs when it matches no row |
| `Refunds.RefundService.Approve` | internal/app/refund_service.go:138-222 | the method as written does what the machine's five steps do |
| `Refunds.RefundService.Reject` | internal/app/refund_service.go:228-253 | rejects exactly a pending refund whose update takes effect; nothing else moves |
| `Subscriptions.OneLiveOnEveryRun` | internal/app/subscription_service.go:30-141 | on every run of service calls, whatever store calls fail, at most one subscription per account and product is live |
| `Subscriptions.AtMostTwoChanges` | internal/app/subscription_service.go:30-141 | while calls do not interleave, a subscription changes status at most twice and never again once it is not live |
| `Subscriptions.CallMoves` | internal/app/subscription_service.go:30-141 | each call moves a row only from a live status forward, and keeps its plan and expiry |
| `SubscriptionRace.OneLiveAlways` | internal/adapter/repo/subscription.go:19-46 | however the reads and full-row saves of calls interleave, at most one row is live |
| `SubscriptionRace.StepKeepsInv` | internal/app/subscription_service.go:30-141 | the invariant of rows and interleaved calls is kept by every step |
| `SubscriptionRace.LifecycleIff` | internal/app/subscription_service.go:30-141 | a row keeps to a lifecycle of at most two changes exactly when no save has changed it after it was final |
| `SubscriptionRace.FinalRowMovesIff` | internal/adapter/repo/subscription.go:23-25 | a final row moves exactly when a call saves the row it had read live, to another status, and the index admits it |
| `SubscriptionRace.ResetHitsALiveProductIff` | internal/app/subscription_service.go:104-124 | EndGrace resets the entitlements of a live product exactly when some row became live after its read and still is |
| `SubscriptionCalls.ExpireAlone` | internal/app/subscription_service.go:79-101 | a call left alone takes an active row, and no other, to grace |
| `SubscriptionCalls.EndGraceAlone` | internal/app/subscription_service.go:104-124 | a call left alone takes a row in grace, and no other, to expired, and resets the entitlements past its save only |
| `SubscriptionCalls.CancelAlone` | internal/app/subscription_service.go:127-141 | a call left alone cancels the live row, and fails when there is none |
| `SubscriptionCalls.ActivateMakesRoom` | internal/app/subscription_service.go:30-58 | a call left alone expires the live row before its insert, and returns when that save fails |
| `SubscriptionCalls.ActivateCreates` | internal/app/subscription_service.go:59-76 | past that it makes one active row, and a failing sync is no error |
| `SubscriptionRace.CancelledComesBack` | internal/app/subscription_service.go:79-141 | a concrete run in which Expire brings a cancelled subscription back to grace |
| `SubscriptionRace.RenewalIsReset` | internal/app/subscription_service.go:104-124 | a concrete run in which EndGrace resets the entitlements of a subscription activated meanwhile |
| `Subscriptions.ActivateIsNoOpIff` | internal/app/subscription_service.go:43-69 | Activate is a no-op exactly when the first write it had to make took no effect |
| `Subscriptions.ActivateReplaces` | internal/app/subscription_service.go:43-69 | after success exactly the new subscription, with its plan and expiry, is live; when Create fails after the expiry, none is |
| `Subscriptions.SubscriptionService.GetActive` | internal/adapter/repo/subscription.go:37-46 | the first live row |
| `Subscriptions.SubscriptionService.Activate` | internal/app/subscription_service.go:30-76 | expire the old, create with the expiry of the cycle on its calendar date, then sync; a failing sync is no error; no write to entitlements on failure |
| `Subscriptions.SubscriptionService.Expire` | internal/app/subscription_service.go:79-101 | active to grace only |
| `Subscriptions.SubscriptionService.EndGrace` | internal/app/subscription_service.go:104-124 | grace to expired; entitlements change only for a subscription that was in grace, by a call whose status write succeeded, and then, undisturbed, no subscription of the product is live |
| `Subscriptions.SubscriptionService.Cancel` | internal/app/subscription_service.go:127-141 | the live subscription is cancelled; entitlements are untouched |
| `Entitlements.ViewsAgreeIff` | internal/adapter/repo/subscription.go:116-122 | the rows say the same at two times exactly when nothing lapsed in between, a free plan_code aside |
| `Entitlements.GetIsRefreshIff` | internal/app/entitlement_service.go:29-60 | on every run whose store and cache calls succeed, with arbitrary cache expiry, Get answers what Refresh would compute exactly when no row lapsed since caching |
| `Entitlements.SyncOverrides` | internal/app/entitlement_service.go:63-104 | after a sync, at every later time: old rows overridden by plan_code and then the features until the expiry, other keys surviving, and exactly where the struct upsert keeps an old value or expiry |
| `Entitlements.LapsedRowsDefeatAnUnlimitedPlan` | internal/adapter/repo/subscription.go:105-113 | a concrete sync without expiry over lapsed rows that leaves the account on the free plan |
| `Entitlements.ResetIsFree` | internal/app/entitlement_service.go:107-125 | a reset says plan_code free and nothing else at every time |
| `Entitlements.EntitlementService.Get` | internal/app/entitlement_service.go:29-41 | a hit is what the rows said at caching time; a miss recomputes |
| `Entitlements.EntitlementService.Refresh` | internal/app/entitlement_service.go:44-60 | the loop builds the map of the live rows with plan_code defaulted, and caches it |
| `Entitlements.EntitlementService.UpsertAll` | internal/app/entitlement_service.go:82-99 | for every iteration order of the Go map the rows end the same |
| `Entitlements.EntitlementService.SyncFromSubscription` | internal/app/entitlement_service.go:63-104 | success means all entries upserted and the cache dropped; a failure leaves other keys and the cache alone |
| `Entitlements.EntitlementService.ResetToFree` | internal/app/entitlement_service.go:107-125 | success leaves exactly the free row |
| `Calendar.YearStartClosed` | internal/app/subscription_service.go:215-218 | summing year lengths under the leap rule (Appendix C of RFC 3339) agrees with the closed form |
| `Calendar.DateOf` | internal/app/subscription_service.go:213 | every day number is the number of a valid date |
| `Calendar.DateOfDayNumber` | internal/app/subscription_service.go:213 | day number and date are inverse on valid dates |
| `Calendar.TimeDateIs` | internal/app/subscription_service.go:213-217 | the normalising constructor gives the one valid date its carried arguments denote |
| `Calendar.AddDaysMoves` | internal/app/subscription_service.go:180 | adding days moves the day number by as many |
| `BillingDates.DaysInMonthIsGregorian` | internal/app/subscription_service.go:215-218 | day 0 of the next month gives the length of section 5.7 of RFC 3339, for every month number |
| `BillingDates.AddMonthsClamped` | internal/app/subscription_service.go:197-214 | the normalising loop computes the shift by months, for any number of months, and keeps the time of day |
| `BillingDates.ShiftedIsRight` | internal/app/subscription_service.go:197-214 | the shift is a valid date exactly that many months on; a clamped day is the month's last |
| `BillingDates.DriftIsBounded` | internal/app/subscription_service.go:197-214 | any sequence of shifts ends in the month of the combined shift, never later and at most 3 days earlier |
| `BillingDates.ShiftedIsMonotone` | internal/app/subscription_service.go:197-214 | a later date never expires earlier |
| `BillingDates.TimesSwapIff` | internal/app/subscription_service.go:197-214 | two date-times come out swapped exactly when they are of one month, the earlier day reaches the last day of the target month, and the earlier one has the later clock |
| `BillingDates.DatesMergeIff` | internal/app/subscription_service.go:197-214 | two dates merge exactly when they are of one month and the earlier one reaches the last day of the target month |
| `BillingDates.TimesCanSwap` | internal/app/subscription_service.go:197-214 | a concrete pair of date-times that clamping swaps |
| `BillingDates.CalculateExpiry` | internal/app/subscription_service.go:176-194 | 7 days on; the same day and month next year, 1 March for 29 February; or the same day one month on (three for quarterly), the last of the month if it is shorter; the same time of day; no expiry exactly for forever and one_time |
| `BillingDates.ExpiryDateEndsOn` | internal/app/subscription_service.go:176-194 | the date function meets that description for every valid date and every cycle |
| `BillingDates.EndsOnOneDate` | internal/app/subscription_service.go:176-194 | and only one date does |
| `BillingDates.ExpiryMovesForward` | internal/app/subscription_service.go:176-194 | 7 days weekly, 28 to 31 monthly and by default, 89 to 92 quarterly, 365 or 366 yearly |
| `BillingDates.YearlyIsTheSameDay` | internal/app/subscription_service.go:186 | a year on is the same day, 29 February becoming 1 March |
| `BillingDates.YearlyIsAYear` | internal/app/subscription_service.go:186 | it is 366 days exactly when a leap day lies in between |
| `IsoDates.ParseFormat` | internal/adapter/repo/checkin_repo.go:112-118 | parsing a formatted date gives it back |
| `IsoDates.FormatKeepsOrder` | internal/adapter/repo/checkin_repo.go:80-81 | comparing yyyy-MM-dd texts compares the dates |
| `IsoDates.TextIsTime` | internal/adapter/repo/checkin_repo.go:112-118 | on stored texts, order is day order and subtractDay is exactly one day back |
| `Checkin.CountConsecutive` | internal/adapter/repo/checkin_repo.go:77-109 | the loop returns min(30, length of the run of consecutive calendar days ending at the date) for any set of stored dates |
| `Checkin.RunHas` | internal/adapter/repo/checkin_repo.go:91-109 | a run has at least n days exactly when those n days are all stored |
| `Checkin.BreakEndsTheRun` | internal/adapter/repo/checkin_repo.go:91-109 | the list breaks the run exactly where the calendar does |
| `Checkin.CalculateCheckinReward` | internal/app/checkin_service.go:186-200 | the multiplying loop computes the reward |
| `Checkin.RewardIsMonotone` | internal/app/checkin_service.go:186-200 | a longer streak never earns less |
| `Checkin.CapIff` | internal/app/checkin_service.go:186-200 | the cap is reached exactly from 42 days on |
| `Checkin.RewardTable` | internal/app/checkin_service.go:186-200 | 0.10 below 7 days, half as much again for every 7 more, 1.0 from 42 on |
| `Checkin.CapIsOutOfReach` | internal/app/checkin_service.go:131-151 | with the 30-day look-back a check-in earns at most 0.50625, so never the cap |
| `CheckinService.Latest` | internal/adapter/repo/checkin_repo.go:79-84 | the query's answer exists and is what CountConsecutive assumes |
| `CheckinService.CheckinDesk.Create` | internal/adapter/repo/checkin_repo.go:36-49 | insert or conflict on (account, day) |
| `CheckinService.CheckinDesk.DoCheckin` | internal/app/checkin_service.go:131-183 | streak, row, credit and answer of an uninterrupted check-in, with every failure |
| `CheckinRace.OneRewardADay` | internal/app/checkin_service.go:131-183 | however many callers race, the day is credited at most once, with the reward its row records, and at most one caller is told so |
| `CheckinRace.CallerAlone` | internal/app/checkin_service.go:131-183 | a caller left alone: row, credit, answer and first error, for every failure of its statements |
| `CheckinRace.UncreditedDayIff` | internal/app/checkin_service.go:152-171 | with all callers back, a day is taken but not credited exactly when the insert's reply was lost or the credit failed without effect |
| `CheckinRace.LostForGood` | internal/app/checkin_service.go:152-160 | and it stays uncredited |
| `HookRegistry.WithDefaults` | internal/module/registry.go:153-165 | every policy becomes usable and a usable one is kept |
| `HookRegistry.BackoffDoublesIff` | internal/module/registry.go:485-491 | the unjittered backoff is the doubled initial value capped at the maximum exactly while the product fits int64 or its wrapped value still tops the cap |
| `HookRegistry.DefaultDoublesUpTo36` | internal/module/registry.go:485-491 | at 200 ms that is for 36 attempts; the 37th wraps to a negative duration |
| `HookRegistry.DefaultSleeps` | internal/module/registry.go:70-75 | the two pauses of the default policy total 480 to 720 ms whatever the jitter |
| `HookRegistry.BackoffIsScaled` | internal/module/registry.go:485-499 | with a jitter fraction the backoff is scaled by the random factor, cut to whole nanoseconds and never negative; without one it is the plain backoff |
| `HookRegistry.StopIsFirst` | internal/module/registry.go:310-345 | the attempt at which the engine stops is the first that succeeds, is followed by a cancellation, or is the last allowed |
| `HookRegistry.LetterCountsIff` | internal/module/registry.go:347-365 | a first dead letter counts the real invocations exactly when no cancellation cut the retries short |
| `HookRegistry.Registry.WithRetryPolicy` | internal/module/registry.go:153-165 | zero and negative values fall back to the defaults |
| `HookRegistry.Registry.TryInvoke` | internal/module/registry.go:310-345 | the loop's invocations, waits, metric and last error |
| `HookRegistry.Registry.GiveUp` | internal/module/registry.go:347-376 | one outcome, and one dead letter if a store is wired, with exactly the fields of the failure |
| `HookRegistry.Registry.RunHook` | internal/module/registry.go:302-376 | invocations, the one outcome and every pause, which is the backoff of its attempt; a dead letter exactly when nothing succeeded, with the last error, or the cancellation, and the attempts of the policy |
| `HookFailures.KeysAreUnique` | internal/adapter/repo/hook_failure.go:71-99 | there is never more than one row per key, with or without account |
| `HookFailures.TableTellsHistory` | internal/adapter/repo/hook_failure.go:39-155 | after any history of saves and replays: attempts are the first save's plus one per later save, first_failed_at is the first save's, and a row is pending exactly when its last operation was a save |
| `HookFailures.DepthAfterSave` | internal/adapter/repo/hook_failure.go:158-163 | a save raises the pending depth by one unless its row was pending |
| `HookFailures.HookFailureRepo.Save` | internal/adapter/repo/hook_failure.go:39-100 | for every failure: refused without event or hook name; otherwise one row of its key, new or merged, with each field written out, and no other row moves |
| `HookFailures.HookFailureRepo.MarkReplayed` | internal/adapter/repo/hook_failure.go:150-155 | stamps one row |
| `HookFailures.HookFailureRepo.PendingDepth` | internal/adapter/repo/hook_failure.go:158-163 | counts the pending rows |
| `HookFailures.HookFailureRepo.ReplayRow` | internal/adapter/handler/onboarding_failure_handler.go:97-181 | success and a vanished account stamp the row, a hook that still fails adds an attempt with its new error and stays pending, other rows are untouched, for every failure of the write |

## Left out

- QrProtocol: does not model messages of other sessions on a channel, malformed session data, or v1's exact response wording; the permission checks before a side effect are one outcome `passes`.
- QrTheorems.EffectAtMostOnce: does not model what AddMember or ExecuteDelegate does; AccountPurge models the latter for account deletion.
- QrPayload.VerifyPayloadSig: does not model constant-time comparison or SHA-256; the MAC is an uninterpreted function (section 2 of RFC 2104).
- DeleteRequests: does not model the order in which SKIP LOCKED hands rows to concurrent replicas; any set of eligible rows within the limit may be claimed. PurgeWorker models the ORDER BY for one replica.
- DeleteRequests: keeps the worker's cascade as one call that succeeds or fails, as the worker sees it.
- SelfDelete.AccountDeleteRequestService.RequestSelfDelete: its insert fails without effect or not at all; a lost reply is modelled in DeleteRequests.
- AccountPurge.Account.ExecuteDelegate: one account, with store outcomes fixed for the call, undisturbed; saves of the same account row by others are in PurgeAudit.
- Reconciliation: rows tied in ORDER BY stay in table order, where SQL leaves their order open; pre-authorisation expiry, VIP recalculation, and the provider SDKs are left out.
- Reconciliation.TickVerdict: sequential; interleaving with webhooks is in TopupOrder, for one order.
- TopupOrder: processOrderPaidDirect and subscription activation by webhooks are left out; activation happens on every successful call, so nothing is claimed about it per order.
- Refunds: the best-effort cancellation of the refunded subscription and the completion event come after the last status write and are left out; so is any limit of refunds per order, which the code does not keep.
- Subscriptions: each service call is one step there; SubscriptionRace interleaves them, over statuses only, with a sync and a reset as one step each. Renewal counters and grace_until are not modelled.
- Entitlements: one account and product; the conversion of plan features to text and value types is left out. The struct upsert is modelled by GORM's rule that Assign writes non-zero fields only.
- Entitlements.GetIsRefreshIff: for runs whose store and cache calls succeed; the methods of EntitlementService state what each call does when they fail.
- Calendar: UTC only; the calendar is proved from the leap rule, not from the code of Go's time package, which is not part of this model.
- IsoDates: years -1 to 9999.
- CheckinService.CheckinDesk.DoCheckin: `today` and `yesterday` are two readings of the clock and are taken as given; local time zones and the rounding of the wallet column are left out.
- HookRegistry: jitter is an exact rational factor; hook registration, event payloads, listing and pagination are left out.
- HookFailures.HookFailureRepo.ReplayRow: its read and its write are one step; a failure saved in between is not modelled.
- Gin binding, logging, metrics other than the hook outcome, tracing, front ends, Temporal workflows, invoices, VIP levels, referral rewards, organisation roles and key stores are left out.
