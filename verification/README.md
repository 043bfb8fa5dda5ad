# BotCord: protocols that must survive crashes, races and odd input

This project models the parts of BotCord in which several steps, processes or transactions have to
agree, and proves what they guarantee over every run. It also models the text formats in which a
page, a command line or a signature must come back as what it was.

Each protocol is a step relation (`World`, `Step` or `Action`, `Enabled`, `Next` or `Do`), an
invariant that every step keeps, and theorems about every reachable world. Loops and objects that
the program updates in place are methods of classes; each is proved against a function of its inputs
and old state, or performs the steps of the relation one by one. Where an obvious claim is false, the
theorem is an equivalence: the claim holds exactly under a condition that a caller can check.

| file | what it is about |
|---|---|
| `SendRecovery.dfy`, `SendProgram.dfy` | the crash-safe send: lock file, durable attempt, status query, resend, cached recovery |
| `ReleaseGate.dfy`, `Release.dfy` | the release coordinator and its database gate, with compensation after any failure |
| `Grants.dfy`, `GrantRuns.dfy` | reserving, releasing, renewing and revoking uses of agent-management grants, alone and side by side |
| `Expiry.dfy`, `ExpiryRuns.dfy` | leases, TTL expiry and the notices to senders, beside polls, acknowledgements and receipts that load before they commit |
| `Retry.dfy`, `RetryRuns.dfy` | webhook retries: backoff, deadlines, parked messages, turns on loaded copies |
| `Frontmatter.dfy`, `FrontmatterRoundTrip.dfy`, `FrontmatterPages.dfy`, `FrontmatterInput.dfy` | reading and printing pages with frontmatter, and what pages written by hand read as |
| `Args.dfy` | reading command lines |
| `ActivityFeed.dfy`, `Sorting.dfy` | the capped merge of activity streams, and a stable sort |
| `OwnerChatBlocks.dfy`, `OwnerChat.dfy` | truncation and byte cap of cached blocks, and the run hash under races |
| `BetaCodes.dfy` | redeeming invite codes with stale first reads |
| `StageDiagnostics.dfy` | nested stages with a cap, operations per minute |
| `SigningInput.dfy` | the text that a signature covers |
| `Text.dfy`, `Wrappers.dfy` | strings, decimal numbers, `Option` |

What the theorems found out about the program:

- An explicit `--message-id` may be sent again with other content once its first delivery was
  confirmed (`PayloadsAgreeExactlyWithoutExplicitId`).
- A stored envelope that is JSON but not an object makes every expiry batch raise at it; the backlog
  drains exactly when there is none (`DrainsExactlyWithoutPoison`).
- Two expiry workers can send two notices for one message (`OneNoticeEachExactlyWithOneWorker`), and
  a worker can fail a message that was delivered after it had loaded it (`DeliveredLostExactly`).
- `failed` is not final: an ack or result receipt, or an acknowledgement loaded before the failure,
  turns a failed message into another one, also after its sender was told of the failure
  (`FailedMessageCanBeAcked`). It stays failed exactly while no handler overwrites it
  (`FailedForeverExactly`).
- A release of a grant use that comes after the grant was renewed lets the grant be used more often
  than its limit (`LateReleaseOverspends`).
- A renewal that loaded a grant unused does not write its counter; uses taken meanwhile stay on it,
  even above the new limit (`RenewalOverfills`). Counters stay within their limits exactly if no
  renewal does that (`CountersStayWithinLimitsExactly`).
- The activity feed misses a closed topic when there are more of them than the cap
  (`ExactIffClosedFitUnderCap`). Its docstring calls paging approximate; up to that cap it is exact.
- A value with a line break that is otherwise plainly safe is printed raw and does not come back, nor
  does the key `__proto__`, nor a body with CRLF or a leading line break (`PageComesBackExactly`).
- The docstring of `mark_run_completed` says that two terminal signals race safely. They do exactly
  when at most one message id is among them (`FinalIdIsStableExactly`).
- Deep truncation is idempotent exactly if no kept list has more than 101 items (`IdempotentExactly`).
  The byte cap does not cut `kind`, so no bound holds for the size of an event (`KindIsUnbounded`).
- Signing inputs are unambiguous as soon as one of the two envelopes has no line break in a covered
  field, and only then (`UnambiguousExactly`).

## Model

| member | source | states |
|---|---|---|
| SendRecovery.MutualExclusion | cli/src/send-recovery.ts:21-30 | In every reachable world, with any number of processes, crashes and removed dead locks, at most one live process is between taking and releasing the lock. |
| SendRecovery.LockHolderIsAlone | cli/src/send-recovery.ts:21-80 | While a process holds the lock, no step of anyone else changes the lock, the attempt file, what was sent, or that process. |
| SendRecovery.NewIdOnlyWhenAllConfirmed | cli/src/send-recovery.ts:55-63 | A new message id is chosen only when every id sent before was confirmed and is stored by the Hub; a random one is new. |
| SendRecovery.AtMostOneUnresolved | cli/src/send-recovery.ts:39-77 | All unconfirmed requests for a key are one request, and the attempt file holds its id and payload. |
| SendRecovery.DurableBeforeSend | cli/src/send-recovery.ts:34-38 | Every POST carries the id and payload that the attempt file holds at that moment. |
| SendRecovery.ReturnsAreStored | cli/src/send-recovery.ts:39-77 | Any normal return, fresh, recovered or cached, names an id that was confirmed and that the Hub holds. |
| SendRecovery.OneCopyPerReceiver | backend/hub/routers/hub.py:1591-1606 | However often an id is resent, the Hub holds one copy per receiver, each of a request that was sent; without an explicit id all copies of an id have one payload. |
| SendRecovery.CachedExactlyWithinWindow | cli/src/send-recovery.ts:55-60 | Reading the file ends an invocation exactly if it holds a recovery less than 15 minutes old; then nothing is sent and the result is stored by the Hub. |
| SendRecovery.InvocationIsBounded | cli/src/send-recovery.ts:13-81 | In every run one invocation takes at most 14 steps, at most one of which is a POST. |
| SendRecovery.ThrowsOnlyOnFailure | cli/src/send-recovery.ts:13-81 | An invocation throws only if some step of its own met a failure: a held lock, a file error, a failed preparation, a rejection, no usable status, or a 404 for what it has itself posted; a 404 before its first POST is none. |
| SendRecovery.SavedAttemptCanBeResent | cli/src/send-recovery.ts:51-77 | Wherever a run has led an invocation that queries a saved attempt and has posted nothing, it can still post exactly the id and payload of the file, return that id, and leave neither lock nor file. |
| SendRecovery.CrashedAttemptCanBeResent | cli/src/send-recovery.ts:21-77 | After any run in which the lock's holder crashed with an attempt on file, a new invocation can, once the dead lock is gone, post just that attempt and return its id. |
| SendRecovery.StoredMessageCanBeFound | cli/src/send-recovery.ts:39-50 | A saved attempt that the Hub holds can be returned without any POST; the file then holds the recovery with its time, id and status. |
| SendRecovery.LostReplyCanBeRecovered | cli/src/send-recovery.ts:68-75 | After a lost reply, what the Hub holds can be returned under the same id with no second POST. |
| SendRecovery.NewMessageCanBeSent | cli/src/send-recovery.ts:55-71 | With the lock free, and no attempt on file or a recovery 15 minutes old, an invocation can send its payload under the explicit or a new id and leave neither lock nor file. |
| SendRecovery.RunKeepsInv | cli/src/send-recovery.ts:13-81 | Lock, disk, network, Hub and process invariants hold after every run. |
| SendRecovery.ExplicitIdCarriesTwoPayloads | cli/src/send-recovery.ts:61-67 | A run in which a repeated explicit id is sent with a second payload. |
| SendRecovery.PayloadsAgreeExactlyWithoutExplicitId | cli/src/send-recovery.ts:61-67 | No run sends two payloads under one id if and only if no explicit id is given. |
| SendRecovery.SecondPayloadOnlyAfterConfirmation | cli/src/send-recovery.ts:39-77 | A second payload under an id is sent only once the Hub has confirmed the id. |
| SendProgram.Session.RecoverableSend | cli/src/send-recovery.ts:13-81 | One invocation, interrupted anywhere by others: only steps of the machine; it ends without the lock, a returned id is confirmed and stored, it posts at most once, and it throws only for one of the failures above. If nothing fails by itself and the Hub answers, it returns, unless another holds the lock. |
| SendProgram.Session.Recover | cli/src/send-recovery.ts:39-54 | The inner recovery: a found status is saved and returned; not found leads to the saved attempt's POST if a resend is asked for, and to a throw otherwise; if nothing fails, a resend that is asked for ends in one of the first two. |
| SendProgram.Session.StartAttempt | cli/src/send-recovery.ts:61-67 | A new attempt is saved under the explicit id if there is one, or the invocation throws before sending. |
| SendProgram.Session.SendAttempt | cli/src/send-recovery.ts:68-77 | The POST of the attempt; what it returns is that attempt's id, and it does return if nothing fails. |
| SendProgram.Session.Locked | cli/src/send-recovery.ts:30-77 | What runs under the lock, from reading the file to an outcome, which is a return if nothing fails. |
| ReleaseGate.FifteenNamesAreAll | backend/scripts/conversation_release_gate.py:131-132 | Fifteen functions or triggers with the capture's names are all of them, so the count check proves completeness. |
| ReleaseGate.VerifyExactly | backend/scripts/conversation_release_gate.py:216-231 | `verify` passes exactly when the three queues are empty, no personal room lacks a summary and no saved epoch changed. |
| ReleaseGate.NewAccountsPass | backend/scripts/conversation_release_gate.py:49-54 | Accounts that appear after the snapshot never make `verify` fail. |
| ReleaseGate.MigratedByEffect | backend/scripts/conversation_release_gate.py:144-156 | Any committed migrations add exactly their versions to the ledger and the tables, leave the capture of the last one in place, keep rooms, entries and epochs, and queue every room outside a space and every directory entry. |
| ReleaseGate.RestoreUndoesAnyPrefix | backend/scripts/conversation_release_gate.py:159-189 | Whichever prefix of the migrations committed, `restore` brings back exactly the ledger and capture of the snapshot and queues every personal room and directory entry. |
| ReleaseGate.RestoreCapture | backend/scripts/conversation_release_gate.py:170-175 | Replacing the saved fifteen functions and triggers leaves none of the later ones. |
| Release.Deployment.Deploy | backend/scripts/deploy_backend.py:183-212 | Any command may fail before, part-way or after its effect. A normal exit has run exactly preflight, validation of the old image, stop, snapshot, apply, promote, start and verify (the first and the last three if no maintenance is needed), each with success, and leaves the candidate running, verified last, tagged and migrated. After a failed command the handler runs stop, restore and drain if there is a snapshot, promote, start and verify of the old image, up to the first failure; a recovered release leaves the old image running, verified last and tagged, on the original capture and ledger. Without a snapshot no DDL changed; an unsupported ledger leaves everything untouched; DDL and backlog commands ran with every Hub stopped and no Hub ran against a foreign capture. Where no command fails by itself, only an unfit ledger or capture keeps the release from completing, and a recovery succeeds. |
| Release.Deployment.Attempt | backend/scripts/deploy_backend.py:190-200 | The commands of the `try` block in order and each with success, or up to the first that failed; on success the candidate is what was verified last, its backlog drained, no old epoch moved. |
| Release.Deployment.Recover | backend/scripts/deploy_backend.py:201-211 | The handler's commands in order and each with success, or up to the first that failed; on success the old image is what was verified last, on the original DDL; it succeeds if no command fails by itself. |
| Release.Deployment.StopHub | backend/scripts/deploy_backend.py:108-116 | A stop that succeeds leaves nothing running; one that fails leaves at most what ran. |
| Release.Deployment.StartHub | backend/scripts/deploy_backend.py:118-125 | A start that succeeds leaves the image of the tag as all that runs; one that fails leaves at most that and what ran before. |
| Release.Deployment.VerifyHub | backend/scripts/deploy_backend.py:127-152 | The polling loop accepts only if the expected image is all that runs, at once if it does, and otherwise gives up after 45 looks. |
| Release.Deployment.SaveSnapshot | backend/scripts/conversation_release_gate.py:115-141 | The recovery file is never overwritten; a snapshot that succeeds holds the complete capture. |
| Release.Deployment.Apply | backend/scripts/conversation_release_gate.py:260-269 | A prefix of the planned migrations commits; on success the schema is the candidate's, the backlog projected, all three queues empty and every saved epoch unchanged; it does succeed if the migrations lead to that schema, the queues agreed before and nothing fails by itself. |
| Release.Deployment.Backfill | backend/scripts/conversation_release_gate.py:192-213 | With every Hub stopped the loop terminates; when it ends normally the queue of rooms is empty, every room that was on it is projected, and the queues of messages and readers are empty too if and only if every entry of theirs was of a queued room. |
| Release.QueuesDrainedExactly | backend/migrations/018_incremental_conversation_projection.sql:84-102 | What the capture triggers keep, that a queued message or reader is of a queued room, is exactly what makes a drain of the rooms empty all three queues. |
| Release.Deployment.ProjectPending | backend/hub/services/conversation_projection.py:122-207 | One queued room that nobody has locked is projected and leaves the queues; the answer is zero only if every queued room is locked. |
| Release.DrainedBacklogIsProjected | backend/scripts/conversation_release_gate.py:192-213 | A drained queue that held every personal room and entry leaves no eligible room without a summary of its own content. |
| Grants.ReadingsAgree | backend/app/auth.py:411-439 | The check in memory and the conditional UPDATE agree on every grant row. |
| Grants.UpdateHitsTheLoadedRow | backend/app/auth.py:657-715 | Under the row lock the UPDATE for a usable grant increments that row and no other. |
| Grants.ChosenIsBest | backend/app/auth.py:541-577 | A grant is chosen exactly if a usable one exists, and none is preferred to it: daemon-specific first, then oldest. |
| Grants.ChosenExactlyIfOneFits | backend/app/auth.py:411-439 | A grant is chosen exactly if some row fits: of this user, agent and scope, not revoked, not expired, below its limit, and of the caller's daemon, or global where that is allowed; the chosen one fits. |
| Grants.ChosenIsSpecificThenOldest | backend/app/auth.py:657-666 | If a fitting grant is for the caller's own daemon, so is the chosen one; among fitting grants alike in this, the chosen one has no creation time or none is older. |
| Grants.MissingExactly | backend/app/auth.py:442-474 | A required scope is reported missing exactly if no row fits it. |
| Grants.DedupIsDistinct | backend/app/auth.py:330-335 | Required scopes are normalised to distinct ones. |
| Grants.DedupKeepsMembers | backend/app/auth.py:330-335 | The normalised scopes have exactly the members of the given ones. |
| Grants.BumpKeepsOtherChoices | backend/app/auth.py:580-626 | Taking a use for one scope leaves the choice for every other scope as it was. |
| Grants.ReserveAllTakesOneEach | backend/app/auth.py:580-626 | A reservation adds one use to exactly the grants chosen for its scopes in the old table, and changes nothing else. |
| Grants.GrantTable.ReserveScopeUse | backend/app/auth.py:629-715 | Reserves one use of the grant that is chosen for the scope, in no other row, or changes nothing if there is none. |
| Grants.GrantTable.ReserveScopeUses | backend/app/auth.py:580-626 | All scopes or none: it succeeds exactly when no scope is missing, and otherwise leaves the table as it was. |
| Grants.ReleaseUndoesReserve | backend/app/auth.py:718-740 | Releasing what was just reserved leaves the table as it was before the reservation. |
| Grants.GrantTable.ReleaseScopeUses | backend/app/auth.py:718-740 | Each listed grant with a positive counter loses one use; every other row is unchanged. |
| Grants.GrantTable.CreateGrant | backend/app/routers/agent_management.py:157-206 | With nothing between its query and its commit: renews the matching unrevoked grant in place with its counter at zero, or inserts a new one. |
| Grants.OfferFitsExactly | backend/app/routers/agent_management.py:174-203 | What a grant request leaves is one row, renewed or new, that is unused and fits its agent exactly for the days offered, unless it allows no use; no other row changes. |
| GrantRuns.UndisturbedRenewal | backend/app/routers/agent_management.py:177-203 | Loading and later storing a renewal, with the fields the ORM writes, is that one transaction if nothing comes between. |
| Grants.GrantTable.RevokeGrant | backend/app/routers/agent_management.py:209-227 | Revokes the caller's grant, or reports that there is none. |
| Grants.RevokedFitsNobody | backend/app/routers/agent_management.py:209-227 | A revoked grant fits no caller any more; other rows, and rows of other users, keep their state. |
| GrantRuns.RevokedIsNeverUsedAgain | backend/app/routers/agent_management.py:209-227 | In every run after a revocation no use of the grant is handed out again, not even by way of a renewal that loaded it before. |
| GrantRuns.ReserveIsAllOrNothing | backend/app/auth.py:580-626 | In every world that keeps the invariant a reservation changes nothing if some scope has no fitting row, and otherwise takes one use of a fitting row for each scope. |
| GrantRuns.CountersStayWithinLimitsExactly | backend/app/routers/agent_management.py:177-203 | In every interleaving from an empty table no counter is negative, and every counter stays within its limit if and only if no renewal lowers the limit of a grant it loaded unused below the uses taken since. |
| GrantRuns.StepStaysWithinExactly | backend/app/auth.py:580-740 | The same for a single step of any kind. |
| GrantRuns.StepExactly | backend/app/auth.py:718-740 | A step keeps every count equal to the outstanding uses if and only if it is neither a release of uses from before a renewal nor a renewal that leaves uses on the counter. |
| GrantRuns.RunExactIffTimely | backend/app/routers/agent_management.py:177-203 | Counting stays exact throughout a run from an empty table if and only if no step in it is of those two kinds. |
| GrantRuns.TimelyRunsHonourLimits | backend/app/auth.py:580-740 | After such a run every counter says how many uses are outstanding since the last renewal, and they do not exceed the limit. |
| GrantRuns.LateReleaseOverspends | backend/app/routers/agent_management.py:177-203 | A run with a late release after which a grant limited to one use has two outstanding. |
| GrantRuns.RenewalOverfills | backend/app/routers/agent_management.py:177-203 | A run in which a stored renewal leaves a counter above its new limit. |
| Expiry.ExpiryLoop.ReclaimStaleProcessing | backend/hub/expiry.py:54-118 | Requeues exactly the messages whose lease is over and returns them. |
| Expiry.ReclaimExactly | backend/hub/expiry.py:85-95 | After a reclaim exactly the processing rows whose deadline is not after now are queued without one; every other row is unchanged. |
| Expiry.ExpiryLoop.ExpireBatch | backend/hub/expiry.py:121-195 | Fails the selected messages in turn, each with its notice in the same commit, and stops at an envelope that raises. |
| Expiry.BatchNotifiesMessages | backend/hub/expiry.py:171-190 | The table after an undisturbed batch has exactly one new record for each selected message that is no ack, result or error, in order, queued to its sender as an error about it; and none for any other. |
| Expiry.BatchFailsExactlyTheExpired | backend/hub/expiry.py:126-160 | An undisturbed batch of fewer than a hundred fails exactly the rows that are queued, not recalled and past their TTL, and leaves every other. |
| Expiry.BatchDrains | backend/hub/expiry.py:121-195 | A batch that nothing stops shrinks the backlog by exactly the number selected. |
| Expiry.BatchTakesAHundred | backend/hub/expiry.py:126-140 | One undisturbed batch fails 100 expired messages, or all if there are fewer. |
| Expiry.BatchesDrain | backend/hub/expiry.py:121-195 | k undisturbed batches at a fixed clock fail 100 * k expired messages, or all. |
| Expiry.DrainsExactlyWithoutPoison | backend/hub/expiry.py:121-195 | All n expired messages are failed after ceil(n/100) batches if and only if none has an envelope that is JSON but not an object. |
| Expiry.OldestPoisonBlocksAll | backend/hub/expiry.py:141-160 | If such a message is the oldest, no batch ever changes anything. |
| ExpiryRuns.FailedForeverExactly | backend/hub/routers/hub.py:1866-1890 | In every run a failed message stays failed if and only if no handler commits another state of it than it loaded and than failed. |
| ExpiryRuns.FailedUntilReceipt | backend/hub/routers/hub.py:1866-1890 | If no handler was under way when it failed, it stays failed if and only if no ack or result receipt for it follows. |
| ExpiryRuns.FailedMessageCanBeAcked | backend/hub/routers/hub.py:1881-1883 | A run of one worker in which a message fails for its TTL, its sender gets the notice, and an ack receipt then makes it acknowledged. |
| ExpiryRuns.NoLeaseReclaimedEarly | backend/hub/expiry.py:54-118 | A processing message is requeued only at or after its deadline. |
| ExpiryRuns.LeaseIsHonoured | backend/hub/routers/hub.py:2309-2420 | In every run, for two minutes after a poll or a renewal the message is not in the queue, whatever else happens. |
| ExpiryRuns.RecalledNeverExpires | backend/hub/expiry.py:141-160 | A message recalled before any worker loaded it never expires in any run. |
| ExpiryRuns.DeliveredLostExactly | backend/hub/expiry.py:121-195 | A delivered message stays delivered exactly unless a worker commits a copy it loaded before, a handler commits another state of it, or its turn is settled. |
| ExpiryRuns.ReclaimedMessageExpiresInTheSameTick | backend/hub/expiry.py:198-208 | Since reclaim runs first, a message whose lease and TTL are both over expires in the same tick. |
| ExpiryRuns.FailOneBalanceExactly | backend/hub/expiry.py:141-195 | Committing an expiry keeps notices and expired messages equal in number, per message and per sender, exactly if the message had not expired with a notice before. |
| ExpiryRuns.ExpiredOnlyByCommit | backend/hub/expiry.py:121-195 | Only a worker's commit makes a message one that has expired. |
| ExpiryRuns.OneNoticeEachExactlyWithOneWorker | backend/hub/expiry.py:121-195 | In every run, receipts included, the notices to each sender about each message are as many as the messages that ever expired and call for one, if and only if there is at most one worker. |
| ExpiryRuns.NoticesAreBounded | backend/hub/expiry.py:141-195 | In every run with at most one worker there are never more notices than messages that are no ack, result or error. |
| ExpiryRuns.NoticesAreAboutMessages | backend/hub/expiry.py:171-190 | In every run of any number of workers each notice is about a message of its receiver that has expired and is no ack, result or error. |
| ExpiryRuns.TwoWorkersNotifyTwice | backend/hub/expiry.py:121-195 | A run in which two workers notify twice about one message. |
| ExpiryRuns.DeliveredMessageCanFail | backend/hub/expiry.py:121-195 | A run in which one worker fails a delivered message. |
| Retry.RetryLoop.RetryBatch | backend/hub/retry.py:218-376 | The batch commits each selected message's turn in order and stops where a turn raises. |
| Retry.RetryLoop.HandleMessage | backend/hub/retry.py:233-376 | One turn: corrupt, raising, past the deadline, parked, without endpoint, delivered or refused, with marks and notices. |
| Retry.VisitSchedules | backend/hub/retry.py:274-376 | Whatever the loop schedules is later than now and no later than the deadline; a message it does not schedule is delivered, failed or parked. |
| Retry.VisitTells | backend/hub/retry.py:255-272 | Exactly a TTL failure is announced: to the sender unless it was a receipt, and to the receiver exactly when its endpoint is marked unreachable. |
| Retry.VisitEnds | backend/hub/retry.py:255-376 | In time, a message is parked exactly for an endpoint that is not active, delivered exactly if accepted, and otherwise retried or, exactly if the next wait of 2, 4, 8, 16, 32 or 60 seconds would pass its deadline, failed. |
| Retry.MaxAttemptsExactly | backend/hub/constants.py:7 | The attempts that fit a TTL, in closed form, are exactly those whose backoff waits are shorter than it. |
| RetryRuns.UndisturbedTurn | backend/hub/retry.py:233-376 | A turn on a copy that nobody has touched commits what the loop's own turn commits. |
| RetryRuns.TurnKeepsGood | backend/hub/retry.py:233-376 | A turn on a loaded copy keeps its message's attempts behind their backoff, whatever others have made of the message since it was loaded. |
| RetryRuns.AttemptsAreBounded | backend/hub/retry.py:218-376 | In every run, with parking, resuming, polling, leases and receipts between any two turns, no message has more attempts than fit its TTL and no notice has any; one still queued after k >= 6 failures has 122 + 60 * (k - 6) <= ttl. |
| RetryRuns.BoundIsReached | backend/hub/retry.py:297-311 | For every positive TTL some run reaches that bound. |
| RetryRuns.InvStep | backend/hub/routers/registry.py:206-219 | Also resuming parked messages on a new registration never lets an attempt come before its backoff. |
| RetryRuns.RegisterExactly | backend/hub/routers/registry.py:206-219 | An endpoint that becomes active again reschedules exactly the messages that were parked for its agent. |
| Frontmatter.ParseFrontmatter | cli/src/kb-frontmatter.ts:31-63 | The loop with its open list key computes the reference reading of a page. |
| Frontmatter.RenderFrontmatter | cli/src/kb-frontmatter.ts:73-89 | The loop over the properties computes the reference text. |
| FrontmatterInput.InlineListLine | cli/src/kb-frontmatter.ts:24-55 | For every well-formed key and list of comma-free items that need no quotes, the line `key: [i1, i2, ...]` sets exactly that key to exactly that list and closes the open list key, in any state. |
| FrontmatterInput.SingleQuotedLine | cli/src/kb-frontmatter.ts:17-58 | For every text of one line, `key: '...'` with each quote doubled sets exactly that key to exactly that text. |
| FrontmatterInput.BlanksBeforeColon | cli/src/kb-frontmatter.ts:49-51 | Blanks between key and colon do not matter. |
| FrontmatterInput.BlanksAroundDash | cli/src/kb-frontmatter.ts:44-46 | A list item reads the same with any indentation and any blanks behind its dash. |
| FrontmatterInput.CodeReads | cli/src/kb-frontmatter.ts:10-16 | A \u escape of any character of the basic plane but a surrogate, with digits in either case, reads as that character. |
| FrontmatterInput.RawControlIsRefused | cli/src/kb-frontmatter.ts:10-16 | A quote or control character that is not escaped makes the quoted text no JSON. |
| FrontmatterInput.BrokenQuotesRead | cli/src/kb-frontmatter.ts:12-16 | Text in double quotes that is no JSON loses only the quotes. |
| FrontmatterInput.FencesExactly | cli/src/kb-frontmatter.ts:31-62 | The properties are read from the lines between a first line that is a fence and the next fence, and the rest is the body; a text without such fences is all body. |
| FrontmatterInput.BomIsIgnored | cli/src/kb-frontmatter.ts:32 | A byte order mark at the start of a text changes nothing. |
| FrontmatterRoundTrip.UnescapeOfEscape | cli/src/kb-frontmatter.ts:65-70 | JSON.parse undoes JSON.stringify on every string. |
| FrontmatterRoundTrip.ScalarRoundTrip | cli/src/kb-frontmatter.ts:65-70 | A renderable scalar prints as one trimmed line piece and reads back as itself, whether raw or quoted. |
| FrontmatterRoundTrip.EntryBack | cli/src/kb-frontmatter.ts:78-86 | The lines of one good property, scalar or block list, set exactly that property, whatever was read before. |
| FrontmatterRoundTrip.FieldsBack | cli/src/kb-frontmatter.ts:31-89 | The lines of all good properties read back as all of them, and none is taken for a fence. |
| FrontmatterPages.GoodPageBack | cli/src/kb-frontmatter.ts:31-89 | A page of good properties reads back as those properties; the body loses the CR of each CRLF and one leading line break. |
| FrontmatterPages.NormalIsExact | cli/src/kb-frontmatter.ts:78-86 | With distinct keys what comes back is each kept property under its key and nothing else. |
| FrontmatterPages.BodyComesBackExactly | cli/src/kb-frontmatter.ts:61-62 | A body comes back if and only if it has no CRLF and no leading line break. |
| FrontmatterPages.KeysArePlain | cli/src/kb-frontmatter.ts:43-57 | Whatever the text, only well-formed keys other than `__proto__` are ever set. |
| FrontmatterPages.OnlyRenderableComesBack | cli/src/kb-frontmatter.ts:31-89 | Whatever the values, a rendered page yields only renderable strings: a value that is not renderable never comes back from anywhere in it. |
| FrontmatterPages.PageComesBackExactly | cli/src/kb-frontmatter.ts:9-89 | For all distinct keys, values and bodies: the page comes back, numbers as text and empty values dropped, if and only if every kept key is well-formed, every kept string renderable and the body plain. |
| FrontmatterPages.LineBreakIsLost | cli/src/kb-frontmatter.ts:65-70 | The value "a\nb" is printed raw and does not come back. |
| FrontmatterPages.ProtoIsLost | cli/src/kb-frontmatter.ts:49-57 | The key `__proto__` does not come back. |
| FrontmatterPages.FirstBlankLineIsLost | cli/src/kb-frontmatter.ts:61-62 | A body with a leading line break does not come back. |
| Args.ParseArgs | cli/src/args.ts:13-60 | The loop and the shifts compute the reference reading of a command line. |
| Args.TokensCoverTheWords | cli/src/args.ts:17-52 | For every command line each word is read exactly once and in order. |
| Args.NextWordIsValue | cli/src/args.ts:24-46 | A long or short flag takes the next word as its value if that is a dash alone or has no dash in front, in any state. |
| Args.FlagAloneIsOn | cli/src/args.ts:24-46 | With nothing or any other dashed word behind it, it is just on. |
| Args.HelpTakesNoValue | cli/src/args.ts:37-38 | `-h` asks for help and leaves the next word alone. |
| Args.OtherWordsArePositionals | cli/src/args.ts:47-49 | A word without a dash, a dash alone, and a single dash with more than one UTF-16 unit behind it are positionals. |
| Args.WritableSettingsBack | cli/src/args.ts:17-52 | Written flags and positionals read back whatever was read before them. |
| Args.OnlyWritableComesBack | cli/src/args.ts:17-52 | Whatever the flags, only writable ones are ever set by a written command line. |
| Args.ArgumentsComeBackExactly | cli/src/args.ts:13-60 | Written arguments read back as they were if and only if no key has "=", is `__proto__`, or is empty without a value, and the subcommand reads as one (or no positional does in its place). |
| ActivityFeed.GetActivityFeed | backend/app/routers/activity.py:270-487 | Gathering, sorting in place and slicing compute the page of the capped streams. |
| ActivityFeed.CapKeepsTop | backend/app/routers/activity.py:285-287 | Capping a sorted stream keeps its first entries after any merge. |
| ActivityFeed.HasMoreIsExact | backend/app/routers/activity.py:483-485 | `has_more` is what it would be without caps. |
| ActivityFeed.PageIsExact | backend/app/routers/activity.py:285-487 | For streams sorted by the timestamps of the final sort, or closed topics within the cap, the page is the page of the full sort of all events, for every limit and offset, ties included. |
| ActivityFeed.PageOfTimeline | backend/app/routers/activity.py:285-487 | Then it is the stretch from `offset`, of at most `limit` entries, of a timeline that holds each stream and one entry for each closed topic, newest first; `has_more` says whether entries follow. |
| ActivityFeed.TruncatedTopicIsMissed | backend/app/routers/activity.py:441-468 | For every number of closed topics over the cap, streams whose page is wrong. |
| ActivityFeed.ExactIffClosedFitUnderCap | backend/app/routers/activity.py:441-487 | For n closed topics every feed is exact if and only if n is at most limit + offset + 20. |
| Sorting.SortIsSortedPermutation | backend/app/routers/activity.py:482 | The sort is a sorted permutation. |
| Sorting.SortIsStable | backend/app/routers/activity.py:482 | The sort keeps the order of entries that compare equal. |
| OwnerChatBlocks.TruncateKeepsShape | backend/hub/owner_chat_cache.py:213-232 | Truncation keeps constructors, keys and short leaves; strings have at most limit + 1 characters and lists at most 101 items. |
| OwnerChatBlocks.IdentityExactly | backend/hub/owner_chat_cache.py:213-232 | Truncation changes nothing if and only if everything is within the limits or already cut at them. |
| OwnerChatBlocks.IdempotentExactly | backend/hub/owner_chat_cache.py:213-232 | Truncating twice is truncating once if and only if no kept list has more than 101 items. |
| OwnerChat.CountIsBounded | backend/hub/owner_chat_cache.py:317-360 | However appenders interleave, event_count never exceeds the cap or the events appended. |
| OwnerChatBlocks.EnforceEventByteCap | backend/hub/owner_chat_cache.py:257-274 | The compact block if it fits, and otherwise its preview form, with the size of what is returned. |
| OwnerChatBlocks.CompactKeeps | backend/hub/owner_chat_cache.py:235-254 | The compact block has the block's kind and seq and its payload truncated; what is no block is of unknown kind. |
| OwnerChatBlocks.PreviewIsStart | backend/hub/owner_chat_cache.py:195-202 | A preview is the first 280 characters of the text, or all of it. |
| OwnerChatBlocks.EventIsBounded | backend/hub/owner_chat_cache.py:257-274 | The size is the UTF-8 length of the returned event; that is within the cap, or it is a preview of at most 2000 bytes beside the encoded kind and seq. |
| OwnerChatBlocks.KindIsUnbounded | backend/hub/owner_chat_cache.py:235-274 | Since the kind is not cut, for every cap and every bound some block exceeds the bound. |
| OwnerChat.Cache.AppendEvent | backend/hub/owner_chat_cache.py:317-360 | Without interleaving: nothing once the run is full; otherwise the capped compact block is appended and returned, and event_count stays exactly the events appended since the hash was made. |
| OwnerChat.AppendSteps | backend/hub/owner_chat_cache.py:317-360 | What it leaves is what the read, the append and the write of one worker leave. |
| OwnerChat.CompleteSteps | backend/hub/owner_chat_cache.py:363-394 | Likewise for a completion: the steps of one worker are what the method does. |
| OwnerChat.FailSteps | backend/hub/owner_chat_cache.py:397-411 | Likewise for a failure, which makes no hash where there is none. |
| OwnerChat.Cache.MarkRunCompleted | backend/hub/owner_chat_cache.py:363-394 | Without interleaving only a running run is completed, and a recorded id is kept. |
| OwnerChat.Cache.MarkRunFailed | backend/hub/owner_chat_cache.py:397-411 | Any existing run becomes failed, also a completed one, and keeps its id. |
| OwnerChat.CompletedStaysExactly | backend/hub/owner_chat_cache.py:397-411 | In every run a completed run stays completed if and only if it is not failed, made anew or timed out; racing completions never undo it. |
| OwnerChat.CompletedIdStaysExactly | backend/hub/owner_chat_cache.py:380-389 | While it stays completed its message id stays if and only if no completion that had read it as running then records another one. |
| OwnerChat.FinalIdIsStableExactly | backend/hub/owner_chat_cache.py:363-394 | No race of completions replaces a recorded message id if and only if there is one worker or at most one id among the signals. |
| BetaCodes.CountersAreExact | backend/app/routers/beta.py:86-127 | In every interleaving with stale first reads used_count is the number of redemptions and at most max_uses, and nobody redeems twice. |
| BetaCodes.NoRedemptionAfterRevocation | backend/app/routers/beta.py:101-127 | In every run after a code is revoked nobody redeems it, not even a request that had read it before. |
| BetaCodes.CheckExactly | backend/app/routers/beta.py:76-92 | A request gets past its first read exactly if the code is active, not expired and has a use left. |
| BetaCodes.ClaimIsAllOrNothing | backend/app/routers/beta.py:101-127 | A claim uses one use and gives access to its own user, exactly if the code can be claimed then; otherwise it changes nothing. |
| BetaCodes.ConstraintNeverFires | backend/hub/models.py:1908-1916 | The insert never meets the unique constraint on the user. |
| BetaCodes.BetaDb.RedeemInviteCode | backend/app/routers/beta.py:76-127 | One request with any stale first read: all of its effect or none, and Ok only with access. |
| StageDiagnostics.NumbersAreEntries | backend/hub/stage_diagnostics.py:105-111 | Entered stages are numbered consecutively without repetition, each later than the one around it. |
| StageDiagnostics.ParentsAreAround | backend/hub/stage_diagnostics.py:105-111 | The parent of a stage of the outermost level is what was given; of any other it is the number of a stage directly around one of its name. |
| StageDiagnostics.OutcomeExactly | backend/hub/stage_diagnostics.py:112-134 | Errors and cancellations are reported as such; a noted outcome counts exactly if the stage completed and it is one of four. |
| StageDiagnostics.Capture.RunStage | backend/hub/stage_diagnostics.py:98-134 | However a stage ends, the parent is restored, captured plus dropped counts the entries, captured is at most 256, and the log is the reference numbering cut at the cap, each with its outcome. |
| StageDiagnostics.Capture.RunStages | backend/hub/stage_diagnostics.py:98-134 | The same for the stages of one level in turn. |
| StageDiagnostics.Operations.Enter | backend/hub/stage_diagnostics.py:66-77 | The two counters capture an operation exactly while fewer than ten were captured in its minute. |
| StageDiagnostics.TenPerWindow | backend/hub/stage_diagnostics.py:71-77 | No window of the clock has more than ten captured operations. |
| StageDiagnostics.TwentyPerMinute | backend/hub/stage_diagnostics.py:71-77 | No interval of one minute has more than twenty. |
| SigningInput.BuildSigningInput | backend/hub/crypto.py:65-98 | Builds the reference text from the parts. |
| SigningInput.FieldsByLine | backend/hub/crypto.py:79-98 | The lines of the text of an envelope without line breaks are its fields, in the order of the protocol; topic and goal only outside version a2a/0.1. |
| SigningInput.InputIsUnambiguous | backend/hub/crypto.py:65-98 | If one of two envelopes has no line break in a covered field, whatever the other has, their texts are equal if and only if all covered fields are. |
| SigningInput.UnambiguousExactly | backend/hub/crypto.py:65-98 | For all kinds of two envelopes, clean or not: every pair is unambiguous if and only if one of the kinds is clean. |
| SigningInput.LineBreaksCollide | backend/hub/crypto.py:79-98 | Two different envelopes with line breaks that share a text. |
| Text.DecimalsDiffer | backend/hub/crypto.py:82-88 | Different integers print differently. |

## Left out

- SendProgram.Session.RecoverableSend: an invocation that runs to its end; a crash between two effects, and a failure to remove the lock, are steps of the machine in `SendRecovery.dfy`.
- SendRecovery.OneCopyPerReceiver: rows of a fan-out are stored one receiver at a time, and the receivers of a request are not fixed in advance.
- Release.Deployment.Deploy: Docker, Compose and kubectl are commands with an effect; a gate container that outlives its removal, the autoscaler and replica counts are not modelled. For a release of the very image that runs, the claim about foreign captures is silent.
- Release.Deployment.ProjectPending: a summary is the content of its room; how members, messages and readers make one up, and which trimmed entries are old enough, is left out.
- Release.Deployment.BackfillOld: an image from before migration 018 is given the queues and summaries of the new schema; in fact it neither clears the queues of messages and readers nor writes summaries it does not know.
- Grants.GrantTable.CreateGrant: one scope; a request for several is a sequence of such loads and stores, and `GrantRuns.dfy` has them side by side with other steps, two inserts at once included.
- Grants.GrantTable.ReserveScopeUse: rows that the session had loaded before the locking query are taken as read anew.
- ExpiryRuns.OneNoticeEachExactlyWithOneWorker: times are whole seconds; a next_retry_at that a late commit leaves behind is not followed; deleting a room's messages is left out.
- RetryRuns.AttemptsAreBounded: counts committed attempts, so a POST whose commit is lost in a crash is not counted; `retry.py` is marked deprecated and the Hub does not start it.
- Retry.RetryLoop.RetryBatch: display names, room context and the HTTP request are left out; a POST comes to Accepted, Refused or Raised.
- Frontmatter.ParseFrontmatter: strings are sequences of Unicode scalar values, so lone surrogates and \u escapes of surrogates are left out; the classes \p{L} and \p{N} are a parameter, and a number is the text that String() makes of it.
- Args.ParseArgs: strings are sequences of Unicode scalar values, so lone surrogates are left out; other inherited property names of JavaScript objects behave like ordinary keys and are not singled out.
- ActivityFeed.GetActivityFeed: the SQL of the four queries is left out; ISO timestamps are numbers, and rows with equal timestamps come in the order the database chose.
- OwnerChat.Cache.AppendEvent: the stream's own approximate trimming and expiry times are left out; the keys may disappear at any step.
- OwnerChatBlocks.EnforceEventByteCap: numbers are the text that json.dumps makes of them, and a dictionary is its keys and values in order.
- BetaCodes.BetaDb.RedeemInviteCode: the copy of the flag to Supabase is left out.
- StageDiagnostics.Capture.RunStage: stages of inherited background tasks, which the capture ignores, and the Sentry ids are left out.
- SigningInput.BuildSigningInput: the encoding of the text to bytes and the signature itself are left out.
- HTTP, SQL, Redis, Docker, JSON canonicalisation and the cryptographic libraries, beyond the contracts above.
- Invite links, policies, room names, token and origin checks, prompt-marker patterns: short case analyses or checks over libraries.
- The web, mobile and desktop programs, schemas, seeds and translations.
