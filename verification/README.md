# Envelope: verified models of the mail platform's state machines

A Dafny model of the parts of Envelope whose behaviour spans several steps, workers or processes, with proofs
about every run or every input. Network outcomes, clocks, random draws, crashes and database errors are inputs of
the steps, so a theorem about "every run" holds whatever those do.

| file | what it covers |
|---|---|
| `RetryQueue.dfy` | the claim-and-retry queue, generic in the job's payload, and the in-memory class that implements it, for mail (internal/queue/memory.go) and webhook deliveries (internal/webhook/memory_queue.go) alike |
| `Delivery.dfy`, `DeliveryProgress.dfy`, `Outcomes.dfy`, `Recovery.dfy`, `AnnouncementOrder.dfy` | the outbound deliverer as a state machine: safety of all runs, decisions that follow the outcomes, progress of fault-free runs, which jobs can still be settled, order of the announced events |
| `ClaimTransaction.dfy`, `DatabaseDelivery.dfy` | the database queue's claim as lock, mark and commit steps, refining the atomic queue; the deliverer run over that table |
| `Backoff.dfy`, `MxRouting.dfy`, `Text.dfy` | retry delays; one delivery attempt from MX lookup to the last host; address and substring operations |
| `Webhook.dfy`, `WebhookAttempts.dfy`, `WebhookOutcomes.dfy`, `WebhookHistory.dfy`, `CommaList.dfy` | the webhook dispatcher with fan-out, attempt history and redrive; what becomes of a job; what the store keeps of that history; comma-joined columns |
| `RateLimit.dfy`, `RateExact.dfy` | both token buckets, their agreement, exactly which calls they allow, and the sending quota |
| `FileIndex.dfy`, `Maildir.dfy`, `MaildirRuns.dfy`, `ImapSession.dfy` | the Maildir store against an abstract map, also under interrupted writers; the IMAP session's cached view |
| `KeyRotation.dfy`, `Paging.dfy`, `Retention.dfy` | loops over tables: key rotation, keyset paging, the retention sweep |
| `Policy.dfy` | combining recipient policies into one inbound verdict |
| `Tally.dfy` | a counting bound shared by the two budget theorems |

Durations and times are integer nanoseconds; token counts, scores and thresholds are exact reals; a day has 24
hours.

## Where the code departs from what is said of it

- The comment at internal/deliverer/deliverer.go:172-175 says a job left claimed by a cancelled context is retried
  after a restart. Dequeue only selects unclaimed rows (internal/queue/postgres.go:88) and nothing clears the flag,
  so such a job is never touched again. A queued job can get a further outcome exactly when it is unclaimed or some
  worker still holds it (`Recovery.SettledAgainIff`); three steps from the start strand one (`Recovery.StrandingRun`).
- A deferral is written to the queue before its event is fired (internal/deliverer/deliverer.go:264-265), so another
  worker can settle and announce the next attempt first. Events of a job come in attempt order in every run exactly
  when MaxAttempts is 1 (`AnnouncementOrder.AlwaysInOrderIff`), and in every run in which no job is claimed again
  before its last outcome is announced (`AnnouncementOrder.LeasedInOrder`).
- The row-backed limiter grants a new key's first call even when the capacity is below one token; the in-process
  bucket does not (`RateLimit.SameDecisionsIff`). Only the row rewrites its timestamp when the clock steps back, so
  the two decide alike for all settings exactly on clocks that never go forward again after stepping back
  (`RateLimit.AgreeOnClockIff`).
- The error of recording a webhook attempt is ignored (internal/webhook/dispatcher.go:279), so the stored attempts of a
  job are numbered 1, 2, ... exactly when no kept record follows a lost one (`WebhookHistory.StoredNumberedIff`), and
  in all runs exactly when nothing is retried (`WebhookHistory.AlwaysNumberedIff`).
- The service clamps an oversized page limit to 500, the API controller computes the next cursor as if it had been
  100, so a client asking for more than 500 rows stops after the first page (`Paging.ApiListsAllIff`).
- The audit cursor is looked up by ID on every page; it relies on the log being append-only
  (`Paging.AuditSweepComplete`): otherwise the sweep ends at the missing entry (`Paging.RemovedCursorEndsSweep`).
- An event-type filter holding one empty string is stored as the empty column and comes back as the filter that
  matches everything, and one naming a type with a comma comes back split; every other filter keeps its meaning
  (`CommaList.StoredFilterSameIff`).
- A session's view keeps a non-system flag a STORE sets, the Maildir backend drops it: view and store still agree
  exactly when the command removes flags, names system flags only or selects nothing (`ImapSession.Session.Store`).
- `send` with no hosts would report delivery; only `lookupMX` rules that out (`MxRouting.Send`, `MxRouting.LookupMx`).

## Model

| member | source | states |
|---|---|---|
| `RetryQueue.EarliestExists` | internal/queue/memory.go:48-76 | whenever some unclaimed job is due, an earliest one exists, so a claim is always possible |
| `RetryQueue.MemoryQueue.Enqueue` | internal/queue/memory.go:31-43 | refuses a cancelled context and an empty ID, else puts the job unclaimed; the rest of the queue is unchanged |
| `RetryQueue.MemoryQueue.Dequeue` | internal/queue/memory.go:48-76 | returns and claims a job due no later than any other unclaimed one; returns nothing only if nothing is due or the context is done |
| `RetryQueue.MemoryQueue.Count` | internal/queue/memory.go:88-96 | the depth is the jobs under way plus the jobs waiting, so claiming a job does not lower it |
| `RetryQueue.MemoryQueue.Complete` | internal/queue/memory.go:98-111 | removes exactly the named job and its claim, or reports it missing and changes nothing |
| `RetryQueue.MemoryQueue.Fail` | internal/queue/memory.go:113-133 | exactly the named job gets one more attempt, the next time and, if given, the cause, keeps its body and loses its claim; a missing job is reported and nothing changes |
| `Delivery.RunKeepsInv` | internal/deliverer/deliverer.go:132-266 | every run keeps claims exclusive, histories matching stored attempts, jobs conserved, final announcements unique and semaphore counts exact |
| `Delivery.ClaimedOnce` | internal/deliverer/deliverer.go:166-182 | in every reachable state a job is held by at most one worker, is claimed, and the worker's snapshot is current |
| `Delivery.OneFinalAnnouncement` | internal/deliverer/deliverer.go:220-266 | over any run a job gets at most one delivered or bounced event, even with lost queue updates, crashes and cancellation |
| `Delivery.JobHistory` | internal/deliverer/deliverer.go:220-266 | a job's history is consecutively numbered deferrals, each justified by a temporary failure below the attempt limit and with a drawable delay, then at most one final outcome justified by its attempt; it is queued iff not closed, and stored with that many attempts, the last deferral's next time and its error |
| `Outcomes.DecisionsFollowOutcomes` | internal/deliverer/deliverer.go:220-266 | in every run each settlement and each event is Delivered iff its attempt was accepted, Deferred iff it failed temporarily with attempts left, Bounced iff it failed for good or on the last attempt; the outcome is one an attempt of the run had |
| `Outcomes.SettledExactly` | internal/deliverer/deliverer.go:234-265 | settling records the attempt's outcome and changes exactly its job: rescheduled at now plus delay with the error and released, or removed, or untouched if the update is lost |
| `Outcomes.AllAnnounced` | internal/deliverer/deliverer.go:234-265 | in a run without crashes, once no worker owes an event, the events are exactly the settlements |
| `Outcomes.NotClaimedEarly` | internal/queue/memory.go:48-76 | in every run a job is claimed no earlier than its last deferral plus its delay, and never after a final decision or a lost update |
| `Outcomes.MalformedBounces` | internal/deliverer/deliverer.go:270-274 | in every run mail whose recipient is no address bounces at its first attempt |
| `Outcomes.DomainLimit` | internal/deliverer/semaphore.go:19-43 | in every run no process has more workers past the semaphore with mail addressed to one domain than the limit |
| `Delivery.DefaultsWhereUnset` | internal/deliverer/deliverer.go:79-105 | positive settings are kept, unset ones become 8 attempts, 30 s, 30 min and 5 per domain |
| `Delivery.HistoryBound` | internal/deliverer/deliverer.go:250-265 | no job is attempted more often than the limit allows |
| `Delivery.DepthExact` | internal/queue/memory.go:88-96 | queue depth is jobs enqueued minus jobs settled for good |
| `Delivery.SlotAvailable` | internal/deliverer/semaphore.go:19-43 | a waiting worker can acquire iff fewer than the limit of its process's workers are past the semaphore with its domain; no process and domain ever exceed the limit |
| `Delivery.AttemptBudget` | internal/deliverer/deliverer.go:220-266 | attempts settled plus attempts under way never exceed jobs times MaxAttempts |
| `DeliveryProgress.StrandedForever` | internal/queue/postgres.go:76-120 | a claimed job without a worker keeps its row, claim and history through every further run |
| `Recovery.SettledAgainIff` | internal/queue/postgres.go:76-120 | from every state the invariant allows, a queued job can get a further outcome iff it is not stranded, and then by a run without faults that takes jobs in due order |
| `Recovery.StrandingRun` | internal/deliverer/deliverer.go:166-182 | for every configuration and job: enqueue, claim, cancel while waiting, and the job is stranded |
| `DeliveryProgress.AbandonedClaim` | internal/deliverer/deliverer.go:166-182 | cancelling or crashing the worker that holds a job strands it |
| `DeliveryProgress.CleanRun` | internal/deliverer/deliverer.go:132-182 | in fault-free runs every claim has a worker, and each step other than enqueueing advances the step measure by one |
| `DeliveryProgress.BoundedRun` | internal/deliverer/deliverer.go:220-266 | n jobs take at most n times MaxAttempts attempts, and at most n plus six times that many steps |
| `DeliveryProgress.NeverStuck` | internal/deliverer/deliverer.go:132-182 | while a fault-free run has jobs or workers left, some step is enabled |
| `DeliveryProgress.Drained` | internal/deliverer/deliverer.go:132-266 | a fault-free run that cannot go on has emptied the queue and settled every job for good |
| `DeliveryProgress.TotalWait` | internal/deliverer/deliverer.go:250-264 | in any run the delays of all of a job's deferrals sum to less than the ceilings of the attempts before the last allowed |
| `DeliveryProgress.DefaultWait` | internal/deliverer/deliverer.go:34-37 | with the retry settings left unset, the delays of all of a job's deferrals sum to less than 3690 seconds, in any run |
| `AnnouncementOrder.LeasedInOrder` | internal/deliverer/deliverer.go:261-265 | if no job is claimed before its last outcome is announced, events of each job come in attempt order |
| `AnnouncementOrder.OvertakingRun` | internal/deliverer/deliverer.go:261-265 | for every configuration with two or more attempts there is a run announcing attempt 2 before attempt 1 |
| `AnnouncementOrder.AlwaysInOrderIff` | internal/deliverer/deliverer.go:261-265 | events are in order in all runs iff MaxAttempts is 1 |
| `ClaimTransaction.StepRefines` | internal/queue/postgres.go:76-159 | each lock, mark, commit, abort, insert, complete or fail step is one atomic queue operation or none; locking is the claim of the earliest due row nobody else holds |
| `ClaimTransaction.RunRefines` | internal/queue/postgres.go:76-159 | in every interleaving of transactions, each step taken is its atomic image between the queues its two tables stand for |
| `ClaimTransaction.NoDoubleClaim` | internal/queue/postgres.go:76-120 | every run keeps locks and transactions matched and committed claims of a row separated by Fails |
| `ClaimTransaction.ClaimsSeparated` | internal/queue/postgres.go:76-120 | from an empty table, two committed claims of one row have a Fail of it between them |
| `DatabaseDelivery.RunSimulates` | internal/queue/postgres.go:76-159 | every interleaving of workers and claim transactions is a run of the delivery machine over the committed table |
| `DatabaseDelivery.RowClaimedOnce` | internal/deliverer/deliverer.go:166-182 | over the database a job has at most one worker, and its row is claimed, unlocked and as the worker saw it |
| `DatabaseDelivery.OneFinalEvent` | internal/deliverer/deliverer.go:220-266 | over the database a job gets at most one delivered or bounced event |
| `DatabaseDelivery.RowHistory` | internal/queue/postgres.go:130-159 | a row is there iff its job's history is open, and stores exactly the attempts of that history |
| `Backoff.FullJitter` | internal/queue/backoff.go:14-28 | the delay lies in [0, min(cap, base * 2^n)), every value of that range can be drawn, and the generator's argument is at least 1 |
| `Backoff.CeilingMonotone` | internal/queue/backoff.go:14-28 | the ceiling never falls with later attempts |
| `Backoff.CeilingPositive` | internal/queue/backoff.go:14-28 | with positive base and cap the ceiling lies between 1 and the cap |
| `Backoff.TotalBelowCeilings` | internal/queue/backoff.go:14-28 | delays drawn for attempts 0..k-1 sum to less than the sum of their ceilings |
| `Text.ParseAddressIff` | internal/directory/directory.go:101-107 | parsing gives local and domain iff the text is local@domain with both non-empty and no `@` in local |
| `Text.MalformedIffUnchanged` | internal/deliverer/deliverer.go:210-216 | the recipient equals its own destination domain iff it is no address, and otherwise the result is the address's domain |
| `MxRouting.ContextKeepsClass` | internal/deliverer/classify.go:32-42 | wrapping an error in any amount of context keeps its permanent or temporary class |
| `MxRouting.IsPermanentIff` | internal/deliverer/classify.go:32-42 | an error is permanent iff its outermost tag says so, or it has no tag and its outermost SMTP code is not in 400..499 |
| `MxRouting.ClassifyKeepsClassIff` | internal/deliverer/classify.go:44-56 | tagging an SMTP client error makes it permanent iff its outermost code is not in 400..499, and keeps the class iff there was no contradicting tag |
| `MxRouting.SendToHost` | internal/deliverer/send.go:60-94 | a host fails permanently iff it answered a stage with a code outside 400..499 |
| `MxRouting.LookupMx` | internal/deliverer/send.go:21-37 | success gives a non-empty permutation of the records sorted by preference; failure is permanent iff the domain has no route |
| `MxRouting.Send` | internal/deliverer/send.go:45-58 | all hosts before the last tried failed temporarily, the result is the last one's, and the loop stops early only on acceptance or a permanent failure |
| `MxRouting.Attempt` | internal/deliverer/deliverer.go:270-292 | delivered iff address, lookup and body are fine and some host accepts after temporary failures at all before it; permanent iff malformed, unroutable or refused for good; a temporary failure after sending means every host was tried |
| `Webhook.MatchesEventType` | internal/webhook/dispatcher.go:200-210 | the scan accepts iff the filter is empty or names the type; with the disabled flag this is what fan-out selects by |
| `Webhook.EnqueueEvent` | internal/webhook/dispatcher.go:95-132 | queues the jobs of the fan-out up to the first one refused, for a cancelled context or an empty ID, and succeeds iff none is |
| `Webhook.FanOutExact` | internal/webhook/dispatcher.go:95-132 | one job for each enabled subscription whose filter is empty or names the type, and no other; each is new, due now, and carries that subscription's URL, secret and ID and the event's vhost, type and payload |
| `Webhook.MostRecent` | internal/webhook/dispatcher.go:144-198 | Redrive picks the newest recorded attempt of the subscription and event, or none exists |
| `Webhook.RunFaithful` | internal/webhook/dispatcher.go:95-304 | every run keeps jobs, workers, history and pending fan-outs faithful to the published events and their subscriptions |
| `Webhook.OnePayloadPerEvent` | internal/webhook/dispatcher.go:95-304 | in every run all jobs and attempts of an event carry its one payload and type, jobs go to their subscription's URL under its secret, and each attempt's vhost is its subscription's, after any number of redrives |
| `WebhookOutcomes.RedriveCarries` | internal/webhook/dispatcher.go:144-198 | a redrive is for an enabled subscription of the vhost, builds on its newest stored attempt, and queues a new job with the subscription's URL and secret and that attempt's type and payload |
| `WebhookOutcomes.RecordedExactly` | internal/webhook/dispatcher.go:253-279 | the record carries the attempt's result, the next number and the job's subscription, event, type and payload |
| `WebhookOutcomes.SettledExactly` | internal/webhook/dispatcher.go:281-304 | success or the last attempt removes the job, any other failure reschedules it with error and next time, a lost update changes nothing |
| `WebhookOutcomes.KeptUntilDone` | internal/webhook/dispatcher.go:253-304 | in every run a job leaves the queue only after a success or after all its attempts |
| `WebhookOutcomes.DisabledGetsNothing` | internal/webhook/memory.go:93-107 | once disabled, a subscription stays so and no event published later ever gets a job for it |
| `WebhookAttempts.RunSound` | internal/webhook/dispatcher.go:253-304 | every run keeps each job's recorded attempts consistent with its stored attempt count and its worker |
| `WebhookAttempts.JobAttempts` | internal/webhook/dispatcher.go:253-304 | a job's attempts are numbered 1..k without gaps, at most the limit, success only last |
| `WebhookHistory.StoredNumberedIff` | internal/webhook/dispatcher.go:279 | in every run the stored attempts of a job are numbered 1, 2, ... iff no kept record follows a lost one |
| `WebhookHistory.GapRun` | internal/webhook/dispatcher.go:253-304 | whenever retries are allowed, some run stores attempt 2 without attempt 1 |
| `WebhookHistory.AlwaysNumberedIff` | internal/webhook/dispatcher.go:253-304 | stored attempts are gap-free in all runs iff no job is retried |
| `WebhookAttempts.RunMetered` | internal/webhook/dispatcher.go:144-198 | a subscription and event have at most one job from the fan-out plus one per redrive |
| `WebhookAttempts.RedriveBudget` | internal/webhook/dispatcher.go:144-198 | after r redrives a subscription and event have at most (r+1) times the limit attempts |
| `CommaList.SplitJoin` | internal/webhook/postgres.go:327-336 | splitting a joined non-empty comma-free list gives it back |
| `CommaList.JoinSplit` | internal/webhook/postgres.go:327-336 | joining the parts of any text gives the text back |
| `CommaList.RoundTripIff` | internal/storage/postgres/postgres.go:172-181 | a list survives storage iff no element has a comma and it is not the list of one empty string |
| `CommaList.EmptyTypeBecomesAll` | internal/webhook/postgres.go:327-336 | the filter of one empty type matches everything once stored |
| `CommaList.StoredFilterSameIff` | internal/webhook/dispatcher.go:200-210 | a stored filter matches the same events iff no type has a comma and it is not the list of one empty type |
| `RateLimit.TokenBucket.constructor` | internal/ratelimit/tokenbucket.go:27-35 | the bucket starts full at the given time |
| `RateLimit.TokenBucket.Refill` | internal/ratelimit/tokenbucket.go:54-66 | earned tokens are added up to capacity; time not moving forward changes nothing |
| `RateLimit.TokenBucket.Allow` | internal/ratelimit/tokenbucket.go:40-50 | one step of the bucket the run theorems are about |
| `RateLimit.Limiter.Allow` | internal/ratelimit/postgres.go:90-138 | one step of the key's row; every other row is unchanged |
| `RateLimit.SameRow` | internal/ratelimit/postgres.go:99-127 | from the same state and under a forward clock both limiters decide every sequence of calls alike |
| `RateLimit.SameDecisionsIff` | internal/ratelimit/postgres.go:90-138 | from a fresh key they decide every non-empty sequence alike iff the capacity is at least 1 |
| `RateLimit.AgreeOnClockIff` | internal/ratelimit/postgres.go:99-127 | the two limiters agree for every capacity, rate and starting tokens iff the clock never goes forward again after stepping back |
| `RateLimit.DeniedCallIrrelevant` | internal/ratelimit/tokenbucket.go:40-66 | removing a denied call changes no other decision |
| `RateExact.AllowedIff` | internal/ratelimit/tokenbucket.go:40-66 | from a full bucket a call is allowed iff the capacity is at least 1 and, for every earlier call, those allowed since plus this one fit capacity + rate * time since |
| `RateExact.RowAllowedIff` | internal/ratelimit/postgres.go:90-138 | the same for the row-backed limiter on a new key, whose first call always passes |
| `RateExact.BurstPasses` | internal/ratelimit/tokenbucket.go:40-66 | the first calls up to the capacity pass, however close together |
| `RateExact.RecoveryPasses` | internal/ratelimit/tokenbucket.go:40-66 | a call after the time that earns one token passes, however drained the bucket was |
| `RateExact.QuotaPasses` | internal/platform/smtp/submission.go:174-194 | a vhost passes its first Q quota checks whatever other vhosts send |
| `RateExact.QuotasSeparate` | internal/platform/smtp/submission.go:180-194 | two vhosts never share a quota row |
| `RateLimit.Budget` | internal/ratelimit/tokenbucket.go:40-66 | calls allowed never exceed the tokens held plus the tokens earned |
| `RateLimit.WindowBound` | internal/ratelimit/tokenbucket.go:40-66 | in every window of every run, calls allowed are at most capacity + rate * window length |
| `RateLimit.KeysIndependent` | internal/ratelimit/postgres.go:74-138 | the decisions on a key are those of its own calls alone, whatever other keys do |
| `RateLimit.RowWindow` | internal/ratelimit/postgres.go:90-138 | the window bound for the row-backed limiter |
| `RateLimit.TwiceTheQuota` | internal/platform/smtp/submission.go:174-194 | a vhost with quota Q passes at most 2Q quota checks in any 24 hours, SMTP and REST together |
| `FileIndex.RemoveRefines` | internal/storage/maildir/maildir.go:313-325 | removing a key's file removes exactly that message |
| `FileIndex.MoveRefines` | internal/storage/maildir/maildir.go:278-298 | renaming a key's file changes its attributes to the new name's and nothing else, if the new name parses to the key |
| `FileIndex.ArriveRefines` | internal/storage/maildir/maildir.go:87-126 | a file added under a new key adds exactly that message |
| `Maildir.FlagsRoundTrip` | internal/storage/maildir/maildir.go:331-356 | decoding encoded flags gives the system flags among them, whatever order or repeats |
| `Maildir.SortAscending` | internal/storage/maildir/maildir.go:331-340 | flag letters are written in ascending order |
| `Maildir.Encode` | internal/storage/maildir/maildir.go:331-340 | the info holds D, F, R, S, T exactly for Draft, Flagged, Answered, Seen, Deleted, in ascending order |
| `Maildir.Decode` | internal/storage/maildir/maildir.go:345-356 | the flags are exactly those of the letters D, F, R, S, T present, and no others |
| `Maildir.NameRoundTripIff` | internal/storage/maildir/maildir.go:130-157 | a file name splits back into its key iff the key does not contain `:2,` |
| `Maildir.FlagRefines` | internal/storage/maildir/maildir.go:278-298 | the rename UpdateFlags makes keeps the body, sets exactly the system flags asked for, and leaves one file per key |
| `Maildir.Mailbox.Write` | internal/storage/maildir/maildir.go:87-126 | adds the whole body under the drawn name, without flags, and leaves tmp/ as it was |
| `Maildir.JoinedConcat` | internal/storage/maildir/maildir.go:87-126 | the body written is its pieces one after the other |
| `Maildir.Mailbox.Locate` | internal/storage/maildir/maildir.go:130-157 | finds the one place a key sits, or nothing iff there is no such message |
| `Maildir.Mailbox.Read` | internal/storage/maildir/maildir.go:159-168 | returns the message's body in the abstract map, or nothing |
| `Maildir.Mailbox.List` | internal/storage/maildir/maildir.go:170-215 | lists every message of the abstract map exactly once, with its size and flags |
| `Maildir.Mailbox.UpdateFlags` | internal/storage/maildir/maildir.go:278-298 | replaces the message's flags in the abstract map, or reports it missing and changes nothing |
| `Maildir.Mailbox.Delete` | internal/storage/maildir/maildir.go:313-325 | removes exactly the named message, or reports it missing |
| `Maildir.Mailbox.OnlySystemFlags` | internal/storage/maildir/maildir.go:345-356 | stored messages carry system flags only |
| `MaildirRuns.RunKeepsInv` | internal/storage/maildir/maildir.go:87-126 | writers, searches, renames and removals interleaved file step by file step, stopped anywhere, keep one file per key and the abstract map |
| `MaildirRuns.OnlyWholeMessages` | internal/storage/maildir/maildir.go:87-126 | in every run every file outside tmp/ holds the full body its writer was given |
| `MaildirRuns.OperationsFindTheirFile` | internal/storage/maildir/maildir.go:130-157 | in every run a search of new/ then cur/ comes upon a file iff the abstract map holds the key, upon only one, and that one holds the map's message |
| `MaildirRuns.LateOperationsSafe` | internal/storage/maildir/maildir.go:278-325 | a file found earlier is gone or still its key's one file, so a late rename or removal fails or acts on its own message |
| `ImapSession.ApplyStoreOp` | internal/platform/imap/session.go:277-305 | a flag is in the result iff STORE sets it, or it was there or is added, or it was there and is not removed; order and duplicates do not matter and the result has none |
| `ImapSession.Session.Select` | internal/platform/imap/session.go:89-113 | the view holds every message of the mailbox with its stored flags |
| `ImapSession.Session.Store` | internal/platform/imap/session.go:213-239 | exactly the selected entries get the operation's result, the store keeps the view's system flags and no body changes; if view and store agreed they still do iff the command removes flags, names system flags only or selects nothing |
| `ImapSession.Session.StoreAll` | internal/platform/imap/session.go:213-239 | after any sequence of STOREs each entry shows what the commands make of it and the store its system flags; the two agree iff those are all system flags, in particular if every command removes or names system flags only |
| `ImapSession.LastSetDecides` | internal/platform/imap/session.go:277-305 | a replacing STORE makes all earlier ones irrelevant to the entry |
| `KeyRotation.SecretTable.Rotate` | internal/directory/service.go:337-369 | a run stopped after any write rewrites only rows under the old key, keeps plaintexts, and counts its rewrites exactly; it finishes iff the writes suffice and every row opens under one of the keys |
| `KeyRotation.SecretTable.RotateRepeatedly` | internal/webhook/postgres.go:179-211 | over any number of runs of Rotate, each interrupted after its number of writes: rewrites plus rows still under the old key equal the rows first under it; a finished run leaves every row under the new key with its plaintext and later runs rewrite nothing; readable rows are all rotated iff the writes suffice together |
| `Paging.ListTokensPage` | internal/apiauth/memory.go:59-104 | the page is the first rows of the account after the cursor, in order, up to the clamped limit |
| `Paging.WindowIsPage` | internal/apiauth/memory.go:80-104 | cutting a window out of the sorted list gives that page |
| `Paging.SweepAscending` | internal/directory/service.go:164-187 | whatever happens to the table between pages, a sweep is strictly ordered and repeats nothing |
| `Paging.SweepCovers` | internal/directory/service.go:164-187 | a finished sweep contains every row that was there throughout |
| `Paging.StaticSweepExact` | internal/directory/service.go:164-187 | on an unchanged table a sweep has at most \|table\| / limit full pages and, when finished, returned exactly the table |
| `Paging.NewerIsTotal` | internal/audit/postgres.go:80-110 | newest first with ties broken by ID is a strict total order |
| `Paging.AuditSweepIsSweep` | internal/audit/postgres.go:80-110 | on an append-only log, looking the cursor up by ID gives a keyset sweep over (at, id) |
| `Paging.AuditSweepComplete` | internal/audit/postgres.go:80-110 | such a sweep shows only entries of the target, by time and then ID descending, and once finished misses none present at its start |
| `Paging.RemovedCursorEndsSweep` | internal/audit/postgres.go:80-110 | if the entry a page ended with is gone when the next is read, that page is empty, the sweep ends as if finished, and every older entry is missed |
| `Paging.RemovedCursorMisses` | internal/audit/postgres.go:80-110 | a log on which this misses an entry present throughout |
| `Paging.ApiListsAllIff` | internal/api/controller.go:62-87 | following nextCursor lists the whole table iff the requested limit is at most 500 or the table fits one page of 500 |
| `Retention.Days` | internal/retention/retention.go:64-69 | the window is the vhost's when positive, else the operator's default, else 90 days |
| `Retention.Purger.PurgeVhost` | internal/retention/retention.go:135-165 | deletes exactly the vhost's messages with a known age at or before the cutoff, except where listing or deleting fails |
| `Retention.Purger.Sweep` | internal/retention/retention.go:108-133 | terminates, visits vhosts once in ID order, all of them unless stopped, and leaves exactly what no visited vhost purges |
| `Retention.LeftExactly` | internal/retention/retention.go:135-165 | a complete failure-free sweep leaves a message iff its vhost is not listed, its age is unknown or it is younger than its own vhost's window |
| `Retention.LaterSweepAbsorbs` | internal/retention/retention.go:108-165 | a clean later sweep gives the same store whether or not an earlier, failing or interrupted one ran |
| `Retention.RepeatDeletesNothing` | internal/retention/retention.go:108-165 | repeating a sweep at the same time deletes nothing |
| `Policy.EffectiveThresholds` | internal/platform/smtp/inbound.go:244-250 | each threshold is the least positive configured one, or unset when there is none |
| `Policy.FoldStep` | internal/platform/smtp/inbound.go:268-276 | minPositive extends the least positive value by one candidate |
| `Policy.EffectiveMaxBytes` | internal/platform/smtp/inbound.go:252-263 | a body fits the effective limit iff it fits the server's and every recipient vhost's |
| `Policy.VerdictIff` | internal/filter/verdict.go:121-144 | Reject iff the scorer is up and some recipient's reject threshold is met, or an unaligned message's DMARC policy is reject; Accept iff the scorer is up, no threshold is met and DMARC does not object |
| `Policy.FoldedVerdictIsStrictest` | internal/filter/verdict.go:121-144 | the verdict from folded thresholds is the strictest of the recipients' separate verdicts |
| `Policy.OrderIrrelevant` | internal/platform/smtp/inbound.go:244-250 | thresholds depend only on which vhosts occur, not on order or repeats |
| `Policy.MonotoneInScore` | internal/filter/verdict.go:121-144 | a higher score never softens the verdict; with the scorer down the score is ignored and nothing is accepted outright |
| `Policy.InboundSession.Rcpt` | internal/platform/smtp/inbound.go:108-128 | 250 iff the text is an address of a hosted active domain, whose vhost then joins the transaction; 501 iff it is no address; a refusal changes nothing |
| `Policy.InboundSession.Data` | internal/platform/smtp/inbound.go:140-166 | one reply: too large iff some limit is exceeded; else Reject and Accept exactly as score, DMARC and the recipients' own settings say, the strictest recipient verdict |

## Left out

- Wire protocols and I/O: SMTP, IMAP, HTTP and TLS conversations, dialing and STARTTLS fallback; only their outcomes occur.
- SQL text, migrations and roles: tables are maps, and transactions are atomic except in `ClaimTransaction`.
- Row locking itself: that a locked row is skipped by other transactions is the step relation's assumption.
- The search inside UpdateFlags and Delete is one step: a file renamed between looking into new/ and reading cur/ is not modelled as missed.
- Cryptography: a ciphertext opens under its own key only and gives its plaintext; signatures and password hashes do not occur.
- SPF, DKIM, DMARC and rspamd lookups: the verdict takes their results as inputs.
- MIME composition, bounce message text, webhook HTTP requests and signatures.
- REST controllers beyond the page limit, authorization, data transfer objects and views.
- Metrics, logging, tracing and environment parsing; correlation IDs are carried but nothing is stated about them.
- IEEE rounding and 64-bit overflow: tokens, scores and delays are exact.
- Calendar days: AddDate is a multiple of 24 hours.
- Randomness and UUID collisions: draws are arbitrary in range, new IDs are fresh by precondition.
- Liveness across restarts: no code releases an abandoned claim, so progress is stated for fault-free runs.
- Fairness: progress says that some step is enabled and that runs are bounded, not that a scheduler picks each worker.
- Retry after a lost insert race in the row-backed limiter: one call is one atomic step.
- Limiter errors: both quota checks let the message through when the limiter fails; the quota theorem counts the calls the limiter decided.
- Mailbox paths and the directory walk of ListVhost: one mailbox is modelled, and `Retention` starts from the listed messages.
- Order of listings: Maildir listings, and hence IMAP sequence numbers, are in arbitrary order; modification times are not modelled.
- Other sessions changing a mailbox while it is selected: the view theorems are for a sole session, whose backend calls succeed.
- Ties between MX records of equal preference: any order sorted by preference is covered by the contracts, one is computed.
- Fetch, search, append and the other IMAP commands; Poll and Idle do nothing in the source.
- Storing the judged message per recipient and firing one received event per vhost.
- Subscription deletion: the source only disables subscriptions.
- Webhook retry times: the next time of a rescheduled webhook is an input; the delays are drawn by the same FullJitter.
- Vhosts changing during a retention sweep: `Retention.Purger.Sweep` reads an unchanged directory; `Paging.SweepCovers` says what changes can do to its listing.
