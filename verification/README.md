# VK service: delivery ledger, bindings and attempt limit

A Dafny model of the VK service and proofs of what it promises. `dafny verify dfyconfig.toml`
checks the whole project.

Four parts of the service are modelled.

**Notification delivery.** `DeliveryLedger` holds the rows and the repository object whose methods
update them; `DeliveryCommand` the recipient list; `DeliveryLoop` the recipient loop as a function;
`DeliveryService` the loop, the transaction around it and the ack or nak, as methods. `DeliveryProtocol`
then lets any number of deliveries run at once: one step is one statement, one messenger call, or the
end of a transaction; an advisory lock is named by a hash of the event and a hash of the recipient, both
arbitrary; every
statement reads the committed rows of that moment plus the transaction's own writes; an abort or a crash
may come at any point. `DeliverySerial` proves serializability, `DeliveryCounting` the exact counts,
`DeliveryProgress` that orderly runs can always finish, `DeliveryDeadlock` exactly which lock hashes can
deadlock, and `Convergence` what redelivery achieves.

**Bindings, codes and journal.** `BindingTables` holds the tables, `BindingOps` each operation as one
atomic step, `BindingService` the object whose methods perform them statement by statement,
`BindingSafety` the invariant and the provenance of every peer and code, `BindingProperties` the
properties that span operations, `BindingOutcomes` when each operation gives which answer and exactly which
rows it leaves.

**The attempt limit.** `Journal` counts failures and says who is refused; `AttemptLimiter` lets attempts
overlap.

**Smaller pieces.** `LinkCommand` (over `Text`) parses the link command and normalizes codes, `Sanitizer`
cleans event trees, `ErrorPolicy` escalates connection failures.

Modelling decisions. UUIDs are natural numbers; a binding's id is its position in the table, which only
grows. Clock readings, messenger verdicts, drawn codes, lock hashes and the message identity are inputs.
A deadlock is a state that only an abort resolves; the database, which looks for deadlocks, then aborts one
of the deliveries, and its message comes again.
An operation on bindings has three clock readings: at the limit check, at its later decisions, and of its
journal row. Only the part of a journal row's details that the limiter reads, the peer, is kept. Event
trees treat whatever is neither a dictionary nor a list (a tuple, say) as a scalar, as the code does.

Where the code and the repository's README.md differ, the code is followed:

- README.md:328-355 says that the durable consumer is not registered and that commands are not consumed;
  src/clients/nats/client.py:96-145 registers it and src/clients/nats/consumers consumes.
- README.md:218 promises at most `VK_CONFIRMATION_MAX_ATTEMPTS` failures per peer and window. The check
  and the row it leads to are separate statements without a lock, so this holds exactly when attempts of
  one peer do not overlap: `AttemptLimiter.LimitHoldsIffNoOverlap`. With at most k in flight the exact
  bound is `max_attempts + k - 1`, whatever other peers do.
- The journal rows `conflict_active` and `conflict_blocked` (src/core/services/vk_binding.py:74-87) never
  persist: the error that follows them makes the HTTP session roll back (src/utils/database.py:12-19). See
  `BindingProperties.ConflictsNeverPersist`.

## Model

| member | source | states |
|---|---|---|
| DeliverySerial.Serializable | src/repositories/vk_notification_delivery.py:17-56 | For every interleaving, abort, crash and lock hash, the committed ledger is the serial run of the committed deliveries in commit order, with the same snapshots and verdicts, and each of them sent to the same peers and raised the same retry flag as in that serial run |
| DeliverySerial.InStepFrame | src/repositories/vk_notification_delivery.py:18-30 | Rows committed by others, outside what a transaction has locked, leave it exactly where a run started afterwards would be |
| DeliverySerial.TouchedByOne | src/repositories/vk_notification_delivery.py:18-21 | Two open transactions never have the same row locked, whatever the hash |
| DeliverySerial.EndKeepsInv | src/clients/nats/handlers/notification_commands_send_vk.py:44-52 | A commit or an abort frees the locks of that transaction only and keeps every other transaction in step with a serial run |
| DeliveryCounting.ExactSends | src/core/services/vk_notification_delivery.py:34-51 | In every interleaved run the successful sends for a recipient are 1 if the committed row is SENT, plus the aborted transactions that had sent, plus at most 1 open transaction that has sent; without aborts after a send they are at most 1 |
| DeliveryCounting.LedgerShape | src/repositories/vk_notification_delivery.py:29-81 | In every reachable committed ledger no row is PENDING, sent_at is set iff SENT, last_error iff FAILED, attempts is the number of committed transactions that claimed the key, and a row exists iff there is one |
| DeliveryCounting.SentIsFinal | src/repositories/vk_notification_delivery.py:29-30 | A committed SENT row is unchanged in every continuation of the run |
| DeliveryCounting.AckMeansSent | src/clients/nats/consumers/notification_commands_send_vk.py:76-87 | Whenever a transaction has committed without the retry flag, which is when its message is acked, each listed recipient active in its snapshot has a committed SENT row, then and ever after |
| DeliveryProgress.NoDeadlock | src/core/services/vk_notification_delivery.py:34-40 | If no two rows that deliveries of the run may lock share a lock and copies of an event list recipients in one order, or if the run's recipients all hash alike, some open delivery can always step without an abort; what other keys hash to does not matter |
| DeliveryProgress.HolderIsAhead | src/repositories/vk_notification_delivery.py:18-21 | When the rows the transactions may lock have locks of their own and lists agree, the holder of the lock a delivery waits for is at the same recipient, past its lock, or at a later one |
| DeliveryProgress.HolderIsFree | src/repositories/vk_notification_delivery.py:18-21 | When their recipients hash alike, the holder of the lock waits for nobody |
| DeliveryProgress.WorkersCanFinish | src/core/services/vk_notification_delivery.py:34-53 | From every state such a run reaches, a continuation without aborts, no longer than the work left, commits every open delivery |
| DeliveryDeadlock.CollisionsCanDeadlock | src/repositories/vk_notification_delivery.py:18-21 | Any collision of the two-part lock, unless all recipients hash alike, lets a run with agreeing copies reach a state that only an abort resolves |
| DeliveryDeadlock.DeadlockFreeExactly | src/repositories/vk_notification_delivery.py:18-21 | Runs with agreeing copies never get stuck, and can always be finished, if and only if no two rows share a lock or all recipients hash alike |
| DeliveryDeadlock.AgreementIsNeeded | src/core/services/vk_notification_delivery.py:34-40 | Without agreement on the lists runs never get stuck if and only if all recipients hash alike |
| DeliveryDeadlock.OppositeOrdersDeadlock | src/repositories/vk_notification_delivery.py:18-21 | Two lists in opposite orders, of one event or of two events whose hashes are equal, stop two deliveries for good |
| DeliveryDeadlock.SharedUserHashDeadlocks | src/repositories/vk_notification_delivery.py:18-21 | Two recipients with equal hashes and a third between them stop two copies of one command whose snapshots differ |
| DeliveryLoop.DeliverToRow | src/core/services/vk_notification_delivery.py:34-51 | With distinct recipients each row after the loop depends only on its own earlier row and its own verdict |
| DeliveryLoop.DeliverToFailed | src/core/services/vk_notification_delivery.py:33-53 | The retry error is raised exactly when some attempted recipient was refused |
| DeliveryLoop.UnfailedRunSends | src/core/services/vk_notification_delivery.py:41-53 | A delivery without the retry error leaves every listed active recipient SENT |
| DeliveryLoop.DeliveryIsRecorded | src/core/services/vk_notification_delivery.py:34-51 | After the loop each attempted recipient's row has the peer written to, its verdict and one attempt more, and every other row is as before; the retry error is raised iff one of them was refused |
| DeliveryLoop.SettledRow | src/repositories/vk_notification_delivery.py:32-81 | A claim followed by its mark counts one attempt more, records the peer written to, and is SENT with a time or FAILED with the error category |
| DeliveryLedger.DeliveryRepository.ClaimAttempt | src/repositories/vk_notification_delivery.py:17-56 | Refuses exactly the SENT rows and changes nothing then; otherwise the row is claimed and returned |
| DeliveryLedger.DeliveryRepository.MarkSent | src/repositories/vk_notification_delivery.py:58-69 | Marks an existing row SENT; a missing row is an error that changes nothing |
| DeliveryLedger.DeliveryRepository.MarkFailed | src/repositories/vk_notification_delivery.py:71-81 | Marks an existing row FAILED with the first 64 characters of the category |
| DeliveryCommand.DedupKeepsFirstListings | src/core/schemas/messaging/notification_command_send_vk.py:18-21 | Deduplication loses no recipient, repeats none, and keeps the order of first listing |
| DeliveryCommand.FirstListingOrderIsUnique | src/core/schemas/messaging/notification_command_send_vk.py:18-21 | These three promises leave only one possible list |
| DeliveryService.Validate | src/core/schemas/messaging/notification_command_send_vk.py:13-29 | Accepts exactly a non-empty recipient list with a text of at most 4096 characters that is not blank; keeps the identities, strips the text and lists each recipient once |
| DeliveryService.DeliverCommand | src/core/services/vk_notification_delivery.py:26-53 | The loop leaves the rows and the error of the loop function and sends the text to its peers in order; it is interrupted exactly when it gets to the statement that raises, having made the sends before it |
| DeliveryService.PeersWrittenTo | src/core/services/vk_notification_delivery.py:27-43 | One delivery writes to no peer twice, to exactly the peers of listed users with a live ACTIVE binding and no SENT row, in order of first listing |
| DeliveryService.Worker.Handle | src/clients/nats/handlers/notification_commands_send_vk.py:25-52 | Rejects exactly invalid commands and wrong identities, without a send; commits exactly when no statement raised, after success and after a retryable failure alike; anything else leaves the ledger as it was |
| DeliveryService.Worker.ProcessMessage | src/clients/nats/consumers/notification_commands_send_vk.py:79-87 | A message processed to its end sends the stripped text to each attempted recipient in order, records every verdict, and is acked iff nobody was refused, every active recipient then being SENT; any other message leaves the ledger alone and is nak'd, unless cancelled; a rejected one sends nothing |
| DeliveryService.Worker.ProcessBatch | src/clients/nats/consumers/notification_commands_send_vk.py:76-77 | The messages of a fetch are delivered one after another, each on the rows left by those before it and answered once by its own rule, up to the first cancellation; SENT rows stay |
| Convergence.ScriptedMessenger.SendMessage | src/smoke_harness/messenger.py:28-38 | A planned peer's send is counted and succeeds by its plan: always, never, or from the second on; an unplanned peer's fails uncounted |
| Convergence.DeliverScripted | src/core/services/vk_notification_delivery.py:33-53 | The loop that asks the messenger anew at every recipient leaves the rows, counters and retry flag of the redelivery the next rows are about |
| Convergence.Converges | src/core/services/vk_notification_delivery.py:33-53 | After n deliveries a recipient whose first f sends fail has had min(n, f + 1) attempts and is SENT iff n > f |
| Convergence.AckedExactly | src/clients/nats/consumers/notification_commands_send_vk.py:79-87 | The n-th delivery is acked iff n exceeds every active recipient's number of failures |
| Convergence.DeliverUntilAcked | src/clients/nats/client.py:134-145 | The first ack is delivery 1 + max f if max_deliver allows it; otherwise all max_deliver deliveries happen and a recipient that always fails ends FAILED with max_deliver attempts |
| BindingTables.SnapshotExact | src/repositories/user_vk.py:66-74 | Under the two unique indexes the snapshot holds exactly the listed users with a live ACTIVE bound row, and gives different users different peers |
| BindingService.VkService.Create | src/repositories/user_vk.py:24-49 | A second live row of an owner is refused and the session falls back to what is committed; otherwise an unbound PENDING row is appended |
| BindingService.VkService.Activate | src/repositories/user_vk.py:85-118 | A missing or deleted row changes nothing; a peer held by another live row makes the session fall back to what is committed; otherwise only this row is bound |
| BindingService.VkService.SetState | src/repositories/user_vk.py:120-139 | Only a live row's state changes |
| BindingService.VkService.SoftDelete | src/repositories/user_vk.py:141-158 | Afterwards the owner has no live row; every other row is as before |
| BindingService.VkService.EnsureBinding | src/core/services/vk_binding.py:54-66 | Returns the owner's live row, created exactly when neither the first read nor the insert meets one; after a lost insertion race the row reread, or the violation when that is gone as well |
| BindingService.VkService.CreateUniqueCode | src/core/services/vk_binding.py:115-122 | The first of at most five draws that no stored code equals |
| BindingService.VkService.IssueConfirmation | src/core/services/vk_binding.py:68-113 | Leaves the tables of the issue operation, refusals included, begun on what other requests had committed by the insert |
| BindingService.VkService.PostIssueConfirmation | src/utils/database.py:12-19 | Success commits the issue; an error leaves all three tables as committed by others, which is as they were when nobody interfered |
| BindingService.VkService.EnforceRateLimit | src/core/services/vk_confirmation.py:153-163 | Refuses exactly at the limit and journals the refusal only |
| BindingService.VkService.ConfirmCode | src/core/services/vk_confirmation.py:46-141 | Leaves the tables and the outcome of the confirm operation in each of its cases; if other requests commit before the activation, a peer they took is journalled and refused as a conflict, and a row they deleted is an exception that leaves nothing |
| BindingService.StraddlingConfirm | src/core/services/vk_confirmation.py:105-128 | If they left the code and the row alone and the peer under the limit, the confirmation ends exactly as one that began after them |
| BindingService.VkService.UnlinkOwner | src/core/services/vk_binding.py:124-163 | Leaves the tables of the unlink operation and names the peer to notify |
| BindingService.VkService.MoveTo | src/core/services/vk_state.py:32-58 | Leaves the tables of the state transition, journalled either way |
| BindingService.VkService.OnMessage | src/bot/handlers.py:63-91 | Leaves the tables and the answer of the message operation, committed unless the confirmation raised; other requests before the activation matter to a link only |
| BindingService.VkService.OnMessageDeny | src/bot/handlers.py:116-121 | Leaves the tables of the deny operation, committed |
| BindingService.VkService.OnMessageAllow | src/bot/handlers.py:123-128 | Leaves the tables of the allow operation, committed |
| BindingOutcomes.RefusedIffOverLimit | src/core/services/vk_confirmation.py:153-163 | A confirmation is refused iff the peer has max_attempts failed rows since the window start, whatever it sends, a waiting code included; the refusal leaves one rate_limited row and nothing else |
| BindingOutcomes.ConfirmAnswers | src/core/services/vk_confirmation.py:61-141 | Under the limit, each of the other seven answers has its exact condition on the tables: the code's state and expiry, the row, and who holds the peer |
| BindingOutcomes.ConfirmLeaves | src/core/services/vk_confirmation.py:61-163 | One journal row of the peer with the status of the answer; a link binds the code's row and uses that code, and no other answer changes a binding or code |
| BindingOutcomes.ActivationDecides | src/core/services/vk_confirmation.py:114-141 | A confirmation that finds other tables at its activation is decided by the row and the peer alone, and leaves exactly that |
| BindingOutcomes.MessageAnswers | src/bot/handlers.py:67-91 | A message of a conversation is ignored whatever its text; in a dialog the reply depends on whether the first word is the command and whether a word follows |
| BindingOutcomes.MessageLeaves | src/bot/handlers.py:67-91 | A message without a code leaves its own journal row naming the dialog and nothing else; one with a code leaves what the confirmation by its sender leaves |
| BindingOutcomes.DenyBlocks | src/core/services/vk_state.py:24-58 | In any state a deny makes the peer's live row BLOCKED and leaves all others; no delivery reaches the peer then; a repeated deny changes no row; the journal says success iff there was a row |
| BindingOutcomes.AllowActivates | src/core/services/vk_state.py:28-58 | In any state an allow makes the peer's live row ACTIVE and leaves all others, journalled in the same way |
| BindingOutcomes.EnsureAdds | src/core/services/vk_binding.py:54-66 | The owner's live row stays, or an unbound PENDING one is appended; nothing else changes |
| BindingOutcomes.EnsureWorksOn | src/core/services/vk_binding.py:56-66 | Interrupted by other requests, an ensure works on its first read, else on what the insert finds, else on what the reread finds |
| BindingOutcomes.IssueAnswers | src/core/services/vk_binding.py:68-122 | An issue is refused as active, as blocked or for want of a code exactly in those cases, and otherwise gives the first free of five draws |
| BindingOutcomes.IssueLeaves | src/core/services/vk_binding.py:89-113 | A successful issue adds the code, stamps the row's unused ones with the time and leaves every other; a refused one leaves everything |
| BindingOutcomes.UnlinkLeaves | src/core/services/vk_binding.py:124-154 | An unlink deletes the owner's live row and stamps its unused codes; all other rows and codes stay; success iff there was a row |
| BindingSafety.RunKeepsInv | src/models/user_vk.py:36-47 | Over every serial run: at most one live row per user and per peer; PENDING iff the peer is null, deleted rows included; at most one unused code per row; a row with an unused code is live and PENDING |
| BindingSafety.ActivationProvenance | src/core/services/vk_confirmation.py:59-141 | Every row with a peer got it from a confirmation by that peer, then under the limit and in a direct dialog, with a code that was unused, the row's own, and strictly before its expiry |
| BindingSafety.ConfirmedOnce | src/core/services/vk_confirmation.py:70-141 | No row and no code is confirmed twice in a run |
| BindingSafety.PeerNeverChanges | src/repositories/user_vk.py:85-118 | Once set, a row's peer stays for the rest of the run |
| BindingSafety.EveryCodeWasIssued | src/core/services/vk_binding.py:89-98 | Every stored code was issued by a successful issue for the owner of the row it is stored under |
| BindingProperties.IssueAllOrNothing | src/core/services/vk_binding.py:68-122 | Issuing fails iff the owner is bound or all draws collide, and then changes nothing; success gives a never-stored code with the configured expiry, the only unused one of the owner's live PENDING row |
| BindingProperties.ReplayIsStable | src/core/services/vk_confirmation.py:70-87 | After a link, until an unlink or deny and while under the limit, every submission by the peer of any used code of the row is answered already_confirmed, changes no binding or code and adds no counted failure |
| BindingProperties.IssuedCodeLinks | src/bot/handlers.py:63-114 | In a run that issued a code, a direct message that carries it, in any casing and layout, before the expiry, from a free peer under the limit, binds the row it was issued for iff nothing since used the code, unlinked the owner or issued the owner another; it then changes that row and code only |
| BindingProperties.UsableUntilEnded | src/core/services/vk_binding.py:89-98 | Over a run an unused code stays as it is exactly until an operation uses it, unlinks its owner or issues the owner another |
| BindingProperties.MessagesLogOnce | src/bot/handlers.py:67-91 | Every message leaves exactly one journal row, a counted one exactly for the four failed outcomes, and changes bindings or codes only when it links |
| BindingProperties.DenyThenAllow | src/core/services/vk_state.py:24-58 | A denied peer is in no delivery snapshot; allowing it again restores the bindings exactly |
| BindingProperties.UnlinkSevers | src/core/services/vk_binding.py:124-163 | After an unlink the owner has no live row, is in no delivery snapshot and has no code that can still link; the peer is notified iff the binding was ACTIVE; unlinking again changes no binding or code |
| BindingProperties.AttemptsAreLimited | src/core/services/vk_confirmation.py:153-163 | Over every serial run no closed window of the configured length holds more than max_attempts counted failures of a peer |
| BindingProperties.ConflictsNeverPersist | src/core/services/vk_binding.py:74-87 | Over every serial run no journal row carries conflict_active or conflict_blocked |
| BindingProperties.RefusedIssueLogsConflict | src/core/services/vk_binding.py:74-87 | Before the rollback such a row is written exactly when the owner's live row is already bound |
| Journal.RefusesByRows | src/repositories/vk_log.py:41-57 | The limiter counts the confirmation rows of this peer with one of the four failed statuses from the window start on, and refuses iff there are max_attempts of them |
| Journal.WindowByRows | src/repositories/vk_log.py:50-57 | A closed window counts those of them that are not past its end |
| Journal.RefusedIffRecent | src/repositories/vk_log.py:41-57 | An attempt is refused iff the max_attempts-th most recent counted failure of the peer lies inside the window |
| Journal.NewestFirstSorts | src/repositories/vk_log.py:41-57 | The order by recency used there is a descending rearrangement of the peer's counted failures |
| Journal.ReadmissionIsUnmoved | src/core/services/vk_confirmation.py:18-18 | Refusals, error rows and rows of other peers, however many, never change the decision |
| AttemptLimiter.OverlappingAttemptsBound | src/core/services/vk_confirmation.py:59-128 | With at most k attempts of this peer between check and row, and any overlap of others, every closed window holds at most max_attempts + k - 1 counted failures of the peer |
| AttemptLimiter.OverlapBoundIsReached | src/core/services/vk_confirmation.py:153-163 | For every peer and k some run reaches that bound |
| AttemptLimiter.LimitHoldsIffNoOverlap | src/core/services/vk_confirmation.py:153-163 | The documented limit holds for a peer, in all runs in which at most k of its attempts overlap, iff k is 1 |
| LinkCommand.CommandRoundTrip | src/core/services/vk_code.py:17-19 | Any letter case, padding, separators or trailing words still parse and normalize to exactly the code |
| LinkCommand.CarriedCodeIsParsed | src/bot/handlers.py:31-41 | A text whose first word is the command in any case and whose second word is a code parses to that word |
| LinkCommand.ParsedCodeIsCarried | src/bot/handlers.py:31-41 | No other text yields a code |
| LinkCommand.UnmatchableCommandNeverParses | src/bot/handlers.py:31-41 | A configured command that is empty or contains a blank matches no text |
| LinkCommand.NormalizeRestores | src/core/services/vk_code.py:17-19 | Any casing of a code normalizes back to it |
| LinkCommand.NormalizeExactly | src/core/services/vk_code.py:17-19 | No other text does: only a casing of the code with blanks around it |
| LinkCommand.ParserAnswers | src/bot/handlers.py:31-41 | No answer iff the first word is not the command, an empty code iff only blanks follow it, a code iff the text carries it |
| LinkCommand.AlphabetExactly | src/core/services/vk_code.py:5-5 | The alphabet is the capital letters but I and O and the digits from 2 on |
| Text.SplitStrip | src/bot/handlers.py:33-36 | Stripping first does not change the words, and leaves nothing exactly when there are none |
| Text.StripExactly | src/core/services/vk_code.py:17-19 | Stripping takes away all blanks at both ends and nothing else |
| Text.BlanksExactly | src/bot/handlers.py:33-36 | The blanks are tab, line feed, vertical tab, form feed, carriage return, space and the four separators |
| Text.LettersChangeCase | src/core/services/vk_code.py:17-19 | Case conversion pairs off the 26 letters and leaves other characters alone |
| Sanitizer.PlainPathsSurvive | src/utils/configure_sentry.py:25-35 | Along keys that are neither dropped nor sensitive and list indices, everything is found where it was, sanitized below |
| Sanitizer.PlainScalarsSurvive | src/utils/configure_sentry.py:25-35 | Such a path leads to a scalar after cleaning iff it led to that scalar before |
| Sanitizer.MarkedKeysAreCleared | src/utils/configure_sentry.py:25-35 | At every dictionary reached, keys spelled data or body in any case are gone and a key that names a credential holds the marker, with nothing below, exactly where it was present |
| Sanitizer.KindsSurvive | src/utils/configure_sentry.py:25-35 | Along such paths lists keep their length and dictionaries all keys in order but data and body |
| Sanitizer.SanitizeIdempotent | src/utils/configure_sentry.py:25-39 | Cleaning twice is cleaning once, at any depth |
| Sanitizer.MarkedNames | src/utils/configure_sentry.py:11-31 | A key is dropped iff it spells data or body in any case, and masked iff it spells one of the ten listed names up to letter case and dash against underscore |
| ErrorPolicy.ConnectionErrorPolicy.OnError | src/clients/nats/lifecycle.py:36-54 | One failure more; an error-level record exactly when the patience is first exceeded |
| ErrorPolicy.OneReportPerOutage | src/clients/nats/lifecycle.py:32-65 | Error-level records are as many as the stretches between resets with more failures than the patience; the counter holds the failures since the last reset |

## Left out

- The bindings are proved for operations one at a time: the code takes no lock between the statements of issue, confirm and unlink, so runs that interleave them are not modelled. What other requests may commit in the middle of one operation is modelled at the two statements where the code reckons with it, the insert of a binding and the activation.
- Columns that decide nothing (row ids, created_at, updated_at of bindings, masked codes and other journal details) and column widths other than last_error; attempts is unbounded, where the column has 32 bits.
- A commit either happens or does not; a connection lost during a commit is one of the two.
- Ack and nak are taken to reach the broker; an ack that is lost is a further delivery of the same command.
- Text beyond ASCII: case folding, upper and lower case and blanks are those of ASCII.
- The consumer's endless fetch loop, its start and stop, and the waits between failures: one fetch at a time is modelled.
- The name-based message identity (section 5.5 of RFC 9562) is an arbitrary function.
- VK API calls, long polling, replies to the user, the HTTP routes and their schemas, settings, migrations, the Celery probe, metrics and the main-backend client.
- The smoke harness beyond its messenger: guards, topology and cleanup.
- The randomness of drawn codes: any five non-empty strings over the alphabet.
