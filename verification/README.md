# SafeChat: verified models

A Dafny model of the protocols at the core of SafeChat: the chat service and the relay queue it talks to, the Signal
device state that is kept in memory and in SQLite, request authentication and enrollment on the relay, the binary
frames that all of them exchange, and the image carrier with its detector. `dafny verify dfyconfig.toml` checks the
whole project.

## How the model is built

Code that changes state is modelled twice. A function on values says what an operation does to its state, with the
source's branches, error conditions and constants. A class with the source's fields has the operation as a method that
updates those fields in the source's order, and the method's postcondition equates the new state and the result with
the function applied to the old state. The theorems are about the functions, over all runs of them. For each operation
there is also a statement of when it succeeds and what it leaves, in terms of the stored rows, fields and bytes.

| part | values and theorems | classes |
|---|---|---|
| delivery | ChatView, RelayQueue, RelayAnswers, DeliverySteps, Delivery, DeliveryRuns, ChatCalls, SendOutcome, PollOutcome, Sending, Shown, Conversation, LostMail, Drain, Stall, Progress, Blocked | ChatService, RelayQueue |
| Signal device | SignalDevice, SignalCalls, SignalInventory, SignalRatchet, SignalTrust, SignalAccess, SignalProvenance, SignalBundles, SignalStorage, SignalAnswers, Replacement | SignalState |
| relay authentication | RelayAuth, RelayClient | RelayAuth, RelayClient |
| relay enrollment | RelayEnrollment, Registration, EnrollmentRuns, EnrollmentChain | RelayDatabase |
| relay frames | Bytes, Utf8, Fields, RelayFrames, FrameLayouts | RelayProtocol |
| adapter frames | SignalFrames, FrameLayouts | SignalCodecs |
| carrier and detector | Carrier, Detector | (arrays and loops in the same modules) |

**Delivery.** A run interleaves, step by step, any number of clients with any number of conversations on one mailbox
each, and other programs that use the same relay. Every call that leaves the process can take effect and report
success, never take effect, or take effect and report an error; a process may reload an older saved history at any
point. Module ChatCalls shows that the calls `send_text` and `poll`, with any failures, are runs of these steps.

**Signal device.** A session is reduced to the sending chains its record holds: for each, the identity its state was
set up with and the position it would use next. libsignal refuses to encrypt in a session set up with another identity
than the trusted one, and to decrypt a message that is not initial unless some state of the record was set up with the
trusted one. Every statement and library call that can fail is a named fault that the surroundings choose for each
call. A reopen is a call like any other. libsignal's randomness enters as conditions on steps: a chain it starts was
not drawn before.

**Relay.** Each locked handler is one step on the tables; the two administrative commands that are not transactions are
two statements of which the second may not be reached. Random challenges and tokens were not drawn before.

## What the code does, where its documentation or its names suggest more

- `trust_peer` says that a changed identity needs explicit recovery. It looks at memory only
  (codebase/core/src/signal_adapter.rs:769), so an identity that is on disk but not loaded is replaced:
  SignalProvenance.TrustChecksMemoryOnly and SignalProvenance.IdentityChangeIsRefusedIffLoaded.
- `accept_recovery` deletes the session row and then writes a loaded session back
  (codebase/core/src/signal_adapter.rs:962-979): SignalStorage.RecoveryKeepsALoadedSession. That session belongs to the
  old identity, so the peer cannot be written to until it is revoked and trusted again or sends an initial message:
  SignalAccess.RecoveryShutsOut and SignalAccess.ShutOutUntilRenewed. `trust_peer` can do the same after a reopen:
  SignalAccess.TrustShutsOut.
- The rotation time is written after the snapshot, in a statement of its own
  (codebase/core/src/signal_adapter.rs:832-847). If it fails, or the snapshot fails and the process goes on, the next
  maintenance rotates again and a key that was just exported is dropped. A reopen helps after a failed snapshot and
  not after a failed time stamp: SignalBundles.NewestKeySurvivesIff.
- The restocking loop counts keys, not turns; with ids close to `u32::MAX` it does not end:
  SignalInventory.RestockEndsIffHeadroom. The methods of SqliteSignalState that maintain keys ask for that headroom.
- `poll` decrypts before it saves (codebase/application/src/chat_service.rs:157-188). A crash between the two makes the
  message stale: LostMail.CrashLosesMail. So does a decryption that fails after it has opened the message, when the
  process goes on: with no session row on disk the next call keeps the session that has used the message up
  (codebase/core/src/signal_adapter.rs:1211-1225 and 1309-1326, SignalStorage.FailedDecryptionStandsIffNoRow), `poll`
  takes that for an old message and acknowledges it: LostMail.FailedDecryptionLosesMail.
  DeliveryRuns.AcknowledgedIsShownOrLost says exactly which messages are lost.
- The relay selects at most 100 rows and then encodes them; if they do not fit one body the request fails, and so does
  every later one for the same rows (codebase/relay/src/messages.rs:120-141): Progress.StalledOnBytesIff.
- `poll` stops at a message that does not open and never acknowledges mail from others. The first blocks its
  conversation: Blocked.NothingBehind. A hundred rows from senders without a conversation, or from blocked ones, crowd
  out the mail behind them in every other conversation: Stall.WhyStuck.
- A bundle's prekey flag other than 0 and 1 is accepted and read as absent, so accepted bundles have more than one
  encoding: SignalFrames.BundleReencodesIff.
- `verify_signature` reads the clock three times: RelayAuth.SeparateReadingsAdmitAReplay.
- Revocation on the relay is two statements: EnrollmentRuns.InterruptedRevocationRestoresTheToken.
- The threshold search never tries a threshold above every score. When no score flags more encoded samples than clean
  ones it misses the best threshold: Detector.ChoiceIsBestOfAllIff.

## Model

| member | source | states |
|---|---|---|
| DeliveryRuns.CursorNeverSkipsMail | codebase/application/src/chat_service.rs:148-211 | In every run, mail in the relay for a conversation that is not acknowledged lies above that conversation's cursor, in memory and on disk, through interleaved polls of one mailbox, 100-row pages, calls that stop half way and reloads of older histories. |
| DeliveryRuns.HistoriesHaveNoDuplicates | codebase/application/src/chat_service.rs:172-188 | In every run no history, in memory or saved, holds two entries with one message id. |
| DeliveryRuns.RelayStoresOnce | codebase/relay/src/messages.rs:68-103 | In every run the relay has at most one row for a (sender, recipient, message id), and all rows of one sender and message id carry the same envelope. |
| DeliveryRuns.OutboxMatchesRow | codebase/application/src/chat_service.rs:114-146 | In every run the row stored for an outbox entry carries the bytes the entry holds: retries resubmit the original envelope. |
| DeliveryRuns.RunsOnlyAdvance | codebase/relay/src/messages.rs:68-103 | Along every run row ids only rise and are not reused, a row keeps all its fields but the acknowledgement, an acknowledgement stands, and saved histories lose no entry, move no delivery status back and lower no cursor. |
| DeliveryRuns.ReadMeansAcknowledged | codebase/application/src/chat_service.rs:95-109 | In every run an entry marked `read` has an acknowledged row on the relay. |
| DeliveryRuns.AcknowledgedIsShownOrLost | codebase/application/src/chat_service.rs:149-197 | In every run acknowledged mail from another client is in a history of its recipient exactly when it is not among the lost messages, and a message is lost only by a reload that forgets an unsaved entry, by a payload that is not text, or by a decryption that uses the message up and fails. |
| DeliveryRuns.AcknowledgedIsSaved | codebase/application/src/chat_service.rs:149-197 | In runs in which nothing fails from decryption until save and payloads are text, acknowledged mail is in its recipient's saved history, however often sends and acknowledgements are lost or repeated; for mail to oneself, if no unsaved entry is submitted. |
| DeliveryRuns.SentIsSaved | codebase/application/src/chat_service.rs:50-85 | In runs that submit no entry whose save failed, every row of a client of the service is in a saved history of its sender. |
| DeliveryRuns.ReadMeansDelivered | codebase/application/src/chat_service.rs:87-197 | In such runs an entry shown as `read` belongs to a row whose recipient, if it is a client of the service, has the message in a saved history. |
| LostMail.CrashLosesMail | codebase/application/src/chat_service.rs:157-188 | The condition on saves is needed, as a run from the beginning: in every system that is just set up, for every conversation and every text its peer sends, a poll whose save fails, a restart and a poll in which nothing fails end with the message acknowledged and in no history of its recipient, in memory or saved. |
| LostMail.FailedDecryptionLosesMail | codebase/application/src/chat_service.rs:157-168 | So is the condition on decryptions: without any restart, a poll whose decryption uses the message up and fails and a poll in which nothing fails end in the same way. |
| Delivery.NextInv | codebase/application/src/chat_service.rs:50-212 | Every step of every party keeps the invariant of the protocol: cursors, pages, histories, rows, opened envelopes and lost messages agree. |
| Delivery.NextTraced | codebase/application/src/chat_service.rs:148-197 | What one step may add to, open in, drop from or lose from the histories, whichever party takes it. |
| DeliverySteps.PerformGrows | codebase/application/src/chat_service.rs:58-211 | Every step of the service except a reload only adds entries, moves statuses forward and raises the cursor, and saved histories stay prefixes of that order. |
| DeliverySteps.PerformRelay | codebase/relay/src/messages.rs:52-214 | Every step of the service changes the relay only as the relay allows: ids rise, rows keep their fields, acknowledgements stand. |
| DeliverySteps.PerformCursor | codebase/application/src/chat_service.rs:195-211 | Every step keeps the cursor behind all unacknowledged mail of its conversation and the rest of a fetched page complete up to its last row. |
| DeliverySteps.PerformRead | codebase/application/src/chat_service.rs:95-109 | Every step keeps every `read` entry backed by an acknowledged row. |
| ChatCalls.PollRuns | codebase/application/src/chat_service.rs:87-202 | A whole `poll`, with any failures, is a run of the fine steps the run theorems speak about. |
| ChatCalls.SendTextRuns | codebase/application/src/chat_service.rs:50-85 | So is a whole `send_text` under an unused message id. |
| SendOutcome.SendTextSucceedsIff | codebase/application/src/chat_service.rs:50-85 | A send under an unused id succeeds exactly if neither save nor the submission fails and the relay knows the recipient; then the relay has the row, with this envelope if it is new, the entry is behind the old ones and `sent`, that is saved, and the event carries the text. |
| SendOutcome.SendTextOutcome | codebase/application/src/chat_service.rs:50-85 | Whatever fails: the entry is `sent` only if the relay has answered, the message is on the relay if the submission got there, nothing is submitted if the first save failed, no other row changes, and what is saved is the old history, the queued entry or the sent one, as far as the call got. |
| PollOutcome.TakeSucceedsIff | codebase/application/src/chat_service.rs:149-197 | Handling a message succeeds exactly if it is someone else's, or was used up before, or opens and is in the history or is text that is saved, and the relay takes the acknowledgement; then it is acknowledged, the cursor is raised to it, and its event is `Stale`, `Received` with the contact's name and the text, or none. |
| PollOutcome.TakeShows | codebase/application/src/chat_service.rs:172-194 | Whatever fails, a message opened for the first time whose id is new and that is text is added with the contact's name, its text and its envelope, and nothing else is; what is saved is that. |
| PollOutcome.TakeFailsHow | codebase/application/src/chat_service.rs:157-195 | Handling fails because the message does not open, is not text, cannot be saved or, after that, cannot be acknowledged, in this order; the rest of the page is given up and the cursor stays. |
| PollOutcome.RetriesTryAll | codebase/application/src/chat_service.rs:114-146 | Every outbox entry is resubmitted whatever becomes of the others: with saves that succeed an accepted one is `sent`, any other still queued, and one whose submission gets to a relay that knows its recipient has a row. |
| PollOutcome.RetriesEndIff | codebase/application/src/chat_service.rs:114-146 | The retry loop runs to its end exactly if every accepted resubmission can be saved. |
| PollOutcome.FetchOutcome | codebase/application/src/chat_service.rs:148-148 | A request for a page purges the relay if it gets there and yields the page exactly if the answer comes back. |
| PollOutcome.PollSucceedsIff | codebase/application/src/chat_service.rs:87-202 | A poll succeeds exactly if the marks can be saved, the retries end, the page comes, all its messages can be handled and the rest can be saved; it fails with the error of the first that does not hold. |
| PollOutcome.PollShows | codebase/application/src/chat_service.rs:149-197 | However it ends, a poll adds only messages of the contact behind the entries there are, each with its own text and the contact's name. |
| PollOutcome.PollAnnounces | codebase/application/src/chat_service.rs:87-202 | If it succeeds, its first events are the entries newly read, and the messages announced are exactly those added, in order. |
| PollOutcome.RefreshAnnounces | codebase/application/src/chat_service.rs:95-109 | The status loop announces exactly the entries it marks, with their texts, in order. |
| PollOutcome.PollSaves | codebase/application/src/chat_service.rs:110-112 | After a poll that succeeds what is saved is what is in memory, or neither has changed. |
| Shown.HistoriesShowTheText | codebase/application/src/chat_service.rs:172-192 | In every run a received entry, in memory or saved, shows the contact's name and the text that was sealed, and an own one shows `you` and the text that was sealed. |
| Shown.BothEndsShowTheSame | codebase/application/src/chat_service.rs:50-194 | In every run two entries with one message id show the same text, whoever's they are. |
| Shown.StatusLoopMarksIff | codebase/application/src/chat_service.rs:95-109 | In every run the status loop turns an entry `read` exactly if it is an own one that is `sent`, the query reaches the relay, and the oldest row of the message is acknowledged. |
| Shown.AcknowledgedIsShownAsRead | codebase/application/src/chat_service.rs:95-109 | In every run a poll whose query for a sent message reaches the relay shows it as read if its oldest row is acknowledged, whatever else of the poll fails. |
| Conversation.MessageArrives | codebase/application/src/chat_service.rs:50-202 | From every system that is just set up there is the run in which one client sends a text, the other's poll shows, saves, announces and acknowledges it under its contact's name, and the sender's poll shows, saves and announces that it was read. |
| Drain.RoundMakesProgress | codebase/application/src/chat_service.rs:148-197 | With no failure, no new mail and a conversation for every sender, one round of polls, in any order and with its own clock readings, leaves strictly fewer unacknowledged rows, in spite of the 100-row page. |
| Drain.MailboxDrains | codebase/application/src/chat_service.rs:148-197 | As many such rounds as there are unacknowledged rows, each with its own order and surroundings, leave none. |
| Stall.StalledIff | codebase/application/src/chat_service.rs:148-197 | Whatever page size the relay can answer with and whichever envelopes can be opened, no sequence of polls acknowledges anything exactly if at no clock reading any conversation can fetch a page that fits and on which the first message from its contact can be opened. |
| Progress.StalledOnBytesIff | codebase/relay/src/messages.rs:114-142 | The same with the relay's encoder: a page fits exactly if its fields are within their limits and 9 bytes plus the sizes of its rows are at most 16 MiB. |
| Stall.StalledForever | codebase/application/src/chat_service.rs:148-197 | A mailbox stalled like that stays as it is, but for rows that expire, through all polls, whatever else fails in them. |
| Stall.WhyStuck | codebase/application/src/chat_service.rs:148-162 | A conversation with mail waiting gets nowhere exactly if its page does not fit, the oldest message from its contact cannot be opened, or 100 older rows from others, which its polls never acknowledge, take up the page. |
| Progress.DrainsOrStalls | codebase/application/src/chat_service.rs:148-197 | Twice as many rounds over all conversations as there are unread messages, in which nothing fails that need not, leave a mailbox in which no polls acknowledge anything any more. |
| Blocked.NothingBehind | codebase/application/src/chat_service.rs:157-170 | As long as a message cannot be opened, no polls of any conversations acknowledge it or anything behind it that is for its conversation alone. |
| Drain.ReachableMailboxIsReady | codebase/application/src/chat_service.rs:148-211 | After any run, with whatever failures, a mailbox whose outboxes are empty satisfies what draining needs. |
| Sending.PollEmptiesOutbox | codebase/application/src/chat_service.rs:114-146 | A poll whose resubmissions succeed leaves the outbox empty, whatever becomes of the page it fetches. |
| Sending.PreparedEmptiesOutbox | codebase/application/src/chat_service.rs:95-146 | By the time such a poll fetches its page, every message that was in the outbox is on the relay. |
| Sending.ReportedReceiptIsShown | codebase/application/src/chat_service.rs:95-109 | A receipt the relay reports is shown after the poll, however much of the rest of the poll fails. |
| Sending.RefreshMarksExactly | codebase/application/src/chat_service.rs:95-109 | The status loop changes exactly the entries whose receipt is reported. |
| ChatService.ChatService.SendText | codebase/application/src/chat_service.rs:50-85 | Updates history, store and relay in place exactly as the function SendText: save before submission, submit, mark, save. |
| ChatService.ChatService.Poll | codebase/application/src/chat_service.rs:87-202 | The three loops of `poll`, in place, are exactly the function Poll, for every placement of failures; other conversations' files are kept. |
| ChatService.ChatService.RefreshStatuses | codebase/application/src/chat_service.rs:95-109 | The status loop in place: an entry becomes `read` only on a reply that says so. |
| ChatService.ChatService.RetryOutbox | codebase/application/src/chat_service.rs:114-146 | The retry loop in place: the outbox as it was when the loop began is resubmitted with its own ids and bytes. |
| ChatService.ChatService.HandlePage | codebase/application/src/chat_service.rs:149-197 | The page loop in place, including where it stops when a call fails. |
| ChatService.ChatService.TakeMessage | codebase/application/src/chat_service.rs:149-196 | One message: filter by sender, decrypt once, deduplicate, save, acknowledge, advance. |
| ChatService.ChatService.SettleMessage | codebase/application/src/chat_service.rs:195-211 | Acknowledge first, then raise the cursor to the row's id and never lower it. |
| RelayQueue.SendKeeps | codebase/relay/src/messages.rs:68-103 | A submission adds at most one row, under an id never used before, with the submitted bytes, and leaves every other row alone. |
| RelayQueue.SendIsIdempotent | codebase/relay/src/messages.rs:79-88 | Repeating a submission under the same key changes nothing, whatever bytes it carries, and is answered with the first row. |
| RelayQueue.PageCovers | codebase/relay/src/messages.rs:114-134 | A page omits a waiting row only if it is full and every row on it is older. |
| RelayQueue.PageRises | codebase/relay/src/messages.rs:120-120 | A page lists rows in strictly rising order of id. |
| RelayQueue.PurgeKeeps | codebase/relay/src/messages.rs:115-119 | Purging removes exactly the expired rows and keeps the table sound. |
| RelayQueue.AcknowledgeKeeps | codebase/relay/src/messages.rs:203-214 | Only the recipient's acknowledgement is accepted; it marks that row and no other. |
| RelayAnswers.SendStores | codebase/relay/src/messages.rs:68-103 | A submission succeeds exactly if the relay knows the recipient, and is answered with the one row of its sender, recipient and message id; if there was none, that is a new, unread row with the submitted bytes and expiry, and no other row changes. |
| RelayAnswers.PageIsExact | codebase/relay/src/messages.rs:114-134 | A page lists exactly the unread, unexpired rows of the recipient above the cursor that have fewer than 100 such rows before them. |
| RelayAnswers.PageShowsRows | codebase/relay/src/messages.rs:120-134 | It shows their stored fields and the sender's registered address, in rising order of id. |
| RelayAnswers.ReceivePurges | codebase/relay/src/messages.rs:115-119 | Asking for a page removes the rows that have expired and changes no other. |
| RelayAnswers.StatusIff | codebase/relay/src/messages.rs:159-178 | A message is `read` exactly if the oldest row of its sender and id is acknowledged, `sent` exactly if that is not, and not found exactly if there is none. |
| RelayAnswers.AcknowledgeIff | codebase/relay/src/messages.rs:203-214 | An acknowledgement succeeds exactly for the recipient of the row; it fills the row's time and changes nothing else. |
| RelayQueue.Relay.SubmitMessage | codebase/relay/src/messages.rs:68-103 | The send handler on the shared table, in place. |
| RelayQueue.Relay.ReceiveMessages | codebase/relay/src/messages.rs:114-142 | The receive handler: purge, then the page query, by a scan of at most 100 hits. |
| RelayQueue.Relay.MessageStatus | codebase/relay/src/messages.rs:159-178 | The status handler: `read` if the row found is acknowledged, `sent` if not, not found otherwise. |
| RelayQueue.Relay.AcknowledgeMessage | codebase/relay/src/messages.rs:203-214 | The acknowledge handler in place. |
| SignalRatchet.NoPositionIsReleasedTwice | codebase/core/src/signal_adapter.rs:1130-1182 | In every run two envelopes returned by `encrypt_for` never share a ratchet position, and the session on disk is already past every position released, through failed commits with or without reopening, interleaved decryptions, revocations, recoveries and identity replacement. |
| SignalRatchet.NextInv | codebase/core/src/signal_adapter.rs:1130-1227 | Every call keeps both memory and disk past every released position. |
| SignalTrust.RevocationIsABarrier | codebase/core/src/signal_adapter.rs:984-1006 | Once the revocation row is written, even if `revoke_device` then fails, no `encrypt_for` and no `decrypt_from` for that peer succeeds in any continuation, through reopening, recovery attempts and identity replacement, until the peer is trusted again. |
| SignalAccess.RevocationBarsIff | codebase/core/src/signal_adapter.rs:984-1006 | For a peer that is trusted and whose sessions can be used the barrier stands exactly if none of the three statements up to the revocation row failed; otherwise it can be written to at once from memory. |
| SignalTrust.TrustLiftsTheBarrier | codebase/core/src/signal_adapter.rs:764-783 | `trust_peer` lifts it: the peer is not revoked, and is trusted under the given identity in memory and on disk. |
| SignalTrust.RecoveryConfinesThePeer | codebase/core/src/signal_adapter.rs:942-982 | After an accepted recovery both calls succeed only under the new identity, and envelopes leave only in sessions set up with it, in every continuation, until the peer is next trusted, revoked or recovered. |
| SignalTrust.SealedUnderTheBundlesIdentity | codebase/core/src/signal_adapter.rs:1130-1182 | An envelope leaves only in a session that was set up with the identity of the bundle it is for. |
| SignalAccess.TrustedPeerGetsThrough | codebase/core/src/signal_adapter.rs:764-783 | With nothing failing, a peer just trusted can be written to exactly under the trusted identity and if the session held for it, in memory or else on disk, was set up with that identity; it can be read from exactly if the message is initial or a state of that session was set up with it. |
| SignalAccess.RecoveredPeerGetsThrough | codebase/core/src/signal_adapter.rs:942-982 | With nothing failing, a peer just recovered can be written to exactly under its new identity and if no session was in memory or it was set up with that identity already: `accept_recovery` writes the old session back. |
| SignalAccess.RecoveryShutsOut | codebase/core/src/signal_adapter.rs:962-979 | A recovery accepted while a session of the old identity is in memory shuts the peer out: it is trusted and its session is refused. |
| SignalAccess.TrustShutsOut | codebase/core/src/signal_adapter.rs:764-783 | So does `trust_peer` while a session of another identity is held, in memory or on disk. |
| SignalAccess.ShutOutUntilRenewed | codebase/core/src/signal_adapter.rs:1130-1182 | While a peer is shut out every encryption for it fails, for every bundle and through every continuation with reopening, until it is revoked, recovered, trusted under another identity or one of its messages is decrypted, or the own identity is replaced. |
| SignalAccess.DecryptionRenews | codebase/core/src/signal_adapter.rs:1194-1227 | A decrypted message leaves a session of the trusted identity, and if no state of the session was set up with it before, the message was an initial one. |
| SignalAccess.RevocationAndTrustRenew | codebase/core/src/signal_adapter.rs:984-1006 | After a revocation followed by `trust_peer` the peer can be written to, with nothing failing. |
| SignalTrust.CallKeepsBarred | codebase/core/src/signal_adapter.rs:984-1257 | Every call except `trust_peer` for the peer keeps it barred. |
| SignalProvenance.TrustHasASignedChain | codebase/core/src/signal_adapter.rs:764-982 | In every run an identity held for a peer, in memory or on disk, ends a chain that starts at an identity `trust_peer` took for that peer, each link a recovery record that was accepted in the run after the one before and verified under the identity before it; refused calls are no links. |
| SignalProvenance.TrustChecksMemoryOnly | codebase/core/src/signal_adapter.rs:764-783 | `trust_peer` compares with memory only: right after a reopen it replaces any identity on disk, and it refuses the same change once the peer is loaded. |
| SignalProvenance.IdentityChangeIsRefusedIffLoaded | codebase/core/src/signal_adapter.rs:764-783 | An identity on disk survives an attempt to trust another exactly when it is loaded. |
| SignalProvenance.RefusedRecovery | codebase/core/src/signal_adapter.rs:942-956 | A record that is not confirmed, not signed or not signed by the identity in memory changes nothing. |
| SignalInventory.RestockEndsIffHeadroom | codebase/core/src/signal_adapter.rs:1060-1080 | The loop that restocks one-time prekeys ends exactly when enough ids are left below `u32::MAX`; otherwise the saturating id repeats and the loop never reaches its target. |
| SignalInventory.RestockKeepsPrekeys | codebase/core/src/signal_adapter.rs:1055-1080 | Restocking replaces no one-time prekey and adds only ids above all there are. |
| SignalInventory.NewestTwoAreTheLargest | codebase/core/src/signal_adapter.rs:1019-1045 | The overlap keeps exactly the signed prekeys with at most one larger id. |
| SignalInventory.OverlapKeepsTwo | codebase/core/src/signal_adapter.rs:1019-1045 | The overlap keeps at most two signed prekeys, the newest among them, unchanged. |
| SignalInventory.MaintenanceRestoresInventory | codebase/core/src/signal_adapter.rs:817-850 | From agreement of memory and disk, successful maintenance leaves agreement, exactly 32 one-time prekeys if there were fewer than 8 and the old number otherwise, and one or two signed prekeys. |
| SignalInventory.ExportNamesDurableKeys | codebase/core/src/signal_adapter.rs:789-796 | Every key an exported bundle names is on disk, and its signed and Kyber prekeys are the newest there. |
| SignalBundles.ExportedKeyStays | codebase/core/src/signal_adapter.rs:817-850 | With a clock that does not go back and no identity replacement, if no committed rotation fails to record its time and a device whose memory and disk disagree on signed or Kyber prekeys is reopened first, the signed prekey of every exported bundle is on disk, and in memory whenever the two agree, for 30 days after the export, in every run; only a key with the id `u32::MAX` may go earlier, by a rotation. |
| SignalBundles.NewestKeySurvivesIff | codebase/core/src/signal_adapter.rs:817-850 | From agreement of memory and disk, the newest signed prekey is still on disk after maintenance in which anything fails, an optional reopen and maintenance in which nothing fails, unless the first rotated and either its snapshot failed with no reopen between, or its time stamp failed, reopen or not, or 30 days have passed. |
| SignalBundles.RetriedRotationDropsTheExportedKey | codebase/core/src/signal_adapter.rs:832-847 | On any device, in agreement or not, a rotation whose snapshot or time stamp failed, retried without a reopen, drops the newest key at once from memory and disk. |
| SignalBundles.RotationKeepsNewest | codebase/core/src/signal_adapter.rs:1019-1045 | One rotation keeps the newest signed prekey and adds the next. |
| SignalBundles.ExhaustedIdsReplaceTheNewestKey | codebase/core/src/signal_adapter.rs:1097-1104 | A rotation adds no key exactly when the newest id is `u32::MAX`; then it overwrites that key. |
| SignalStorage.ReopenAgreesIffLoaded | codebase/core/src/signal_adapter.rs:1309-1445 | A snapshot and a restart give back identity, session, trust and all three kinds of prekeys exactly when every row the disk had for the peer was loaded. |
| SignalStorage.SnapshotTouchesOnePeer | codebase/core/src/signal_adapter.rs:1347-1445 | A snapshot for one peer leaves every other peer's rows and all revocations alone. |
| SignalStorage.EncryptionSurvivesRestart | codebase/core/src/signal_adapter.rs:1130-1182 | After a successful `encrypt_for` a restart finds memory as the call left it. |
| SignalStorage.DecryptionSurvivesRestart | codebase/core/src/signal_adapter.rs:1194-1227 | After a successful `decrypt_from` a restart finds memory as the call left it. |
| SignalStorage.TrustSurvivesRestartIffLoaded | codebase/core/src/signal_adapter.rs:764-783 | `trust_peer` does not load first: a restart agrees with memory exactly when no session row was left on disk only. |
| SignalStorage.RefusedEncryptionKeepsRows | codebase/core/src/signal_adapter.rs:1130-1182 | A refused `encrypt_for` leaves every other peer's rows and all revocations as they were. |
| SignalStorage.FailedDecryptionMayCommitPrekeysAlone | codebase/core/src/signal_adapter.rs:1224-1225 | If the last commit of `decrypt_from` fails, the sender's rows are the old ones; the prekeys on disk are those of memory exactly if maintenance had something to commit and committed it, and the old ones otherwise. In the first case the consumed prekeys are gone. |
| SignalStorage.FailedDecryptionStandsIffNoRow | codebase/core/src/signal_adapter.rs:1194-1227 | After a decryption that opened the message and then failed, the next call reads the sender's old session row, or, if there is none, goes on with the session that has used the message up; a restart undoes the decryption either way. |
| SignalStorage.RecoveryKeepsALoadedSession | codebase/core/src/signal_adapter.rs:962-979 | An accepted recovery writes a session held in memory back under the new identity; the session row is gone only if none was in memory. |
| SignalAnswers.SnapshotWrites | codebase/core/src/signal_adapter.rs:1347-1445 | A snapshot writes identity and registration, the peer's session and identity if memory holds them, replaces one-time and signed prekeys, adds Kyber prekeys, and changes nothing else. |
| SignalAnswers.RestartReads | codebase/core/src/signal_adapter.rs:1259-1307 | After a restart memory holds exactly the identity and the keys on disk and no session or identity of a peer. |
| SignalAnswers.LoadPeerIff | codebase/core/src/signal_adapter.rs:1309-1342 | Loading a peer succeeds exactly if both rows can be read; memory then holds them, or what it held where there is no row. |
| SignalAnswers.MaintainSucceedsIff | codebase/core/src/signal_adapter.rs:800-850 | Maintenance succeeds exactly if the rotation time can be read, the commit succeeds if a key kind is missing, fewer than 8 one-time prekeys are left, 30 days have passed or more than two signed prekeys are there, the new time can be written after 30 days, and the failure counter can be reset. |
| SignalAnswers.MaintenanceGenerates | codebase/core/src/signal_adapter.rs:1047-1122 | Whatever fails, maintenance leaves in memory only old keys and keys it generated, each under the id it was generated for. |
| SignalAnswers.MaintenanceStocks | codebase/core/src/signal_adapter.rs:817-850 | From agreement, successful maintenance leaves 32 one-time prekeys if there were fewer than 8, one or two signed prekeys and a Kyber prekey, in memory and on disk alike. |
| SignalAnswers.ExportIff | codebase/core/src/signal_adapter.rs:789-796 | An export succeeds exactly if maintenance does and leaves a key of each kind; the bundle names the device's identity, one of its one-time prekeys and the newest of the others. |
| SignalAnswers.TrustPeerIff | codebase/core/src/signal_adapter.rs:764-783 | `trust_peer` succeeds exactly if memory holds no other identity and nothing fails; the identity is then in memory and on disk, the revocation row gone and a session in memory on disk. |
| SignalAnswers.RevokeIff | codebase/core/src/signal_adapter.rs:984-1006 | `revoke_device` succeeds exactly if nothing fails; the peer's rows are then gone, its revocation row has no new fingerprint, memory holds no session and no identity, and other rows are as before. |
| SignalAnswers.AcceptRecoveryIff | codebase/core/src/signal_adapter.rs:942-982 | `accept_recovery` succeeds exactly if caller and record confirm it, the signature verifies under the identity the record names as the previous one, memory holds that identity for the peer, and nothing fails; the new identity is then trusted on disk and the only one the revocation row admits. |
| SignalAnswers.EncryptForIff | codebase/core/src/signal_adapter.rs:1130-1182 | `encrypt_for` succeeds exactly if the device is configured, maintenance succeeds, the rows can be read, the trusted identity is the bundle's and not revoked, a session with it is there or can be set up, and neither encryption, encoding nor commit fails. |
| SignalAnswers.EncryptForMoves | codebase/core/src/signal_adapter.rs:1130-1182 | It then releases the envelope at the session's next position, memory and disk hold the session one further on, and no other peer's session moves. |
| SignalAnswers.DecryptFromIff | codebase/core/src/signal_adapter.rs:1194-1227 | `decrypt_from` succeeds exactly if the rows can be read, the sender is trusted and not revoked, the envelope decodes and decrypts in a state of the trusted identity, maintenance succeeds after it and the commit does not fail; it reports that identity. |
| SignalAnswers.DecryptFromMoves | codebase/core/src/signal_adapter.rs:1194-1227 | Memory and disk then hold one session on the chain in use, under the trusted identity, kept chains go on where they were, and consumed prekeys are gone or generated anew. |
| Replacement.ReplacementStands | codebase/core/src/signal_adapter.rs:891-940 | Once committed, a replacement of the identity stands whatever fails after it: memory, disk and a restart have the new identity, no session and no identity of a peer, and the old revocations; a transaction that fails changes nothing. |
| Replacement.ReplacementExports | codebase/core/src/signal_adapter.rs:891-940 | If it succeeds, the bundle has the new identity and names keys generated by the call, which are on disk, all keys left are new, and the announcement is signed under the old identity and names the new one. |
| Replacement.ReplaceSucceedsIff | codebase/core/src/signal_adapter.rs:891-940 | It succeeds exactly if none of its statements fails. |
| Replacement.ReplacementIsFollowed | codebase/core/src/signal_adapter.rs:891-982 | A peer that held the old identity accepts the announcement when it is confirmed and nothing fails; it then trusts the new identity, and its revocation row admits no other. |
| SignalState.SqliteSignalState.EnsureKeyInventory | codebase/core/src/signal_adapter.rs:1047-1122 | Creates a missing bundle, restocks in a loop that ends, rotates when due, in place; the id headroom it asks for is exactly what makes the loop end. |
| SignalState.SqliteSignalState.RetainSignedPrekeyOverlap | codebase/core/src/signal_adapter.rs:1019-1045 | Copies the two newest signed prekeys into a fresh store. |
| SignalState.SqliteSignalState.MaintainKeyInventory | codebase/core/src/signal_adapter.rs:800-850 | Maintenance in place: snapshot if anything changed, then the time stamp in a statement of its own. |
| SignalState.SqliteSignalState.PersistPeer | codebase/core/src/signal_adapter.rs:1347-1445 | The snapshot transaction: all of it or, if the commit fails, nothing. |
| SignalState.SqliteSignalState.LoadPeer | codebase/core/src/signal_adapter.rs:1309-1342 | Session first, then identity; a missing row leaves memory as it is. |
| SignalState.SqliteSignalState.LoadRecords | codebase/core/src/signal_adapter.rs:1259-1307 | The three record loops, in order, stopping where a read fails. |
| SignalState.SqliteSignalState.TrustPeer | codebase/core/src/signal_adapter.rs:764-783 | `trust_peer` in place. |
| SignalState.SqliteSignalState.RevokeDevice | codebase/core/src/signal_adapter.rs:984-1006 | `revoke_device` in place, statement by statement. |
| SignalState.SqliteSignalState.AcceptRecovery | codebase/core/src/signal_adapter.rs:942-982 | `accept_recovery` in place, statement by statement. |
| SignalState.SqliteSignalState.ReplaceIdentity | codebase/core/src/signal_adapter.rs:891-940 | `replace_identity_with_recovery` in place. |
| SignalState.SqliteSignalState.EncryptFor | codebase/core/src/signal_adapter.rs:1130-1182 | `encrypt_for` in place: maintain, load, check, encrypt, snapshot, and only then release. |
| SignalState.SqliteSignalState.DecryptFrom | codebase/core/src/signal_adapter.rs:1194-1227 | `decrypt_from` in place: load, check, decrypt, maintain, snapshot. |
| SignalState.SqliteSignalState.ExportBundle | codebase/core/src/signal_adapter.rs:789-796 | `export_bundle` in place. |
| RelayAuth.RetentionIsExact | codebase/relay/src/auth.rs:104-151 | No run accepts a signed request twice exactly when nonces are kept for both halves of the window and as long as the purging clock reading can lag behind the checking one. |
| RelayAuth.NoRequestIsAcceptedTwice | codebase/relay/src/auth.rs:104-151 | With one reading of a non-decreasing clock for each request, the 600 seconds the relay keeps nonces are enough: no run accepts a signed request twice. |
| RelayAuth.SeparateReadingsAdmitAReplay | codebase/relay/src/auth.rs:104-144 | The handler reads the clock three times; with a second between the first two readings there is a run that accepts a request twice. |
| RelayAuth.ReusedNonceIsNewer | codebase/relay/src/auth.rs:135-152 | A nonce a device uses again and that is accepted again comes with a later timestamp. |
| RelayAuth.AcceptedIff | codebase/relay/src/auth.rs:104-152 | Over whole runs a request is accepted exactly when it is well formed, in its window and signed, and every earlier accepted use of its nonce by the device is out of retention when it purges. |
| RelayAuth.PayloadIdentifiesRequest | codebase/relay/src/auth.rs:122-130 | The signed bytes determine method, path, body digest, nonce and timestamp. |
| RelayAuth.AcceptedPayloadsDiffer | codebase/relay/src/auth.rs:122-152 | Two accepted requests of one device were never signed over the same bytes. |
| RelayAuth.NonceTable.VerifySignature | codebase/relay/src/auth.rs:94-154 | The handler in place: window and size checks, payload, signature, purge, insert or refuse. |
| RelayAuth.VerifyIff | codebase/relay/src/auth.rs:104-152 | A request is accepted exactly if it is within 300 seconds of the clock, nonce and signature have their lengths, the signature is the device's, and no row of device and nonce reaches the purge; the table afterwards is said row by row. |
| RelayClient.BothSignTheSame | codebase/transports/src/relay_client.rs:441-449 | Client and relay, which build the signed bytes of a request separately, put the same bytes under the signature. |
| RelayClient.ClientIsHeard | codebase/transports/src/relay_client.rs:420-526 | A request the client signs is accepted if its timestamp is within 300 seconds and its nonce unused since the purge. |
| RelayClient.ClientEnrolls | codebase/transports/src/relay_client.rs:179-255 | A client that follows the protocol gets in whatever the tables hold: request, approval within 900 seconds, challenge for its secret, answer within 300 seconds, and a token that works. |
| RelayClient.Client.EnrollmentForm | codebase/transports/src/relay_client.rs:223-252 | The enrollment request with its signature. |
| RelayClient.Client.RegisterForm | codebase/transports/src/relay_client.rs:179-217 | The registration with its signature over the challenge. |
| RelayClient.Client.SignRequest | codebase/transports/src/relay_client.rs:420-526 | A signed request, none without a token. |
| EnrollmentRuns.RegistrationsNeverExceedActivations | codebase/relay/src/enrollment.rs:168-252 | In every run a client registers at most once for each time it was put on the allowlist. |
| EnrollmentRuns.ChallengeRegistersOnce | codebase/relay/src/enrollment.rs:127-252 | In every run a challenge is good for one registration, of the client it was issued to. |
| EnrollmentRuns.TokenWorksIffCurrent | codebase/relay/src/auth.rs:55-64 | In every run a token authenticates a client exactly when it is that client's latest, no revocation of it has completed since, and the client is active. |
| EnrollmentRuns.RevokedTokenNeverReturns | codebase/relay/src/main.rs:173-191 | A token issued before a completed revocation never authenticates again, even after a new approval. |
| EnrollmentRuns.InterruptedRevocationRestoresTheToken | codebase/relay/src/main.rs:173-191 | A revocation refuses the token at once; after a new approval the token works again exactly if the revocation stopped between its two statements. |
| EnrollmentRuns.ReachableTokensAreUnique | codebase/relay/src/database.rs:20-20 | The devices' token hashes are distinct in every reachable state. |
| EnrollmentRuns.ApprovedClientRegistersOnce | codebase/relay/src/enrollment.rs:127-252 | An approved client that knows its secret and answers its challenge in time gets a token that works; repeating the registration or asking for another challenge is refused. |
| EnrollmentRuns.StepSpends | codebase/relay/src/enrollment.rs:177-239 | Only a registration spends an activation, and only an approval or an allowlist entry makes one. |
| EnrollmentChain.TokenHasASignedChain | codebase/relay/src/enrollment.rs:59-252 | In every run a registration was signed over its form and challenge by the identity listed for the client; that identity was added by hand or asked for in a request it signed, approved within 900 seconds; and the challenge was bought at most 300 seconds before with the secret the client was listed with. |
| Registration.RegisterSucceedsIff | codebase/relay/src/enrollment.rs:168-252 | A registration succeeds exactly if the ids fit, the client is active and unused, the key is the listed one, a challenge is held and live, the listed secret hash is not empty, bundle and signature decode, and the signature is the listed identity's over the form and the held challenge; otherwise nothing changes, and the error is said. |
| Registration.RegisterStores | codebase/relay/src/enrollment.rs:237-252 | It hands out the token, stores identity, address, token hash and bundle, marks the activation used, removes the challenge, and removes any other device with that token hash. |
| Registration.ChallengeIsIssuedIff | codebase/relay/src/enrollment.rs:127-166 | A challenge is issued exactly to an active, unused client with the listed secret, and stored for 300 seconds. |
| Registration.RequestIsStoredIff | codebase/relay/src/enrollment.rs:59-125 | A request is stored exactly if its fields have their sizes and decode and it is signed with the key it names; it is stored as sent, under the id of that key, for 900 seconds. |
| Registration.ApproveLists | codebase/relay/src/database.rs:24-39 | An approval lists the identity, fingerprint and secret of a request that has not expired, unused and active, and of no other. |
| Registration.AddIff | codebase/relay/src/database.rs:73-90 | A client is added by hand exactly if the fields fit, the key decodes and the client is not listed. |
| Registration.RejectIff | codebase/relay/src/main.rs:258-272 | A rejection removes the request; it succeeds exactly if there is one. |
| Registration.RevokeIff | codebase/relay/src/main.rs:173-191 | A revocation succeeds exactly if the client is listed and the command reaches its end; the row is kept and marked. |
| Registration.AuthenticatesIff | codebase/relay/src/auth.rs:55-67 | A token authenticates a client exactly if the client's device row has its hash and the client is active. |
| Registration.EnrollmentWorks | codebase/relay/src/enrollment.rs:59-252 | Request, approval, challenge and registration in time lead to a token that works, whatever else the tables hold. |
| Registration.RegisterPayloadIdentifies | codebase/relay/src/enrollment.rs:222-230 | A registration's signed bytes determine client, address, bundle digest and challenge, if neither id has a zero byte. |
| Registration.EnrollmentPayloadIdentifies | codebase/relay/src/enrollment.rs:95-104 | A request's signed bytes determine address, fingerprint, secret hash and bundle digest, if none of the texts has a zero byte. |
| Registration.ZeroBytesBlurFields | codebase/relay/src/enrollment.rs:222-230 | Ids with zero bytes are the exception: two forms with different ids and the same signed bytes. |
| Registration.PurposesAreDisjoint | codebase/relay/src/main.rs:18-20 | No bytes are signed for two of an enrollment request, a registration and a request to the relay. |
| RelayDatabase.Database.EnrollmentRequest | codebase/relay/src/enrollment.rs:59-125 | The request handler on the tables, in place. |
| RelayDatabase.Database.IssueChallenge | codebase/relay/src/enrollment.rs:127-166 | The challenge handler on the tables, in place. |
| RelayDatabase.Database.Register | codebase/relay/src/enrollment.rs:168-252 | The register handler on the tables, in place. |
| RelayDatabase.Database.ApproveEnrollment | codebase/relay/src/database.rs:24-39 | Approval, in two statements of which the second may not be reached. |
| RelayDatabase.Database.AddAllowlist | codebase/relay/src/database.rs:73-90 | A client that is already listed, even revoked, is refused. |
| RelayDatabase.Database.RejectEnrollment | codebase/relay/src/main.rs:258-272 | Deletes the pending request or reports that there is none. |
| RelayDatabase.Database.RevokeClient | codebase/relay/src/main.rs:173-191 | Revocation, in two statements of which the second may not be reached. |
| RelayDatabase.Database.AuthenticateToken | codebase/relay/src/auth.rs:55-67 | Yields exactly the active client that owns the token, if it is the expected one. |
| RelayFrames.SubmitBijection | codebase/relay-protocol/src/lib.rs:111-150 | Decoding a submission yields a value exactly when encoding the value yields the input. |
| RelayFrames.MessagesBijection | codebase/relay-protocol/src/lib.rs:152-223 | Decoding a batch yields a value exactly when encoding the value yields the input. |
| RelayFrames.SubmitPrefixFree | codebase/relay-protocol/src/lib.rs:137-150 | No accepted submission is a proper prefix of another. |
| RelayFrames.MessagesPrefixFree | codebase/relay-protocol/src/lib.rs:192-223 | No accepted batch is a proper prefix of another. |
| RelayFrames.KindsAreDisjoint | codebase/relay-protocol/src/lib.rs:248-268 | No input is accepted as both kinds of frame. |
| RelayFrames.MessagesEncodeIff | codebase/relay-protocol/src/lib.rs:152-190 | A batch encodes exactly when it has at most 100 messages within their limits and 9 bytes plus their sizes fit 16 MiB, and that is its length. |
| RelayFrames.BoundedBatchEncodes | codebase/relay-protocol/src/lib.rs:152-190 | At most 100 messages within their limits encode whenever their ciphertexts leave 9 and 100 times 810 bytes of the body. |
| FrameLayouts.SubmitLayout | codebase/relay-protocol/src/lib.rs:111-135 | Where each field of a submission stands, byte by byte. |
| FrameLayouts.SubmitEncodesIff | codebase/relay-protocol/src/lib.rs:111-135 | A submission is encoded exactly if recipient and message id have at most 256 bytes and the frame at most 16 MiB. |
| FrameLayouts.BatchLayout | codebase/relay-protocol/src/lib.rs:152-190 | A batch is its header, the count, and its messages one after the other. |
| FrameLayouts.MessageLayout | codebase/relay-protocol/src/lib.rs:160-188 | Where each field of a message of a batch stands, the row id in two's complement. |
| FrameLayouts.BatchEncodesIff | codebase/relay-protocol/src/lib.rs:152-190 | A batch is encoded exactly if it has at most 100 messages with fields of at most 256 bytes and at most 16 MiB. |
| FrameLayouts.BigEndianDigits | codebase/relay-protocol/src/lib.rs:284-292 | Integers have their most significant byte first. |
| Fields.BytesCanonical | codebase/relay-protocol/src/lib.rs:296-302 | Length-prefixed bytes that are accepted are what would have been written. |
| Fields.TextRoundTrip | codebase/relay-protocol/src/lib.rs:303-306 | UTF-8 text within its limit is read back as written. |
| RelayProtocol.WriteSubmit | codebase/relay-protocol/src/lib.rs:111-135 | The submission encoder appends field by field and checks the body. |
| RelayProtocol.WriteMessages | codebase/relay-protocol/src/lib.rs:152-190 | The batch encoder's loop. |
| RelayProtocol.ReadSubmit | codebase/relay-protocol/src/lib.rs:137-150 | The submission decoder over the reader, with the same errors. |
| RelayProtocol.ReadMessages | codebase/relay-protocol/src/lib.rs:192-223 | The batch decoder's loop over the reader, with the same errors. |
| RelayProtocol.Reader.Take | codebase/relay-protocol/src/lib.rs:269-280 | Taking bytes moves the reader or fails at the end of the input. |
| RelayProtocol.Reader.ReadMessage | codebase/relay-protocol/src/lib.rs:200-219 | One message of a batch, field by field. |
| SignalFrames.BundleRoundTrip | codebase/core/src/signal_adapter.rs:378-449 | A bundle whose keys are in libsignal's form decodes to itself. |
| SignalFrames.BundleReencodesIff | codebase/core/src/signal_adapter.rs:406-449 | An accepted bundle is what encoding its value gives exactly when its prekey flag is 0 or 1 and its keys are in libsignal's form; any other flag reads as no prekey. |
| SignalFrames.DecodeIsJudged | codebase/core/src/signal_adapter.rs:406-449 | Judging every field as it is read accepts the same bundles as judging the complete frame. |
| SignalFrames.RecordRoundTrip | codebase/core/src/signal_adapter.rs:84-123 | A recovery record decodes to itself, and its signed payload is a prefix of its encoding. |
| SignalFrames.PayloadIdentifiesRecord | codebase/core/src/signal_adapter.rs:84-99 | The signed payload determines every field of a record but the signature. |
| SignalFrames.EnvelopeBijection | codebase/core/src/signal_adapter.rs:309-351 | Decoding an envelope yields a value exactly when encoding the value yields the input. |
| SignalFrames.MessageRoundTrip | codebase/core/src/signal_adapter.rs:190-281 | Any message up to 8 MiB decodes to itself, for every compressor that can be undone, and encoding adds at most 26 bytes. |
| SignalFrames.MessageTakesShorterForm | codebase/core/src/signal_adapter.rs:190-222 | Messages under 256 bytes travel as they are, longer ones in whichever form is shorter, and the frame byte says which. |
| SignalFrames.MessageIsBounded | codebase/core/src/signal_adapter.rs:190-281 | A decoded message has the length its header states and at most 8 MiB, whatever the decompressor does; exactly the longer ones are not encoded. |
| SignalFrames.MessageIdText | codebase/core/src/signal_adapter.rs:160-162 | The text of a message id has 32 characters and identifies it. |
| FrameLayouts.BundleLayout | codebase/core/src/signal_adapter.rs:378-404 | Where each field of a bundle stands, with and without a one-time prekey. |
| FrameLayouts.BundleEncodesIff | codebase/core/src/signal_adapter.rs:378-404 | A bundle is encoded exactly if each field has at most 16 KiB. |
| FrameLayouts.RecordLayout | codebase/core/src/signal_adapter.rs:84-99 | Where each field of a recovery record stands; what is signed is all before the signature. |
| FrameLayouts.EnvelopeLayout | codebase/core/src/signal_adapter.rs:309-326 | Where each field of an envelope stands, and exactly which envelopes are encoded. |
| FrameLayouts.ChatMessageLayout | codebase/core/src/signal_adapter.rs:190-222 | Where each field of a message stands, exactly when it is compressed and exactly when it is refused. |
| FrameLayouts.HexDigits | codebase/core/src/signal_adapter.rs:160-162 | The text of an id has two hexadecimal digits for each byte, the upper four bits first. |
| SignalCodecs.WriteBundle | codebase/core/src/signal_adapter.rs:379-404 | The bundle encoder extends its buffer field by field. |
| SignalCodecs.WriteRecord | codebase/core/src/signal_adapter.rs:84-99 | The record encoder: payload with the nested bundle, then the signature. |
| SignalCodecs.VerifyRecord | codebase/core/src/signal_adapter.rs:133-138 | A record is verified over the payload built from its fields. |
| SignalCodecs.WriteMessage | codebase/core/src/signal_adapter.rs:190-222 | The message encoder, with its choice of the compressed form. |
| SignalCodecs.WriteEnvelope | codebase/core/src/signal_adapter.rs:309-326 | The envelope encoder. |
| SignalCodecs.ReadBundle | codebase/core/src/signal_adapter.rs:406-449 | The bundle decoder over the bundle reader, with the same errors in the same order. |
| SignalCodecs.ReadRecord | codebase/core/src/signal_adapter.rs:101-123 | The record decoder over the bundle reader, with the nested decoder inside. |
| SignalCodecs.BundleReader.ReadBytes | codebase/core/src/signal_adapter.rs:528-544 | A length-prefixed field of at most 16 KiB. |
| Carrier.ExtractAfterEmbed | codebase/src/carrier.rs:31-71 | For every image and every payload within its capacity, extracting after embedding gives the payload back. |
| Carrier.EmbedTouchesOnlyItsBits | codebase/src/carrier.rs:40-50 | Alpha bytes, bytes after the last whole pixel and channels beyond the payload are unchanged, and of the channels that carry it only the lowest bit may change. |
| Carrier.BitIsEmbedded | codebase/src/carrier.rs:40-50 | Bit j of byte b, the most significant first, is the lowest bit of colour channel 8b + j in the order of the pixels. |
| Carrier.CapacityIsLargest | codebase/src/carrier.rs:27-29 | The capacity is the largest number of whole bytes there are channels for. |
| Carrier.BitsRoundTrip | codebase/src/carrier.rs:74-84 | Bytes survive being taken apart into bits and put together again. |
| Carrier.ChangedCountIsHamming | codebase/src/main.rs:386-401 | The detector's count for an image and its embedded form is the number of payload bits that differ from the bits they replaced. |
| Carrier.Embed | codebase/src/carrier.rs:31-51 | The nested loops over pixels and channels, in place. |
| Carrier.Extract | codebase/src/carrier.rs:53-71 | The nested loops that collect bits, and the capacity check. |
| Detector.ChoiceIsGloballyBest | codebase/src/main.rs:593-607 | The chosen threshold is the best, by accuracy and then false positives, of all real thresholds that some score reaches. |
| Detector.ChoiceIsBestOfAllIff | codebase/src/main.rs:593-607 | It is the best of all real thresholds exactly when some sample's score, taken as the threshold, flags more encoded samples than clean ones. |
| Detector.AllClearIsBetterIff | codebase/src/main.rs:593-607 | Flagging nothing beats a threshold some score reaches exactly when that flags no more encoded samples than clean ones. |
| Detector.ChoiceCanMissTheBest | codebase/src/main.rs:593-607 | It need not be: for a clean score above an encoded one flagging nothing beats every candidate. |
| Detector.CandidatesSuffice | codebase/src/main.rs:558-570 | Every threshold some score reaches classifies all samples like one of the scores. |
| Detector.Benchmark | codebase/src/main.rs:572-607 | The search loop returns the first of the best candidates and its confusion counts. |
| Detector.ClassifyCounts | codebase/src/main.rs:558-570 | The confusion counts are the numbers of encoded and clean samples that reach the threshold or do not. |
| Detector.BetterIff | codebase/src/main.rs:593-607 | One threshold is better than another exactly if it judges more samples rightly, or as many with fewer clean ones flagged. |
| Detector.ChoiceIsMostAccurate | codebase/src/main.rs:593-607 | The threshold chosen judges the most samples rightly of all that some score reaches, then flags the fewest clean ones, then is the least score. |

## Left out

- libsignal itself: sessions are chains with identities and positions, prekeys are numbers, and whether an admissible decryption succeeds is chosen by the surroundings; that an envelope opens at most once, that encrypting and decrypting do not change trusted identities, and that a session is used only under the identity it was set up with, is its contract here.
- SHA-256, signatures, random generation, base64 (section 5 of RFC 4648), zlib (RFC 1950), age and SQLCipher: parameters with the contracts the statements name.
- HTTP routing, media types, TLS, the WebSocket loop, request parsing, command-line prompts and printing: the network is only a call that may fail before or after it takes effect.
- SQL text: a statement is a map update with its key constraint; an error inside a statement that leaves the table unchanged is one of the faults.
- Integer widths of times: clock readings are unbounded and the casts to `i64` are not modelled; key ids, lengths and frame integers have their widths.
- The relay's registered devices during a delivery run: the directory is fixed, and which of two devices with one address a name finds is left to it.
- A status query that matches several rows of one sender and message id finds the lowest id here; SQLite does not promise which.
- Timestamps, display names and peer fields of history entries, history paging, renaming and deletion: they play no part in delivery.
- The naming of history files: the store is a map keyed by conversation.
- Contact requests, bundle publication, the bundle cache of the transport, retry sleeps and the user interface: little state or only easy claims.
- Counters and reports of key maintenance, the table of recovery records, and migration of old databases.
- A process that stops inside a call of the Signal device without an error: a fault at the next statement followed by a reopen has the same effect.
- Floating point in the detector: scores, accuracies and rates are real numbers, and the features that give the scores are not modelled.
- DeliveryRuns.RelayStoresOnce: the second part speaks of clients of the chat service; another program may submit different bytes under one id to different recipients.
- ChatService.ChatService.TakeMessage: a decryption that is undone by a restart, or by reading the old session row again, before it is retried counts as one that did not take effect.
- RelayClient.Client.SignRequest: the retries around a request, each with a new nonce and time, and the bearer token's header are not modelled.
- Delivery.NextInv: handling one message of a page is one step, so another party acts between messages and not between the decryption and the acknowledgement of one message.
- Drain.MailboxDrains: assumes that pages fit the body and that messages open; Progress.DrainsOrStalls and Stall.WhyStuck say what happens otherwise.
- Progress.DrainsOrStalls: rows that expire are excluded; the chat service sends none.
- SignalCodecs.WriteMessage: the compressor returns a value; its input and output errors are not modelled.
- RelayDatabase.Database.AuthenticateToken: the headers of the request and their parsing are not modelled; the signature check that follows is RelayAuth.NonceTable.VerifySignature.
- Carrier.Extract: the error for a carrier that ends before the payload is not modelled, because the capacity check before the loops rules it out.
