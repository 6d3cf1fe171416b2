# Cipher messenger, verified

A Dafny model of the four parts of the messenger whose guarantees span many functions or a whole run, with proofs of
those guarantees.

- **End-to-end sessions.** The Double Ratchet (`DoubleRatchet`, and on a mutable working copy `RatchetObject`) between
  two parties and a network that drops, repeats, reorders and forges frames (`RatchetRun` to `RatchetSecrecy`). Above
  it envelope v2 (`EnvelopeV2`, `SessionLife`), the vault (`Vault`), and one device with any number of tabs, the
  cross-tab lock, crashes and shredding (`Device*`, `E2EEService`, `NewestSession`, `ShreddedVault`). `TwoDevices*`
  joins two such devices and shows that every v2 session of theirs is one run of the two-party ratchet machine, so the
  ratchet theorems become statements about what `encrypt` and `decrypt` return. v1 sessions are in `SessionV1` and
  `ServiceV1`, and `TabsV1*` is two v1 devices with tabs, whose decrypts read under no lock and write back late.
- **The room pipeline.** `RoomStore` holds the tables and a send on the database alone; `RoomPipeline`, `RoomTheorems`
  and `RoomCalls` are `sendDraft` run by any number of replicas over a lossy cache and an arbitrary counter, up to
  what each caller is told; `RoomService` is one replica in place. `OfflineQueue` is the client's queue, its drains,
  the service worker's flush and the retrying send; `Outbox` puts queue, network and room pipeline together. `CatchUp`
  is delta sync and history, and `CatchUpRuns` sets it beside the running pipeline.
- **Refresh-token families**: `RefreshFamilies`, `RefreshTheorems`, `RefreshPresenters`, `RefreshService`.
- **Bits and digits**: `BitStreams`, `Base32`, `Luhn`, `Padding`.

Cryptography is symbolic (`SymbolicCrypto`): a key pair is one number, X25519 is symmetric in two key ids, every KDF
and MAC output is an injective constructor, and AES-GCM opens only under the key, nonce and associated data it was
sealed with. Ids, UUIDs and generated keys are parameters; where their newness matters the statements require it.
Times are integers handed in.

Findings, with what is proved about each:

1. *Send counters repeat after shredding.* `shredConversation` forgets a session together with its counter. If the
   peer's first envelope is delivered again, the same session id starts over at counter 0, and the next send repeats a
   (sessionId, ctr) that the server already has. README.md:59 and the comment on `encrypt` promise that a counter is
   spent once. `DeviceShredding.ShreddingRepeatsCounters` is the run; `DeviceCounters.CountersRepeatExactlyWhen` says
   that over any run, shredding included, counters repeat if and only if some send seals number 0 of a session id this
   device has sealed under before. `DeviceCounters.StartsExactlyWhen` names the branch: committing what
   `startResponder` made for such an id. Without shredding counters never repeat.
2. *Reuse detection can miss one rotation.* A family delete that falls between another presenter's conditional update
   and its insert leaves the inserted row alive (under read-committed isolation the delete does not see it).
   `RefreshTheorems.ReuseKillsExactlyWhen`: the family is dead for good if and only if no rotation of it was in
   flight. `ReplayMeetsRotation` is a run that gets there. For rotations that run as whole steps there is no
   exception.
3. *The null receiving chain.* `ratchetDecrypt` decodes `work.ckr!` even when it is null. The model keeps that branch
   as a constant `DecodedNull`; no honest frame ever reaches it (`RatchetTheorems.ChainBeforeFrames`) and nothing
   sealed opens with it.
4. *Catch-up can pass a row by.* chat-front/src/services/deltaSync.ts:92 promises to catch a room up completely. A
   send allocates its sequence before it commits, so a lower sequence can commit after a higher one was answered; the
   cursor is past it for good (`CatchUpRuns.LateRowIsMissed`, at every page size). `CatchUp.CatchUpExactlyWhen`: the
   pages are complete if and only if no row came at or below the cursor of an earlier page, and
   `CatchUpRuns.SettledExactlyWhen` says when the pipeline can no longer produce one.
5. *v1 counters can be spent twice.* The comment on `encrypt` (chat-front/src/services/E2EEService.ts:148-153)
   promises that a crash burns a counter rather than reusing one. There are two ways past it.
   *A late write:* a v1 `decrypt` writes the session it read back without the lock (line 232); if an encrypt went on
   in between, its counter is undone and spent again (`TabsV1Runs.CounterSpentTwice`).
   *Shredding:* nothing is stored then, and the peer's first envelope, read again, starts the same session at counter
   0 (lines 216-221), without any race (`TabsV1Runs.ShreddingSpendsTwice`).
   Over all runs, `TabsV1Spending.SpentTwiceExactlyWhen`: a counter is spent twice if and only if an encrypt went on
   with a session behind what had been spent under its id. For one write, `TabsV1Counters.WriteBackExactlyWhen` and
   `NextRepeatsExactlyWhen`: harmless if and only if the copy stands where its id has been spent up to, which over a
   stored session is the stored counter; for an accepted session (`AcceptRollsBackExactlyWhen`) if and only if nothing
   was ever spent under its id. Without shredding the first way is the only one, and comparing the two rows before the
   write shows it (`TabsV1Spending.NoShreddingRollsBackExactlyWhen`).
6. *A v1 session's first envelope must come first.* The comment at chat-front/src/services/E2EEService.ts:192 wants
   the init block to ride along until the peer has surely seen it; it rides on counter 0 only, so what overtakes the
   first envelope is not shown. `TabsV1Runs.LateFirst` is the run, `TabsV1Theorems.DecryptShows` the exact condition
   over all runs, and `ServiceV1.ShownExactlyWhen` the one for two calls with any keys: every identity has prekey id 1
   (chat-front/src/crypto/identity.ts:40), so the id check does not tell a new identity's prekey from an old one.
7. *Shredding leaves some envelopes openable.* The comment on `shredConversation` (E2EEService.ts:323-329) has v2
   ciphertext already unopenable and v1 ciphertext unopenable from then on. The identity and its prekey stay, so the
   peer's envelopes that carry an init block open again: exactly those, for v1
   (`TabsV1Theorems.OpensAgainExactlyWhen`) and, up to MAX_SKIP into the chain, for v2
   (`ShreddedVault.OpensAgainExactlyWhen`). A tab that read a v1 session before the shredding can bring all of it back
   (`TabsV1Theorems.StaleCopyRestoresExactlyWhen`).
8. *The background flush drops what it may not send.* The worker takes one access token for the whole queue and drops
   a row on any 4xx but 429, meant for what is refused for good (chat-front/public/sw.js:77, 95-96). The server
   answers 401 once the token's fifteen minutes are over
   (backend/src/main/java/com/cipherchat/auth/SecurityConfig.java:86): then the message is neither queued, nor
   refused, nor in its room (`Outbox.ExpiredTokenLoses`). `Outbox.LostExactlyWhen`: over all runs, an item is lost at
   some point if and only if the worker is told 401 for an item nobody has taken or refused.

## Model

| member | source | states |
|---|---|---|
| RatchetObject.Ratchet.Copy | chat-front/src/crypto/doubleRatchet.ts:222-222 | the working copy equals the input state, so failures leave the input alone |
| RatchetObject.Ratchet.SkipUntil | chat-front/src/crypto/doubleRatchet.ts:177-194 | the push loop and the splice compute the specified skip: exactly the keys from nr up to until, the oldest evicted past 2000, or too_many_skipped with nothing changed |
| RatchetObject.Ratchet.DhRatchet | chat-front/src/crypto/doubleRatchet.ts:196-210 | the field assignments are the two root KDF steps of the specified turn |
| RatchetObject.Ratchet.IndexOf | chat-front/src/crypto/doubleRatchet.ts:225-225 | findIndex finds the first stored key of the header, or none |
| RatchetObject.Ratchet.OpenNext | chat-front/src/crypto/doubleRatchet.ts:242-248 | moving to number n and opening there, as specified, on the working copy |
| RatchetObject.Ratchet.RatchetDecrypt | chat-front/src/crypto/doubleRatchet.ts:216-249 | the whole decryption on a copy returns the specified result and never touches the input object |
| RatchetInvariant.StartHolds | chat-front/src/crypto/doubleRatchet.ts:109-140 | the two initial states are consistent: same root, the initiator one step ahead |
| RatchetInvariant.SendKeeps | chat-front/src/crypto/doubleRatchet.ts:154-162 | encrypting keeps the two-party invariant and only extends the history |
| RatchetReach.DeliverKeeps | chat-front/src/crypto/doubleRatchet.ts:216-249 | delivering anything the network can produce keeps the invariant, accepted or refused |
| RatchetReach.YoungerExactly | chat-front/src/crypto/doubleRatchet.ts:252-255 | expiry keeps exactly the stored keys no older than maxAge and removes exactly the others |
| RatchetReach.YoungerInOrder | chat-front/src/crypto/doubleRatchet.ts:253-253 | the kept keys stay in their order |
| RatchetReach.ExpiryCounts | chat-front/src/crypto/doubleRatchet.ts:254-254 | the count it returns is of the removed keys |
| RatchetReach.ExpireKeeps | chat-front/src/crypto/doubleRatchet.ts:252-255 | expiry keeps the invariant: expired numbers move from stored to expired |
| RatchetAges.ExpiresExactlyWhen | chat-front/src/crypto/doubleRatchet.ts:177-255 | over any run a stored key carries the clock of the delivery that stored it, and expiry removes it exactly when that is longer ago than maxAge |
| RatchetReach.ReachableHasHistory | chat-front/src/crypto/doubleRatchet.ts:109-255 | every state of every run is explained by one history of epochs |
| RatchetAccept.SkipEvictsOldest | chat-front/src/crypto/doubleRatchet.ts:177-194 | a skip stores exactly the numbers passed, in order, and evicts the oldest, only past 2000 and no more |
| RatchetAccept.AcceptanceIsAuthentic | chat-front/src/crypto/doubleRatchet.ts:216-249 | whatever is accepted is, header, associated data and text, a frame the peer sealed, on a stored, the current or the peer's next chain |
| RatchetTheorems.AcceptedOnceAndAuthentic | chat-front/src/crypto/doubleRatchet.ts:216-249 | at most once: no message number is ever accepted twice, late replays from old chains included, and only the peer's frames are accepted |
| RatchetTheorems.DeliveryExact | chat-front/src/crypto/doubleRatchet.ts:154-249 | completeness and soundness: in every run a frame the peer sealed decrypts to exactly its text if and only if its number was not accepted, evicted or expired and no single skip exceeds MAX_SKIP |
| RatchetTheorems.Lockstep | chat-front/src/crypto/doubleRatchet.ts:109-140 | in every reachable state one party is exactly one ratchet step ahead and both derive the same root and chain keys at the shared steps |
| RatchetTheorems.Conservation | chat-front/src/crypto/doubleRatchet.ts:177-194 | the accepted, stored, evicted and expired numbers are disjoint and together exactly the peer's numbers that were passed; each stored key is the true key of its number |
| RatchetTheorems.AnnouncedLength | chat-front/src/crypto/doubleRatchet.ts:157-157 | the pn of a header is exactly how many messages its sender sealed on its previous chain |
| RatchetTheorems.NoKeyReuse | chat-front/src/crypto/doubleRatchet.ts:84-96 | over a whole session no two frames, of one party or of both, share a key or a nonce |
| RatchetTheorems.ChainBeforeFrames | chat-front/src/crypto/doubleRatchet.ts:242-243 | no frame of the peer shows the current peer key while the receiving chain is null |
| RatchetKeys.TrueKeysDistinct | chat-front/src/crypto/doubleRatchet.ts:84-91 | different places of a history have different message keys |
| RatchetKeys.NullOpensNothing | chat-front/src/crypto/doubleRatchet.ts:243-244 | the key made from a null chain opens nothing that either party sealed |
| RatchetSecrecy.ForwardSecrecy | chat-front/src/crypto/doubleRatchet.ts:212-249 | forward secrecy exactly: a ratchet state derives the key of a peer's frame if and only if that frame is still to be accepted, and of none of its own frames |
| RatchetSecrecy.Recovery | chat-front/src/crypto/doubleRatchet.ts:204-209 | after the owner has turned the ratchet with a new key, a state stolen before derives none of the keys of later chains |
| EnvelopeV2.SecretsAgree | chat-front/src/crypto/envelopeV2.ts:46-88 | both ends derive the same X3DH secret |
| EnvelopeV2.FirstEnvelopeOpens | chat-front/src/crypto/envelopeV2.ts:46-117 | an initiator's first envelope opens on a responder started from its init block, and each end's session names the other |
| EnvelopeV2.FirstEnvelopeOpensExactlyWhen | chat-front/src/crypto/envelopeV2.ts:46-117 | toward any signed bundle: the first envelope opens on the other side if and only if the bundle names the keys and the prekey id that side has now |
| EnvelopeV2.OpensOnlyAsSealed | chat-front/src/crypto/envelopeV2.ts:36-40 | a ciphertext opens only under the sender, conversation, session, counter and header it was sealed with, and to its text |
| EnvelopeV2.OpeningGivesSendingChain | chat-front/src/crypto/envelopeV2.ts:109-117 | whatever opens leaves a session that can send |
| SessionLife.InitiatorEnvelopes | chat-front/src/crypto/envelopeV2.ts:91-117 | over any seals and openings the initiator can always seal, ctr counts its seals from 0, and the init block rides exactly until it has opened an answer |
| SessionLife.ResponderEnvelopes | chat-front/src/crypto/envelopeV2.ts:66-117 | the responder can seal if and only if it has opened something, and never attaches an init block |
| Vault.CommitReadsBack | chat-front/src/crypto/vault.ts:133-200 | a commit reads back both halves and moves nothing else |
| Vault.SessionReadsBack | chat-front/src/crypto/vault.ts:133-162 | a commit without a text reads back its session and moves no text |
| Vault.ShredForgets | chat-front/src/crypto/vault.ts:202-219 | after shredding nothing reads, and no session is latest |
| Vault.KeyGoneNothingOpens | chat-front/src/crypto/vault.ts:12-14 | with the conversation key gone, or replaced, no row sealed under it opens, even if all of them are still there |
| Vault.VaultDb.Dek | chat-front/src/crypto/vault.ts:114-130 | an existing key is the answer; without one, none if none is to be made, and else the racing tab's if there is one, or the new key |
| Vault.VaultDb.PutCommit | chat-front/src/crypto/vault.ts:133-151 | the in-place commit is the specified one, with a text or without |
| Vault.VaultDb.Text | chat-front/src/crypto/vault.ts:183-196 | reading one text, or none if the key cannot open it |
| Vault.VaultDb.Session | chat-front/src/crypto/vault.ts:153-162 | reading one session: absent, unreadable, or found |
| Vault.VaultDb.Latest | chat-front/src/crypto/vault.ts:165-181 | the scan returns a newest session among those that open, or none if none opens |
| Vault.VaultDb.Shred | chat-front/src/crypto/vault.ts:202-219 | both stores end empty under no key, and the count is of all removed rows |
| DeviceInvariant.StepKeeps | chat-front/src/services/E2EEService.ts:154-169 | every step of every tab, and shredding, keeps the lock exclusive, the store readable and every tab's session the committed one |
| DeviceInvariant.SendKeyIsFree | chat-front/src/services/E2EEService.ts:161-168 | under the lock a send always seals (no no_sending_chain), at the session's next counter, under a vault key that was free |
| DeviceTheorems.TextsAreStable | chat-front/src/services/E2EEService.ts:246-275 | without shredding, decrypt never gives two texts for one message, and every envelope encrypt returned reads back as its own text from then on |
| DeviceTheorems.NoForks | chat-front/src/services/E2EEService.ts:258-271 | every step leaves each committed session alone or advances it by exactly one operation from its committed state, together with exactly one new text |
| DeviceCounters.CountersRepeatExactlyWhen | chat-front/src/crypto/envelopeV2.ts:91-106 | over any run, shredding and crashes included, sealed (sessionId, ctr) pairs repeat if and only if some send starts a session id over at 0 |
| DeviceCounters.StartsExactlyWhen | chat-front/src/services/E2EEService.ts:264-271 | a step leaves a session that was sealed under at counter 0 if and only if it commits what startResponder made for a session id sealed under before; only there can a send start over |
| DeviceCounters.NoReopeningNoRepeat | chat-front/src/services/E2EEService.ts:264-271 | shredding included, as long as no init block reopens a session id sealed under before, the returned envelopes carry pairwise different counters |
| DeviceCounters.ReturnedDistinct | chat-front/src/services/E2EEService.ts:157-169 | each sealed envelope is returned at most once, and the returned ones carry different counters unless a session id was started over |
| DeviceCounters.NoShreddingNoRepeat | chat-front/src/services/E2EEService.ts:157-169 | without shredding, in any interleaving of tabs, sends, receives and crashes, the returned envelopes carry pairwise different counters |
| DeviceShredding.ShreddingRepeatsCounters | chat-front/src/services/E2EEService.ts:330-333 | for every fresh device and honest first envelope a concrete run with one shredding returns the same (sessionId, ctr) twice |
| NewestSession.SealsOnNewest | chat-front/src/crypto/vault.ts:164-181 | over any run of tabs the session that encrypt seals on was started no earlier than any other that is stored, whichever side started it |
| NewestSession.SealsOnLastStarted | chat-front/src/services/E2EEService.ts:158-164 | with a clock that does not run backwards it is the one started last, but for starts at the same instant |
| NewestSession.DecryptedSessionIsNext | chat-front/src/crypto/envelopeV2.ts:66-88 | after a decrypt that started a session from an init block, later than everything stored, the next encrypt seals on that session |
| NewestSession.EncryptedSessionIsNext | chat-front/src/services/E2EEService.ts:161-168 | after an encrypt that started a session the next one seals on it at counter 1 |
| ShreddedVault.OpensAgainExactlyWhen | chat-front/src/services/E2EEService.ts:323-338 | whatever the peer ever sealed, in any run of its tabs: on an empty vault decryptV2 shows its text if and only if it carries an init block and is at most MAX_SKIP into its chain |
| TwoDevicesInvariant.MoveKeeps | chat-front/src/services/E2EEService.ts:154-275 | every move of either device keeps every v2 session equal to one run of the two-party ratchet machine |
| TwoDevicesTheorems.TextsAreTheSenders | chat-front/src/services/E2EEService.ts:246-275 | every text decrypt ever returned for an envelope is the text its sender gave to encrypt |
| TwoDevicesTheorems.SpentExactlyWhenStored | chat-front/src/services/E2EEService.ts:241-271 | a peer's message key is spent if and only if its text is in the vault; the stored text is the sender's and the committed session will not open it again |
| TwoDevicesTheorems.OpensExactlyWhen | chat-front/src/services/E2EEService.ts:258-271 | a tab about to open a peer's envelope shows its sender's text if and only if the key was not evicted and no skip exceeds MAX_SKIP, and otherwise gives up with nothing committed |
| TwoDevicesTheorems.HonestEnvelopeFindsSession | chat-front/src/services/E2EEService.ts:259-269 | an honest envelope in any order is found stored or has a session to open on: it is never refused for a missing session or init block |
| TwoDevicesTheorems.InitBlockUntilCommitted | chat-front/src/crypto/envelopeV2.ts:103-104 | an initiator's envelope without init is sealed only after the responder has committed the session |
| E2EEService.Service.Encrypt | chat-front/src/services/E2EEService.ts:157-169 | one call in place: a newest session (which `NewestSession` ties to when sessions were started) or a new one, sealed and committed with its text before the envelope is returned |
| E2EEService.Service.DecryptV2 | chat-front/src/services/E2EEService.ts:246-275 | one call in place: stored text, or a ratchet advance committed with its text, or nothing changed |
| E2EEService.UnreadableIsKept | chat-front/src/services/E2EEService.ts:261-275 | a stored session that the key cannot open ends the call: no new session is started from the init block and nothing changes |
| E2EEService.Service.ShredConversation | chat-front/src/services/E2EEService.ts:330-337 | the vault and the v1 sessions of the conversation are empty afterwards, and both counts are of what was removed |
| E2EEService.EncryptIsUninterrupted | chat-front/src/services/E2EEService.ts:157-169 | a call of encrypt is what one tab's steps of the device machine do when nobody interferes |
| E2EEService.DecryptIsUninterrupted | chat-front/src/services/E2EEService.ts:246-275 | the same for decrypt |
| SessionV1.MessageKeyAt | chat-front/src/crypto/session.ts:148-155 | the loop reaches the n-th chain key |
| SessionV1.KeysDiffer | chat-front/src/crypto/session.ts:148-155 | two messages have the same key if and only if they are the same number of the same chain |
| SessionV1.HandshakeAgrees | chat-front/src/crypto/session.ts:62-132 | an initiated session and the one accepted from its init block are the two ends of one session |
| SessionV1.SealedOpens | chat-front/src/crypto/envelope.ts:51-95 | one end's envelope at any counter opens on the other end, given that it holds the session, and by openOwn on its own, to its text |
| SessionV1.OpensExactlyWhere | chat-front/src/crypto/envelope.ts:68-80 | a sealed ciphertext opens if and only if chain, session, counter, conversation and sender are those it was sealed with |
| ServiceV1.EncryptKeeps | chat-front/src/services/E2EEService.ts:170-196 | whatever an encrypt meets, no (sessionId, counter) is sealed twice and none is 200 or more |
| ServiceV1.EncryptReadsBack | chat-front/src/services/E2EEService.ts:186-196 | an envelope v1 encrypt returned opens as its own text |
| ServiceV1.RotatesExactlyWhen | chat-front/src/services/E2EEService.ts:170-195 | the envelope is on the active session if and only if there is one, with fewer than 200 counters spent and less than seven days old; otherwise it is the first of a new session, with its init block, and the old one is retired now |
| ServiceV1.RefusedExactlyWhen | chat-front/src/crypto/session.ts:62-70 | nothing is returned if and only if the text is too long, or a new session is due and the bundle is not signed |
| ServiceV1.RetiredForGood | chat-front/src/services/E2EEService.ts:388-396 | a retired session is never sealed on again by whole calls, and stays retired |
| ServiceV1.DecryptRemembersHighest | chat-front/src/services/E2EEService.ts:230-233 | a decrypt moves peerMaxCtr to the highest counter of the peer's that opened, and changes nothing else of a stored session |
| ServiceV1.ShownExactlyWhen | chat-front/src/services/E2EEService.ts:205-238 | what v1 encrypt returned is shown by the other side's decrypt, as its text, if and only if the other end is stored there, or no session is and the envelope carries an init block for the keys that side has now; never as another text |
| ServiceV1.Conversation.Newest | chat-front/src/services/E2EEService.ts:388-396 | a newest usable session by creation time, or none if there is none |
| ServiceV1.Conversation.ActiveSession | chat-front/src/services/E2EEService.ts:388-396 | the newest initiated session, else the newest of the peer's |
| ServiceV1.Conversation.Encrypt | chat-front/src/services/E2EEService.ts:170-196 | one call in place: rotation at 200 messages or seven days, the counter saved before sealing, counters never repeated |
| ServiceV1.Conversation.Decrypt | chat-front/src/services/E2EEService.ts:213-235 | one call in place: an accepted session stays even if the envelope fails, send counters are untouched |
| TabsV1Theorems.DecryptShows | chat-front/src/services/E2EEService.ts:205-238 | in every state that two devices with any number of tabs, stale copies, shredding and any delivery order reach: decrypt shows an envelope of either side, as its text, if and only if its session is stored or it is the peer's and carries the init block |
| TabsV1Theorems.TextsAreTheSenders | chat-front/src/services/E2EEService.ts:226-235 | every text a v1 decrypt ever answered, from a stale copy as well, is the text given to encrypt |
| TabsV1Theorems.OpensAgainExactlyWhen | chat-front/src/services/E2EEService.ts:323-338 | on a device that has shredded, exactly the peer's v1 envelopes with an init block open again, and none of its own |
| TabsV1Theorems.StaleCopyRestoresExactlyWhen | chat-front/src/services/E2EEService.ts:226-233 | a tab that read a session before the shredding brings it back, and with it every envelope of that session, if and only if its answer writes the copy |
| TabsV1Theorems.DecryptIsUninterrupted | chat-front/src/services/E2EEService.ts:213-235 | a whole decrypt is one tab's read and writes when nobody comes between |
| TabsV1Runs.LateFirst | chat-front/src/services/E2EEService.ts:192-195 | for any two texts a run in which the second envelope comes first and is not shown, and is shown after the first |
| TabsV1Counters.WriteBackExactlyWhen | chat-front/src/services/E2EEService.ts:230-233 | what a decrypt writes outside the lock, over a stored session or where none is stored any more, keeps the counters true if and only if its copy stands where the counters under its id have been spent up to; over a stored session that is the stored counter |
| TabsV1Counters.NextRepeatsExactlyWhen | chat-front/src/services/E2EEService.ts:184-186 | after such a write, stored session or not, the next encrypt on the session spends a new counter if and only if the copy was not behind what has been spent under its id |
| TabsV1Counters.AcceptRollsBackExactlyWhen | chat-front/src/services/E2EEService.ts:217-221 | accepting an init block puts a session back to a counter already spent if and only if any counter has been spent under its id before |
| TabsV1Counters.CountersDistinct | chat-front/src/services/E2EEService.ts:170-196 | over any interleaving of tabs, closings and shreddings in which no decrypt writes back a wrong counter: one side's envelopes carry pairwise different (sessionId, ctr), none past 199 |
| TabsV1Spending.SpentTwiceExactlyWhen | chat-front/src/services/E2EEService.ts:170-196 | over any run, late writes, shredding and repeated deliveries included: a side spends a counter twice if and only if some encrypt of its went on with a session behind what had been spent under that id |
| TabsV1Spending.SentOnceUnlessBehind | chat-front/src/services/E2EEService.ts:170-196 | so its envelopes carry pairwise different (sessionId, ctr), none past 199, unless one did |
| TabsV1Spending.NoShreddingKeepsSpent | chat-front/src/services/E2EEService.ts:183-186 | without shredding every session a counter was spent on is still stored |
| TabsV1Spending.NoShreddingRollsBackExactlyWhen | chat-front/src/services/E2EEService.ts:230-233 | without shredding a run undoes a counter if and only if some decrypt writes over a stored session with another counter; accepting a new one never does |
| TabsV1Runs.CounterSpentTwice | chat-front/src/services/E2EEService.ts:220-232 | for any texts a run in which a decrypt's write falls after an encrypt, and two envelopes of one session carry the same counter |
| TabsV1Runs.ShreddingSpendsTwice | chat-front/src/services/E2EEService.ts:216-221 | for any texts a run without any race: read the first envelope, answer, shred, read it again, answer again; the two answers carry the same session id and counter |
| TabsV1Rotation.FindsLastStarted | chat-front/src/services/E2EEService.ts:388-396 | over any run of tabs an encrypt finds no session if and only if all that are stored are retired; else one this side initiated if there is one, and of those, or else of the accepted, one started last |
| TabsV1Rotation.EncryptRotatesExactlyWhen | chat-front/src/crypto/session.ts:167-172 | over any run, whatever tabs write back meanwhile: an envelope goes on with the session found if and only if fewer than 200 of its counters are spent and this side started it less than seven days ago |
| TabsV1Rotation.InitiatedOnce | chat-front/src/crypto/session.ts:79-89 | a session has one date for the side that initiated it |
| Padding.Pad | chat-front/src/crypto/envelope.ts:32-41 | the buffer holds length, body and zeros, or TooLong past 65535 bytes |
| Padding.Layout | chat-front/src/crypto/envelope.ts:32-41 | two length bytes, high one first, then the body, then zeros only |
| Padding.PaddedIsBytes | chat-front/src/crypto/envelope.ts:32-41 | every cell of the padded buffer is a byte |
| Padding.UnpadPad | chat-front/src/crypto/envelope.ts:32-48 | every body up to 65535 bytes comes back |
| Padding.LeastBucket | chat-front/src/crypto/envelope.ts:35-35 | the padded length is the least positive multiple of 256 that is at least the body plus two |
| Padding.LengthTellsBucket | chat-front/src/crypto/envelope.ts:35-35 | two bodies pad to the same length if and only if they share a 256-byte bucket |
| RoomStore.MessageDb.Save | backend/src/main/java/com/cipherchat/chatroom/MessagePersistence.java:44-44 | an insert succeeds exactly when neither unique index has a clashing row |
| RoomStore.MessageDb.Advance | backend/src/main/java/com/cipherchat/chatroom/ChatroomRepositories.java:147-155 | the watermark moves to the greater of the two |
| RoomStore.MessageDb.Persist | backend/src/main/java/com/cipherchat/chatroom/MessagePersistence.java:43-53 | row, watermark and event commit together, or nothing does |
| RoomStore.MessageDb.FindClient | backend/src/main/java/com/cipherchat/chatroom/ChatroomRepositories.java:75-75 | the row of the room with this client id, or none |
| RoomStore.MessageDb.FindRow | backend/src/main/java/com/cipherchat/chatroom/MessageService.java:138-138 | the row with this id, or none |
| RoomStore.InsertKeeps | backend/src/main/java/com/cipherchat/chatroom/MessagePersistence.java:43-53 | the transaction keeps rows unique, one event per row, and every watermark the highest of its owner's rows and reads |
| RoomStore.PreviewCuts | backend/src/main/java/com/cipherchat/chatroom/MessagePersistence.java:55-57 | a text of up to 120 characters is its own preview; a longer one is cut there and ends in an ellipsis |
| RoomStore.MarkReadKeeps | backend/src/main/java/com/cipherchat/chatroom/MessageService.java:302-310 | reading keeps all of that; its one event is up to what was asked or else the room's highest sequence, the watermark is the greater of that and what it was, and nothing else changes |
| RoomStore.MessageDb.LatestSequence | backend/src/main/java/com/cipherchat/chatroom/ChatroomRepositories.java:71-72 | the room's highest sequence, or 0 |
| RoomStore.MessageDb.Read | backend/src/main/java/com/cipherchat/chatroom/MessageService.java:302-310 | one call in place: up to the given sequence, or to the latest |
| RoomStore.NamelessIsNeverAbsorbed | backend/src/main/java/com/cipherchat/chatroom/MessageService.java:135-145 | a message without a client id is never a duplicate: each send of it is a new row or fails |
| RoomTheorems.CachedLookupExact | backend/src/main/java/com/cipherchat/chatroom/MessageService.java:137-139 | whatever the cache holds or has lost, the lookup finds exactly the row the database knows |
| RoomTheorems.StepKeeps | backend/src/main/java/com/cipherchat/chatroom/MessageService.java:127-174 | every step of every replica keeps the pipeline's invariant |
| RoomTheorems.ExactlyOncePersistence | backend/src/main/java/com/cipherchat/chatroom/MessageService.java:127-174 | under every interleaving, with cache entries lost and an arbitrary counter: at most one row per (room, sequence) and per (room, client id), exactly one MessageSent event per row with its id, sequence, sender and preview, watermarks the highest of everyone's own rows and reads |
| RoomTheorems.StepRefinesDatabase | backend/src/main/java/com/cipherchat/chatroom/MessageService.java:135-173 | refinement: each step decides nothing, or decides one answer and changes the tables exactly as one atomic send on the database alone, or is one markRead |
| RoomTheorems.WatermarksOnlyAdvance | backend/src/main/java/com/cipherchat/chatroom/ChatroomRepositories.java:146-155 | over any run of senders and readers no watermark ever moves back |
| RoomTheorems.AnswersAgree | backend/src/main/java/com/cipherchat/chatroom/MessageService.java:135-173 | all ok answers for one (room, client id) name the same row and sequence, and at most the first says duplicate = false |
| RoomTheorems.RowsAreFreshAnswers | backend/src/main/java/com/cipherchat/chatroom/MessageService.java:165-173 | every row is what some send that was told duplicate = false committed |
| RoomCalls.DecidesWhatWasBegun | backend/src/main/java/com/cipherchat/chatroom/MessageService.java:148-184 | every answer decided in a run is about the message its call began with, but for the sequence |
| RoomCalls.RepliesAnswerTheirCall | backend/src/main/java/com/cipherchat/chatroom/MessageService.java:135-173 | in every run an ok answer names a row of the room asked for; with duplicate it carries the caller's client id, without it is the caller's own message, sender, content and client id, under the sequence answered |
| RoomCalls.ToldFreshOnce | backend/src/main/java/com/cipherchat/chatroom/MessageService.java:135-173 | of two calls begun with one (room, client id) and told ok, both are told the same row and sequence, and at most one that it is no duplicate |
| RoomCalls.SendIsUninterrupted | backend/src/main/java/com/cipherchat/chatroom/MessageService.java:135-173 | one call's steps, when nobody comes between, are one send of its message on the database alone: the same tables and answer |
| RoomCalls.MarkIsFound | backend/src/main/java/com/cipherchat/chatroom/MessageService.java:171-171 | a mark that is not lost makes the next lookup of the client id hit that row |
| RoomService.MessageService.Lookup | backend/src/main/java/com/cipherchat/chatroom/MessageService.java:137-139 | the lookup in place, with or without its cache entry |
| RoomService.MessageService.SendDraft | backend/src/main/java/com/cipherchat/chatroom/MessageService.java:127-174 | one replica's send: refused without access, over the rate limit or for an unknown sender with nothing written, and else the tables and the answer of a send on the database alone |
| OfflineQueue.Queue.Enqueue | chat-front/src/services/OfflineQueue.ts:100-112 | a new row under an id no row ever had |
| OfflineQueue.Queue.GetAll | chat-front/src/services/OfflineQueue.ts:114-122 | all rows of a kind, each once |
| OfflineQueue.Queue.OnDrainResult | chat-front/src/services/OfflineQueue.ts:168-181 | exactly the snapshot's confirmed items leave the queue; everything else, including what was queued since, stays |
| OfflineQueue.NamelessIsNeverConfirmed | chat-front/src/services/OfflineQueue.ts:173-178 | a row without a client id is never confirmed by an answer of the server, so no drain removes it |
| OfflineQueue.ConfirmedExactlyWhen | chat-front/src/services/OfflineQueue.ts:173-176 | an item is dropped by a drain if and only if the first result for its client id is ok or a duplicate |
| OfflineQueue.BatchConfirmsExactlyWhen | backend/src/main/java/com/cipherchat/gateway/StompController.java:66-75 | of a batch exactly what the server took is dropped, if the client ids differ |
| OfflineQueue.SettledExactlyWhen | chat-front/public/sw.js:93-99 | the flush drops an item if and only if the server took it, refused it for good, or answered 401 |
| OfflineQueue.Queue.DrainDms | chat-front/src/services/OfflineQueue.ts:199-223 | each direct message leaves only on its own acknowledgement |
| OfflineQueue.Queue.SortedIds | chat-front/public/sw.js:74-74 | the ids in the order of queuedAt, none lost or repeated |
| OfflineQueue.Queue.FlushOutbox | chat-front/public/sw.js:69-101 | exactly a prefix of the queuedAt order is removed, answered 2xx, or 4xx other than 429; the flush throws if and only if rows remain, at one without an answer or with another status |
| OfflineQueue.SendWithRetries | chat-front/src/hooks/useMessageDelivery.ts:64-123 | at most five emits; the first final answer decides, and otherwise the message is queued, never dropped and never both |
| Outbox.StepKeeps | chat-front/src/services/OfflineQueue.ts:153-223 | every step of tabs, worker, network and room pipeline keeps every queued item accounted for |
| Outbox.DropsExactlyWhen | chat-front/public/sw.js:93-99 | an answer takes an unaccounted item out of the queue if and only if it is a 401 to the worker for an item nobody has taken or refused |
| Outbox.LostExactlyWhen | chat-front/public/sw.js:69-101 | over every run of tabs, worker, network and room pipeline an item is lost at some point if and only if the worker is told such a 401 |
| Outbox.ExpiredTokenLoses | chat-front/public/sw.js:77-96 | for any item a run in which the worker's token expires and the message is neither queued, nor refused, nor in its room |
| Outbox.QueuedExactlyOnce | README.md:58-58 | end to end, in every run without such a 401: a message that was ever queued is still queued, or refused for good, or in its room exactly once; and in every run never twice |
| Outbox.QueuedSinceSurvives | chat-front/src/services/OfflineQueue.ts:148-152 | an answer to a drain removes nothing that was queued after the drain began |
| CatchUp.PerRoom | backend/src/main/java/com/cipherchat/chatroom/SyncController.java:64-64 | 200 rows per room if nothing is asked, what is asked between 1 and 500, and the nearer bound outside |
| CatchUp.Deltas | backend/src/main/java/com/cipherchat/chatroom/MessageService.java:210-234 | one delta per cursor in order; a denied room does not fail the others |
| CatchUp.AnswerSays | backend/src/main/java/com/cipherchat/chatroom/MessageService.java:218-230 | more if and only if more rows than a page are left; a full page then, and the room's highest sequence as watermark; else all of them, and the page's end |
| CatchUp.CatchUpRoom | chat-front/src/services/deltaSync.ts:95-110 | the loop asks each page from the last row of those before it, joins them, and stops exactly at the first answer without `more`, or denied, or at the last allowed page |
| CatchUp.CatchUpExactlyWhen | chat-front/src/services/deltaSync.ts:91-110 | over any room in which rows are only added, anywhere: the pages are the first rows after lastSeq (and all of them when the last answer has neither `more` nor `denied`) if and only if no row came at or below the cursor of an earlier page |
| CatchUp.MissedExactlyWhen | chat-front/src/services/deltaSync.ts:95-110 | row by row: missed are exactly those beyond the last page and those that came at or below a cursor already asked for |
| CatchUp.CaughtUpWhenAddedAbove | chat-front/src/services/deltaSync.ts:95-110 | if rows come only above the highest: the first rows after lastSeq in order, all up to the watermark when the last answer has no more, and exactly maxPages full pages when it still reports more |
| CatchUp.CompleteExactlyWhen | chat-front/src/services/deltaSync.ts:95-110 | the catch-up is complete if and only if what there was fits maxPages pages, and if and only if more is false |
| CatchUpRuns.LateRowIsMissed | backend/src/main/java/com/cipherchat/chatroom/MessageService.java:148-155 | for every page size, the client's 200 included, a run of the pipeline in which a row with a lower sequence commits between two pages of one catch-up: it ends without `more` or `denied`, and no catch-up that goes on from there brings the row |
| CatchUpRuns.SettledExactlyWhen | backend/src/main/java/com/cipherchat/chatroom/MessageService.java:148-155 | nothing can come at or below a cursor any more, in any continuation whose counter stays above it, if and only if no call holds a number there that it could fill |
| CatchUpRuns.PipelineOnlyAdds | backend/src/main/java/com/cipherchat/chatroom/MessageService.java:210-234 | in every run of the pipeline what successive pages find of a room is ascending and only ever added to |
| CatchUpRuns.CalmCatchUpIsComplete | backend/src/main/java/com/cipherchat/chatroom/MessageService.java:210-234 | a catch-up beside the running pipeline is complete if, at each page, no call held a number it could fill at or below where the page ended, and the counter gave none out until the next |
| CatchUp.HistoryPagesJoin | backend/src/main/java/com/cipherchat/chatroom/MessageService.java:190-202 | paging back loses nothing and repeats nothing, and a page holds as many rows as asked for, between 1 and 100, if there are so many |
| RefreshTheorems.StepKeeps | backend/src/main/java/com/cipherchat/auth/RefreshTokenService.java:88-107 | every step of concurrent presenters, revocations and sweeps keeps the family invariant |
| RefreshTheorems.RotatesAtMostOnce | backend/src/main/java/com/cipherchat/auth/RefreshTokenService.java:88-97 | under any interleaving each token rotates at most once and each family has at most one unused row |
| RefreshTheorems.DescendantsShareFamily | backend/src/main/java/com/cipherchat/auth/RefreshTokenService.java:78-97 | every token minted transitively from a token is of its family |
| RefreshTheorems.ReuseKillsExactlyWhen | backend/src/main/java/com/cipherchat/auth/RefreshTokenService.java:98-106 | a judged reuse empties the family, and for good if and only if no rotation of it was between its update and its insert |
| RefreshTheorems.ReplayMeetsRotation | backend/src/main/java/com/cipherchat/auth/RefreshTokenService.java:88-107 | a run in which a replay is past the grace window while another rotation of its family is between update and insert |
| RefreshTheorems.ReplayKillsDescendants | backend/src/main/java/com/cipherchat/auth/RefreshTokenService.java:88-107 | with no rotation of its family between update and insert, replaying a used, unexpired, unswept token after the grace window leaves no descendant alive, then or ever |
| RefreshPresenters.JudgedExactlyWhen | backend/src/main/java/com/cipherchat/auth/RefreshTokenService.java:98-106 | in every run a late presenter is told Reused, and its family's rows go, if and only if the row it read had been used more than the grace window before; otherwise Concurrent and nothing is deleted |
| RefreshPresenters.LoserIsConcurrent | backend/src/main/java/com/cipherchat/auth/RefreshTokenService.java:95-102 | whoever loses the conditional update is told Concurrent with the token's user, and the table stays as it is |
| RefreshPresenters.SecondTabIsConcurrent | backend/src/main/java/com/cipherchat/auth/RefreshTokenService.java:32-36 | two tabs with one cookie: the second is refused and the first one's family lives on |
| RefreshPresenters.RotatedExactlyWhen | backend/src/main/java/com/cipherchat/auth/RefreshTokenService.java:92-97 | a presenter wins exactly when the row it read was unused and unexpired and still is, and is then told Rotated |
| RefreshPresenters.FamiliesHaveOneUser | backend/src/main/java/com/cipherchat/auth/RefreshTokenService.java:73-97 | in every run each row, and each token a presenter holds, belongs to the user its family was issued to |
| RefreshService.RefreshTokens.MarkUsed | backend/src/main/java/com/cipherchat/auth/RefreshTokenRepository.java:22-24 | one caller wins: the count is 1 exactly when the row was unused and unexpired |
| RefreshService.RefreshTokens.DeleteByFamily | backend/src/main/java/com/cipherchat/auth/RefreshTokenRepository.java:31-33 | exactly the family's rows go, and are counted |
| RefreshService.RefreshTokens.DeleteByUser | backend/src/main/java/com/cipherchat/auth/RefreshTokenRepository.java:35-40 | exactly the user's rows go, but for a kept family |
| RefreshService.RefreshTokens.Rotate | backend/src/main/java/com/cipherchat/auth/RefreshTokenService.java:88-107 | one call in place: unknown, rotated, concurrent or reused, with the whole new table and the revoked count of each case |
| RefreshService.RefreshTokens.Revoke | backend/src/main/java/com/cipherchat/auth/RefreshTokenService.java:109-111 | the token's whole family goes |
| RefreshService.RefreshTokens.RevokeOthers | backend/src/main/java/com/cipherchat/auth/RefreshTokenService.java:134-146 | of the user's rows only the current family is left, nobody else's change, and the count is of the live sessions signed out |
| RefreshService.RefreshTokens.SweepExpired | backend/src/main/java/com/cipherchat/auth/RefreshTokenService.java:150-154 | exactly the expired rows and those used longer than seven days ago go |
| RefreshService.RotateIsUninterrupted | backend/src/main/java/com/cipherchat/auth/RefreshTokenService.java:88-107 | a whole rotate is what its split steps do when nobody interferes: the same table, outcome, user and revoked count |
| RefreshService.RevokedAreGone | backend/src/main/java/com/cipherchat/auth/RefreshTokenService.java:101-106 | the revoked count of a judged reuse is the number of rows its step takes out |
| Base32.Base32Encode | backend/src/main/java/com/cipherchat/auth/Totp.java:75-88 | although the accumulator overflows, the symbols spell exactly the bytes' bits, zero-filled to a multiple of five |
| Base32.Base32Decode | backend/src/main/java/com/cipherchat/auth/Totp.java:90-108 | an invalid character is refused; otherwise the buffer is filled to the last byte with the symbols' bits |
| Base32.CleanReads | backend/src/main/java/com/cipherchat/auth/Totp.java:91-91 | anywhere in the input a small letter counts as its capital, and = and blanks as nothing |
| Base32.DecodeEncode | backend/src/main/java/com/cipherchat/auth/Totp.java:75-108 | decoding any encoding of a byte string gives that byte string |
| Base32.EncodingExact | backend/src/main/java/com/cipherchat/auth/Totp.java:75-88 | byte strings of one length are equal if and only if their encodings are |
| Base32.RoundTrip | backend/src/main/java/com/cipherchat/auth/Totp.java:75-108 | what the decoder returns for what the encoder wrote is the bytes, for every byte string |
| Base32.WriteSymbols | chat-front/src/crypto/identity.ts:77-87 | the shared loop writes whole symbols and keeps fewer than five pending bits, on a 32-bit word |
| Base32.GenerateRecoveryCode | chat-front/src/crypto/identity.ts:75-90 | 20 bytes become exactly 32 symbols that spell all 160 bits, in groups of four |
| Base32.RecoveryCodesDiffer | chat-front/src/crypto/identity.ts:75-94 | two codes normalize alike if and only if their bytes are the same |
| Base32.NormalizedReads | chat-front/src/crypto/identity.ts:92-94 | anywhere in a typed code a small letter counts as its capital, and whatever is neither digit nor letter as nothing |
| BitStreams.BitsOfWrap | chat-front/src/crypto/identity.ts:81-84 | wrapping to 32 bits changes none of the low 32 bits |
| Luhn.LuhnValidTs | chat-front/src/privacy/piiRedactor.ts:39-54 | accepts exactly the strings of 13 to 19 digits whose weighted sum ends in zero |
| Luhn.LuhnValidJava | backend/src/main/java/com/cipherchat/ai/PiiGuard.java:49-66 | accepts exactly the same strings |
| Luhn.AcceptsByPairs | chat-front/src/privacy/piiRedactor.ts:44-53 | accepted is what the standard's sum by pairs from the right accepts: the check digit as it is, its neighbour by the digits of its double |
| Luhn.OneDigitDetected | chat-front/src/privacy/piiRedactor.ts:44-53 | replacing a digit of an accepted string is accepted if and only if the digit is the same |
| Luhn.SwapDetected | backend/src/main/java/com/cipherchat/ai/PiiGuard.java:53-64 | swapping two neighbouring digits is rejected unless they are equal or 0 and 9 |

## Left out

- Real cryptography, base64 and UTF-8: symbolic terms and byte sequences stand for them; overwriting of buffers after use is not observable in the model.
- Headers: pn and n are natural numbers, as the server's envelope validation admits; a negative number cannot be written.
- RatchetSecrecy.ForwardSecrecy: is about the ratchet state; the identity and prekey private keys a device also stores are outside it, so it does not speak of a stolen device as a whole.
- Active server: envelopes and bundles between the two devices come from the honest peer; the single-session network of `RatchetRun` does forge headers, associated data and noise.
- Vault.VaultDb.Session: the vault is that of one conversation; the check that a stored row belongs to the conversation asked for is not modelled.
- E2EEService.Service.ShredConversation: previews, the search snapshot and the backup are left out.
- Device.Step: a crash between making the data key and the commit it is for, and the per-page fallback queue used where the browser has no Web Locks, are not modelled; the lock is exclusive across tabs.
- The choice of protocol: the device machine is one that has opted in to v2 for new sessions; `ServiceV1` is one that has not and holds no v2 session.
- ServiceV1.Conversation.Decrypt: is one whole call; its reads and writes are split and interleaved in `TabsV1`. Restoring a backup is left out of the v1 counter claims.
- ServiceV1.Conversation.Encrypt: its counters claim is for whole calls and without shredding; `TabsV1Spending.SpentTwiceExactlyWhen` is the one for tabs and shredding.
- Trust on first use, safety numbers, key reset, backup and restore, wiping, previews, search index: outside the session invariants.
- RoomTheorems.ExactlyOncePersistence: rows are never deleted or expired in the model; sequences are unique but not claimed gapless, since a racing duplicate burns an allocated number.
- RoomStore.Preview: lengths are counted in characters, not in UTF-16 units.
- Membership, reactions, per-message receipts, pins, search, editing: not part of this model; access and rate limit are answers handed to `SendDraft`, and in the pipeline a refused call never begins.
- The database, Redis and Kafka themselves: transactions are atomic steps, the unique indexes hold, the cache may lose anything, and the event is the row in the outbox table, not its delivery.
- OfflineQueue.StatusOf: the statuses are those of this server for a send; a proxy's own, and the 409 that can follow a committed row when two replicas record the same new member, are not modelled.
- Outbox.QueuedExactlyOnce: is about chatroom items with a client id. A row migrated from the first schema may have none: no drain removes it (`OfflineQueue.NamelessIsNeverConfirmed`) and each send of it is a row of its own (`RoomStore.NamelessIsNeverAbsorbed`). The server side of direct messages, and their replay index, is not part of this model.
- CatchUp.CatchUpRoom: an answer without the room asked for, which the server never sends, is not modelled; nor are rows deleted or expired between pages.
- RefreshFamilies.Step: each statement of a rotation is visible at once, which allows more interleavings than the database does; times are whole seconds.
- Session listing, revokeSession and revokeAll: deletions of rows like those modelled, covered in the machine by its removal of any set of rows.
- Base32.Base32Decode: upper-casing is modelled for ASCII letters only.
- Detectors, redaction maps and everything else of the two PII modules but luhnValid; TOTP codes; JWT; two-factor backup codes: no hard property of their own.
- User interface, notifications, STOMP wiring, metrics, audit and analytics.
