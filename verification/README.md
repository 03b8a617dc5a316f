# Verified model of the messaging core

The repository is an end-to-end encrypted messenger. This project models, in Dafny 4.11, the parts of its
browser client on which the guarantees rest, and proves what they promise:

- the **Double Ratchet** between two devices and the **X3DH handshake** (classical and hybrid) that starts it:
  two machines with mutable state over a channel that drops, repeats and reorders;
- the **binary formats** in which its data travel and are stored;
- the **bookkeeping of conversations**: outbound statuses, receipts, the window of received ids, restored history.

Run `dafny verify dfyconfig.toml` in this directory to check all of it.

## How the model is built

**Cryptography** is symbolic and needs no axioms (`Terms.dfy`). Derived keys are constructors of a datatype, so
they are injective and strictly grow; a DH output is the unordered pair of two private keys; a ciphertext opens
under the key, nonce and associated data it was sealed with and under nothing else. Fresh keys come from a counter.
A public value is a point in some encoding or a value that the X25519 library refuses: keys are compared as bytes, a
DH output depends on the point, and the library call may throw between two updates of the ratchet's fields.

**The ratchet** is the class of `DoubleRatchet.dfy`, with the source's fields, loops and early throws. Each method is
proved to do to the fields what a function in `Ratchet.dfy` says, and those functions return the new state of a
throwing call too, because the source changes state before it may throw. All theorems about runs are theorems about
these functions. `RatchetSafety.dfy` is about one ratchet under arbitrary input. `TwoParty.dfy` sets up two ratchets
and a channel; `Epochs.dfy` states what synchronised ratchets have in common as a sequence of epochs, each one root
step from the one before, and `Synchrony.dfy` proves that every admissible run keeps it. Admissible is every delivery,
first, repeated, superseded or refused, that leaves the parties in step: `Torn.InStepExactly` proves of any delivery
that some plan fits afterwards if and only if it is harmless (`TwoParty.Harmless`, a condition on the receiver's buffer
and the header). The two ways to do harm are the subjects of `Desync.dfy` (a late message that turns the ratchet) and
of `Torn.dfy` and `TornTurn.dfy` (a skip loop that breaks off). `Room.dfy` counts the room that a delivery needs on the
channel, and `RatchetOrder.dfy` is about reordering within an epoch.

**The formats** are written into arrays at offsets and read by slices as in the source, each method against a function
on byte sequences; the round trips and injectivity are proved about those functions.

**The chat controller** is the class of `ChatController.dfy`, proved against the events of `ChatRuns.dfy`. A message
object is known by a serial number, because a send in progress keeps the object while the list it is in may be
cleared, closed or restored from disk.

| file | what it holds |
|---|---|
| `Terms`, `Ratchet`, `DoubleRatchet`, `E2EESession` | symbolic terms, ratchet functions, the two classes |
| `SkippedKeys`, `RatchetSafety`, `RefusedKeys`, `Corrupted`, `RatchetOrder` | the skip loop, safety of one ratchet and its exact limits, order independence |
| `Refusals` | every refusal of the ratchet and the state it leaves |
| `TwoParty`, `Epochs`, `Synchrony`, `Room`, `Desync`, `Torn`, `TornTurn` | two parties, their common epochs, the theorems, room on the channel, the two exact limits |
| `Handshake`, `Agreement` | X3DH and session start, and when both sides agree |
| `Bytes`, `WireCodec`, `SkipOrder`, `StateCodec`, `StateRoundTrip`, `Bisimulation` | framing, state export and import |
| `InitFrames`, `HybridKdf`, `DeviceKeyPayload`, `Base64Url` | the other formats |
| `Layouts`, `Base64Standard` | offsets, accepted bytes and bits, independent of the codecs |
| `DedupWindow`, `ChatHistory`, `ChatRuns`, `ChatController` | conversations: the window, restored history, the events, the class |
| `ReceiptSafety`, `ReceiptEffects`, `Provenance` | statuses, receipts and contents over runs |
| `ConversationFields`, `MessageLists`, `Records` | every field, list and record after every event, sessions and retention over runs |

## What does not hold, and when it does

Seven properties that one might expect of the code hold only under a condition. The code is modelled as it is; each
condition is proved to be exact.

- **A late message from before a key rotation.** `docs/DOUBLE_RATCHET.md` (lines 80 and 93) promises that it
  decrypts. It does, if there is room, but the ratchet turns before it looks into the buffer
  (`src/crypto/doubleRatchet.ts:295-303`; section 3.5 of "The Double Ratchet Algorithm" looks first), so the turn steps
  the root over a key whose private half is gone. `Desync.InStepExactlyUnlessSuperseded`: a delivery that is read
  leaves the parties in step if and only if no later key of its sender has been seen. Otherwise the receiver's next
  message is unreadable, and `Desync.LateMessageExists` is a run of four messages that gets there. All that rests on
  the room for the forced turn (`SkippedKeys.CanTurn`): without it the late message is refused, and the receiver's next
  message is the one it would have been (`Desync.LateMessageDesynchronises`). Refused before a key is buffered, it
  leaves the parties in step, and `Torn.LateRefusalExists` reaches that for every `maxSkip` below the counter width.
- **A refused message can come again when there is room.** The skip loops move the receive index before they throw
  for want of room, and the receive chain only afterwards (`src/crypto/doubleRatchet.ts:317-325, 385-393`).
  `Torn.InStepExactlyUnlessTorn`: a delivery that is not superseded leaves the parties in step if and only if it does
  not break off on the way, which it does when the buffer has room for some of a gap that is no longer than `maxSkip`
  and not for all of it (`SkippedKeys.Tears`). A refusal before that point, a repeat and a gap over the bound
  included, can be made good (`Torn.RefusedIsReadLater`). After it nothing under the receiver's remote key opens from
  the index reached on, whatever follows (`Torn.TornEpochIsLost`, `Torn.TornEpochStaysLost`). When the loop broke off
  in the epoch before the refused message's own, the message is not lost with that epoch:
  `TornTurn.TornTurnIsReadExactly` says when it is read at last. `Torn.TearExists` and `TornTurn.TornTurnExists`
  reach both kinds for every `maxSkip` from 2 on below the counter width, the default of 1000 included.
- **At most once.** No run of a ratchet reads a frame under a ratchet key twice, if and only if the X25519 library
  accepts the key, or the buffer takes at most one key, or there is no remote key (`RefusedKeys.AtMostOnceExactly`).
  A key that the library refuses resets the receive index at `src/crypto/doubleRatchet.ts:361-364` and throws before
  the chain changes; `RefusedKeys.RefusedKeyReplays` is a run for every `maxSkip` from 2 on, so also for the 1000 of the
  application (`src/crypto/doubleRatchet.ts:22`). Honest frames always carry accepted keys: the frame that is read twice
  must be sealed by a holder of the chain key.
- **After a failed authentication.** The key that a header led to is used up whatever the ciphertext
  (`src/crypto/doubleRatchet.ts:302, 326-335`), so a corrupted copy loses the message itself
  (`Corrupted.OneTryPerKey`, `Corrupted.CopyLosesMessage`). The header is refused only until the ratchet turns away from
  its key and back, when indices start again under another key (`Corrupted.RefusedUntilRootStep`): from every state some
  run reads a frame with a given header under an accepted key, if and only if the ratchet has a remote key at all
  (`Corrupted.HeaderComesAgainExactly`).
- **Handshake agreement.** The initiator always announces one-time prekey 0 (`src/crypto/x3dh.ts:204`). Both sides
  agree if and only if the bundle's one-time prekey, when there is one, is the responder's first
  (`Agreement.SecretsAgreeExactly`). With another of its prekeys the handshake goes through and the secrets differ
  (`Agreement.OtherOpkDisagrees`).
- **State export.** A ratchet comes back as it was if and only if its counters and buffer fit 32 bits, its remote key
  is not 32 zero bytes, and its role is the one that its chains show; the role flag is recomputed on import
  (`src/crypto/doubleRatchet.ts:528`) but no call reads it, so later calls agree all the same.
- **Device keys.** A payload round-trips if and only if the device holds both post-quantum keys, each of its fixed size,
  or neither. With one of them, that one is lost (`src/crypto/deviceKeys.ts:372-376`); shorter keys are written without
  an error and come back padded or overlapped, and the write fails only for keys that reach past the end.

## Model

| member | source | states |
|---|---|---|
| Terms.AdvanceShape | src/crypto/ratchetKdf.ts:48-56 | chain steps never leave their origin and each moves the position by one, so a chain key identifies its chain and its index |
| DoubleRatchet.DoubleRatchet.constructor | src/crypto/doubleRatchet.ts:230-260 | the start chain is the sending chain of the initiator and the receiving chain of the responder; counters and buffer are empty, and the role is the one given |
| DoubleRatchet.DoubleRatchet.EncryptMessage | src/crypto/doubleRatchet.ts:270-290 | the whole new state and outcome of an encryption, also when opening a sending chain throws |
| DoubleRatchet.DoubleRatchet.DecryptMessage | src/crypto/doubleRatchet.ts:292-337 | the whole new state and outcome of a decryption, with every throwing path and what it has changed by then |
| DoubleRatchet.DoubleRatchet.TakeMessageKey | src/crypto/doubleRatchet.ts:299-328 | a message key comes from the buffer, which loses it, or from the moved receive chain; the loop advances the index but not the chain when it throws |
| DoubleRatchet.DoubleRatchet.GenerateSendingChain | src/crypto/doubleRatchet.ts:339-355 | one root step with a fresh key, or an error that changes nothing |
| DoubleRatchet.DoubleRatchet.DhRatchet | src/crypto/doubleRatchet.ts:357-378 | two root steps; a throw between them leaves the fields half turned |
| DoubleRatchet.DoubleRatchet.SkipMessageKeys | src/crypto/doubleRatchet.ts:380-393 | the rest of the receive chain is buffered, or the bound is reported |
| DoubleRatchet.DoubleRatchet.BufferSkipped | src/crypto/doubleRatchet.ts:395-406 | a key is buffered unless the buffer is full or no remote key is known |
| Refusals.EncryptExactly | src/crypto/doubleRatchet.ts:270-290 | the frame, its key, nonce and header and the new state of every encryption, and every refusal by what the caller can see, unchanged |
| Refusals.KeyRefusedExactly | src/crypto/doubleRatchet.ts:299-328 | under the current remote key: which error refuses which index, and that nothing has changed but where a loop began |
| Refusals.SkipRefusedExactly | src/crypto/doubleRatchet.ts:380-406 | the same of the rest of the old chain before a turn |
| Refusals.TurnStopsExactly | src/crypto/doubleRatchet.ts:357-378 | what a turn leaves behind when the library refuses the key, and when the fresh key has a wrong length |
| Refusals.HalfTurnExactly | src/crypto/doubleRatchet.ts:357-378 | after a turn that stopped at the fresh key the same frame is read without another turn, and what is sent goes out on the old chain under index 0 |
| Refusals.TurnsFirst | src/crypto/doubleRatchet.ts:292-303 | a frame under another key is refused where its turn stops, and is otherwise treated as one under the current key after the turn |
| Refusals.AuthFailedExactly | src/crypto/doubleRatchet.ts:299-337 | a frame opens if and only if it was sealed with the key, index, header and associated data that it is opened with; the state does not depend on it |
| Refusals.BufferedKeyIsTaken | src/crypto/doubleRatchet.ts:299-303 | a buffered key leaves the buffer when its slot is asked for, whatever comes of the frame |
| Refusals.LoopRefusal | src/crypto/doubleRatchet.ts:395-406 | a skip loop throws for want of room, and over a full buffer before it has changed anything |
| SkippedKeys.BufferKeysMoves | src/crypto/doubleRatchet.ts:317-325 | the skip loop keeps chain and index in step, stops short only by throwing, and keeps the bound |
| SkippedKeys.BufferKeysFills | src/crypto/doubleRatchet.ts:385-392 | whether or not it throws, the loop adds exactly the chain-derived keys of the indices it passed |
| SkippedKeys.BufferKeysFits | src/crypto/doubleRatchet.ts:395-406 | over free slots the loop succeeds if and only if the buffer has room for the whole gap |
| RatchetSafety.RunKeepsGrounded | src/crypto/doubleRatchet.ts:270-406 | over any calls with any input, chains and buffered keys stem from roots that the root key has left behind |
| RatchetSafety.AtMostOnce | src/crypto/doubleRatchet.ts:292-406 | in any run with arbitrary frames and throwing calls, a frame that decrypted once is refused ever after, under any associated data |
| Corrupted.HeaderAloneMoves | src/crypto/doubleRatchet.ts:299-337 | the state after a frame depends neither on its ciphertext nor on the associated data: a failed authentication undoes nothing |
| Corrupted.OneTryPerKey | src/crypto/doubleRatchet.ts:299-337 | in any run, a frame that would have been read where another with its header arrived is refused ever after |
| Corrupted.CopyLosesMessage | src/crypto/doubleRatchet.ts:299-337 | between two parties: after a copy with other contents the message itself is never read, whatever is called |
| Corrupted.HeaderComesAgainExactly | src/crypto/doubleRatchet.ts:357-378 | some later run reads a frame with a given header, under a key of its own, if and only if the ratchet has a remote key: headers are not used up |
| Corrupted.RefusedUntilRootStep | src/crypto/doubleRatchet.ts:299-315 | until the next root step a header that the index has passed is refused unchanged, with any contents |
| Corrupted.FailurePasses | src/crypto/doubleRatchet.ts:302-335 | after a failed authentication the key is gone, and the index has passed the header unless the key was a buffered one |
| RefusedKeys.AtMostOnceExactly | src/crypto/doubleRatchet.ts:357-368 | for every ratchet made from a root step: no run reads a frame under a ratchet key twice if and only if the X25519 library accepts that key, or the buffer takes at most one key, or there is no remote key |
| RefusedKeys.RefusedKeyReplays | src/crypto/doubleRatchet.ts:361-365 | for every refused key, role and maxSkip from 2 on, a run that decrypts one frame twice |
| RefusedKeys.AtMostOnceInSmallBuffer | src/crypto/doubleRatchet.ts:317-325 | a buffer of at most one key never lets a frame be read twice, refused keys included, because the loop cannot throw after it has buffered |
| RatchetSafety.NoKeyReuse | src/crypto/doubleRatchet.ts:270-290 | in any run with arbitrary input, no two encryptions use one AES key or one nonce |
| RatchetSafety.SkipBufferBounded | src/crypto/doubleRatchet.ts:395-406 | the buffer never exceeds maxSkip, whatever arrives and whatever throws |
| Epochs.DeliversInEpoch | src/crypto/doubleRatchet.ts:299-328 | a message of the receive epoch gives its plaintext if and only if the gap before it fits; a repeat is refused and changes nothing, and so is a gap that the loop does not start on |
| Epochs.DeliversNextEpoch | src/crypto/doubleRatchet.ts:295-378 | a message of the peer's next epoch turns the ratchet to an epoch of its own and gives its plaintext, if and only if both gaps fit; a refusal that no loop has broken off leaves the ratchet as it was, or turned |
| Synchrony.StartsInStep | src/crypto/e2eeSession.ts:126-185 | two ratchets over one root secret start in step |
| Synchrony.SendKeepsInStep | src/crypto/doubleRatchet.ts:270-290 | every send succeeds and keeps the parties in step, the responder's first one included |
| Synchrony.DeliverKeepsInStep | src/crypto/doubleRatchet.ts:292-378 | every admissible delivery keeps the parties in step, whether it is read, repeated, superseded or refused |
| Synchrony.LateRefusal | src/crypto/doubleRatchet.ts:380-401 | a superseded delivery whose turn is refused before a key is buffered changes nothing, and the same plan fits |
| Synchrony.RunKeepsInStep | src/crypto/doubleRatchet.ts:270-406 | every admissible run keeps the parties in step |
| Synchrony.DeliveryIsCorrect | src/crypto/doubleRatchet.ts:292-337 | wherever an admissible run leads, a delivery that is not superseded gives exactly the plaintext sent if and only if the buffer has room; a repeat is refused unchanged |
| Synchrony.SendingSucceeds | src/crypto/doubleRatchet.ts:270-290 | wherever an admissible run leads, a send succeeds |
| Synchrony.RootLockstep | src/crypto/doubleRatchet.ts:339-378 | the root keys are equal or one root step apart, over the two current ratchet keys; the peer's sending chain extends the receive chain by what is still to come |
| Synchrony.ReceiveChainLeads | src/crypto/doubleRatchet.ts:313-328 | from its position on, a receive chain derives the key of every message sent under the remote key, also when the sender has turned since |
| Synchrony.NoKeyReuseAcrossParties | src/crypto/ratchetKdf.ts:34-85 | no two messages of a run, of either party, are sealed under one AES key or one nonce |
| Synchrony.BufferConservation | src/crypto/doubleRatchet.ts:380-406 | a message its receiver has passed is delivered, or its buffered key opens it, and never both |
| Room.RoomIsOutstanding | src/crypto/doubleRatchet.ts:299-406 | the keys that the buffer holds and those that a delivery adds are as many as the messages of the sender that have been overtaken, or now are, and have not been read |
| Room.ReadExactlyIfOutstandingFits | src/crypto/doubleRatchet.ts:299-406 | a first delivery gives its plaintext if and only if no more such messages are outstanding than maxSkip, a condition on the channel alone |
| Room.InOrderIsRead | src/crypto/doubleRatchet.ts:292-337 | in order every message is read, also with maxSkip 0 |
| Torn.InStepExactly | src/crypto/doubleRatchet.ts:292-406 | any delivery, first or repeated, superseded or not, read or refused, leaves the parties in step if and only if it is harmless: superseded, and refused before a key is buffered, or not superseded, and not broken off |
| Torn.LateRefusalExists | src/crypto/doubleRatchet.ts:382-384 | for every maxSkip that leaves counters within 32 bits, a reachable world in which a superseded delivery is harmless |
| Torn.InStepExactlyUnlessTorn | src/crypto/doubleRatchet.ts:317-325 | a delivery that is not superseded leaves the parties in step if and only if no skip loop breaks off on its way |
| Torn.RefusedIsReadLater | src/crypto/doubleRatchet.ts:313-325 | a message refused without such a break is read after any admissible run, if and only if there is room then |
| Torn.TornEpochIsLost | src/crypto/doubleRatchet.ts:317-325 | after a break no message in the log under the receiver's remote key opens from the index reached on, whatever is called in between; the refused message is one of them when it is under that key |
| Torn.TornEpochStaysLost | src/crypto/doubleRatchet.ts:385-393 | nor does any message that the sender goes on to send under that key |
| Torn.TearExists | src/crypto/doubleRatchet.ts:395-401 | a reachable world with such a delivery, for every maxSkip from 2 on that leaves counters within 32 bits |
| TornTurn.TornTurnIsReadExactly | src/crypto/doubleRatchet.ts:295-328 | a message whose delivery broke off in the epoch before its own: whatever is called in between, while the receiver has not turned it is read if and only if there is room for both gaps, and once the receiver stands in its epoch, if and only if its key is still to be had and there is room, as long as no loop has broken off in that epoch |
| TornTurn.TornTurnExists | src/crypto/doubleRatchet.ts:380-401 | a reachable world with such a delivery, for every maxSkip from 2 on that leaves counters within 32 bits |
| RatchetOrder.OrderIndependent | src/crypto/doubleRatchet.ts:299-328 | two orders of the same messages of a batch that fits the buffer give every plaintext and leave one and the same state |
| RatchetOrder.AnyPermutation | src/crypto/doubleRatchet.ts:299-328 | after any permutation of the whole batch the chain is past it and the buffer is as before |
| Desync.LateMessageIsRead | src/crypto/doubleRatchet.ts:295-303 | a superseded message that is new is read if and only if the turn it forces finds room |
| Desync.LateMessageDesynchronises | src/crypto/doubleRatchet.ts:295-378 | after a superseded delivery whose turn finds room, whatever the receiver sends next is not read by its peer; without room, the receiver sends what it would have sent |
| Desync.InStepExactlyUnlessSuperseded | src/crypto/doubleRatchet.ts:295-303 | a delivery that is read, first or not, leaves the parties in step if and only if it is not superseded; what is refused is in Torn.InStepExactly |
| Desync.LateMessageExists | src/crypto/doubleRatchet.ts:295-303 | with room for one key, a reachable run in which a superseded message is waiting |
| Handshake.X3dhInitiate | src/crypto/x3dh.ts:161-223 | the checks in their order, then the secret over a list of DH outputs that the one-time prekey extends |
| Handshake.X3dhRespond | src/crypto/x3dh.ts:228-269 | the responder's list of DH outputs, with the one-time prekey looked up after the first three |
| Handshake.X3dhRespondHybrid | src/crypto/x3dh.ts:396-459 | the same with the one-time prekey looked up first, and the capsule opened |
| Agreement.InitiateExactly | src/crypto/x3dh.ts:161-223 | the initiator succeeds if and only if the prekey signature is the identity's, the identity is present and no key is refused; its secret is over these DH outputs in this order |
| Agreement.RespondExactly | src/crypto/x3dh.ts:228-269 | the responder's secret for any payload with accepted keys, and the missing one-time prekey |
| Agreement.SecretsAgreeExactly | src/crypto/x3dh.ts:161-269 | both sides derive one secret if and only if the bundle's prekeys are the responder's and its one-time prekey is the first; the associated data agree if and only if the identity is carried unchanged |
| Agreement.OtherOpkDisagrees | src/crypto/x3dh.ts:202-205 | with another one-time prekey the handshake is accepted and the secrets differ, or the payload is refused when none is left |
| Agreement.SessionsStartInStep | src/crypto/e2eeSession.ts:118-186 | initiate and accept give one associated data and two ratchets that start a reachable world |
| Agreement.HybridRootsAgreeExactly | src/crypto/e2eeSession.ts:195-297 | both sides derive one hybrid root if and only if all public inputs agree and the one-time prekey is the first; the capsule opens to the initiator's secret |
| Agreement.HybridExactly | src/crypto/x3dh.ts:285-379 | the refusals that come before the classical ones, the capsule for the responder and the KEM key that travels with it |
| Agreement.HybridResponseExactly | src/crypto/x3dh.ts:396-459 | the refusals in their order; the capsule gives the initiator's secret if and only if it was made for this device |
| Agreement.RootsExactly | src/crypto/e2eeSession.ts:195-297 | which input stands where in the transcript of both root secrets |
| Agreement.HybridSessionsStartInStep | src/crypto/e2eeSession.ts:195-316 | the hybrid pair starts a reachable world under the same conditions |
| Agreement.SessionsRefusedExactly | src/crypto/e2eeSession.ts:118-316 | all four session calls are refused exactly as their handshakes are, and only the initiator's sessions carry a payload |
| Agreement.ConversationIsCorrect | src/crypto/e2eeSession.ts:118-186 | whatever admissible run follows a handshake, a first delivery that is not superseded gives its plaintext if and only if no more messages are outstanding than the receiver was created to hold keys for |
| E2EESession.E2EESession.EncryptMessage | src/crypto/e2eeSession.ts:318-324 | the ratchet encrypts under the session's associated data followed by the caller's |
| E2EESession.E2EESession.DecryptMessage | src/crypto/e2eeSession.ts:326-332 | the ratchet decrypts under the session's associated data followed by the caller's |
| E2EESession.ContextIsBound | src/crypto/e2eeSession.ts:318-332 | a sealed message opens, in any ratchet, only under the session identities and the caller's context it was sealed under, and to its plaintext |
| Bytes.ConcatBytes | src/crypto/doubleRatchet.ts:558-567 | the buffer filled at a moving offset is the concatenation of the parts |
| WireCodec.PackHeader | src/crypto/doubleRatchet.ts:88-106 | the 41 bytes of a header, or an error for a wrong key length |
| WireCodec.HeaderRoundTrip | src/crypto/doubleRatchet.ts:88-123 | a header survives the wire if and only if it has this version and 32-bit counters |
| WireCodec.HeaderIsCanonical | src/crypto/doubleRatchet.ts:108-123 | accepted header bytes are the packing of what they unpack to |
| WireCodec.PackMessage | src/crypto/doubleRatchet.ts:125-133 | header and ciphertext in one buffer, or an error without room for a tag |
| WireCodec.MessageRoundTrip | src/crypto/doubleRatchet.ts:125-141 | every message comes off the wire as it was put on, and the authenticated header is the one that travels |
| WireCodec.MessageIsCanonical | src/crypto/doubleRatchet.ts:135-141 | no two byte strings are read as one message |
| Layouts.MessageLayout | src/crypto/doubleRatchet.ts:88-133 | every field of a message at its offset, counters most significant byte first |
| Layouts.MessageAcceptedExactly | src/crypto/doubleRatchet.ts:108-141 | which bytes are a message, and the error of the others |
| WireCodec.BytesToBase16 | src/crypto/doubleRatchet.ts:607-615 | the hexadecimal form of the bytes |
| WireCodec.Base16ToBytes | src/crypto/doubleRatchet.ts:616-623 | undoes the hexadecimal form, and what `parseInt` makes of any other string of even length; an odd length is an error |
| WireCodec.Base16Digits | src/crypto/doubleRatchet.ts:607-615 | two lower-case digits for each byte, by character code |
| WireCodec.PairsExactly | src/crypto/doubleRatchet.ts:616-623 | what every pair of characters is read as, digits of either case, white space and signs included |
| WireCodec.ParseSkipKey | src/crypto/doubleRatchet.ts:587-604 | undoes skipKey for every remote key and index |
| WireCodec.SkipKeyInjective | src/crypto/doubleRatchet.ts:587-595 | two slots have one map key if and only if they are the same slot |
| Layouts.SkipKeyLayout | src/crypto/doubleRatchet.ts:587-595 | the remote key and then the index, in hexadecimal |
| SkipOrder.CompareBytes | src/crypto/doubleRatchet.ts:578-585 | the loop computes the byte-lexicographic comparison |
| SkipOrder.SortedInOrder | src/crypto/doubleRatchet.ts:427 | sorting distinct slots orders them by remote key and then by index |
| SkipOrder.SortedByKeyThenIndex | src/crypto/doubleRatchet.ts:427 | of two entries the earlier has the smaller byte where their remote keys first differ, or the same key and the smaller index |
| SkipOrder.SortingIsCanonical | src/crypto/doubleRatchet.ts:422-427 | every ordering of the same entries is the same sequence, however they were added |
| StateCodec.ReadMap | src/crypto/doubleRatchet.ts:422-426 | the entries of the string-keyed map are the slots that were put in |
| StateCodec.PackEntries | src/crypto/doubleRatchet.ts:428-436 | each entry takes 68 bytes: remote key, index, message key |
| StateCodec.PackStateHeader | src/crypto/doubleRatchet.ts:437-452 | the 115 header bytes, with flags for the chains and zeros for no remote key |
| StateCodec.ExportState | src/crypto/doubleRatchet.ts:420-460 | the exported bytes of any state |
| StateCodec.FromStateBytes | src/crypto/doubleRatchet.ts:466-537 | what any bytes are imported as, with every error and a repeated slot keeping its place |
| Layouts.StateLayout | src/crypto/doubleRatchet.ts:437-460 | every field of an exported ratchet at its offset, zeros for what is absent |
| Layouts.EntryLayout | src/crypto/doubleRatchet.ts:428-436 | every skipped key at its offset, in sorted order |
| Layouts.StateAcceptedExactly | src/crypto/doubleRatchet.ts:466-514 | which bytes are an exported state, and the error of the others |
| Layouts.RestoredFields | src/crypto/doubleRatchet.ts:466-537 | every field of an imported state; flags count only when they are 1 |
| Layouts.RestoredMap | src/crypto/doubleRatchet.ts:502-514 | the imported map holds every slot once, with the value put in last, in the order in which the slots came first |
| StateRoundTrip.RestoreExported | src/crypto/doubleRatchet.ts:420-537 | what importing an export gives for every state, including counters over 32 bits and a buffer too long for its length field |
| StateRoundTrip.ExportRoundTripExactly | src/crypto/doubleRatchet.ts:420-537 | every field and skipped key comes back if and only if they fit their widths, the remote key is not zero and the role shows in the chains |
| StateRoundTrip.ExportIsCanonical | src/crypto/doubleRatchet.ts:420-436 | the export depends on the entries of the map and not on their insertion order |
| StateRoundTrip.ExportIsInjective | src/crypto/doubleRatchet.ts:420-460 | equal exports come from equal skipped keys and equal restorable fields |
| StateRoundTrip.ReexportIsStable | src/crypto/doubleRatchet.ts:420-537 | exporting what was imported gives the same bytes |
| StateRoundTrip.ExportSession | src/crypto/e2eeSession.ts:342-350 | the seven header bytes, the associated data and the ratchet |
| StateRoundTrip.SessionRoundTripExactly | src/crypto/e2eeSession.ts:342-376 | role and associated data come back around the restored ratchet if and only if the associated data fit the two-byte length |
| Layouts.SessionLayout | src/crypto/e2eeSession.ts:342-350 | every field of an exported session at its offset |
| Layouts.SessionAcceptedExactly | src/crypto/e2eeSession.ts:352-376 | which bytes are an exported session, what they are read as, and the error of the others |
| Bisimulation.RunIgnoresRole | src/crypto/doubleRatchet.ts:354 | two ratchets that differ in their role alone give the same replies to every sequence of calls |
| Bisimulation.RestoredAnswersAlike | src/crypto/doubleRatchet.ts:420-537 | a restored ratchet gives, for every later sequence of calls and the same randomness, the replies of the exported one |
| Bisimulation.SomeStateDenoted | src/crypto/doubleRatchet.ts:466-537 | under every faithful reading of keys there is a ratchet that holds the restored fields and distinct slots |
| Bisimulation.ExportedAndRestoredAnswerAlike | src/crypto/doubleRatchet.ts:420-537 | for every restorable export, a ratchet it comes from, a ratchet it restores to, and equal replies of the two to every sequence of calls |
| InitFrames.BuildInitPayload | src/crypto/x3dh.ts:486-499 | the 66 bytes of version 1, or an error for a wrong length |
| InitFrames.BuildInitPayloadV2 | src/crypto/x3dh.ts:541-574 | the 2338 bytes of version 2, or an error for a wrong length |
| InitFrames.ParseBuilt1 | src/crypto/x3dh.ts:461-499 | parsing what was built gives it back if and only if the index is absent or below 255 |
| InitFrames.BuildParsed1 | src/crypto/x3dh.ts:461-484 | building what was parsed gives the same bytes, for every accepted payload |
| InitFrames.ParseBuilt2 | src/crypto/x3dh.ts:541-609 | parsing what was built gives it back if and only if the index is absent or below 255 |
| InitFrames.BuildParsed2 | src/crypto/x3dh.ts:576-609 | building what was parsed gives the same bytes, for every accepted payload |
| InitFrames.VersionsAreDisjoint | src/crypto/x3dh.ts:461-620 | no bytes are accepted by both parsers, and the detected version with the length decides which one accepts |
| Layouts.InitLayout1 | src/crypto/x3dh.ts:486-499 | every field of a version 1 payload at its offset |
| Layouts.InitLayout2 | src/crypto/x3dh.ts:541-574 | every field of a version 2 payload at its offset |
| Layouts.InitAcceptedExactly | src/crypto/x3dh.ts:461-609 | which bytes each parser accepts, and the error of the others |
| HybridKdf.HybridTranscript | src/crypto/hybridKdf.ts:58-87 | the transcript's pre-image, or an error for another version |
| HybridKdf.PreImageInjective | src/crypto/hybridKdf.ts:58-80 | the pre-image determines the version and every field when the KEM key has its fixed size |
| HybridKdf.TranscriptLayout | src/crypto/hybridKdf.ts:38-80 | the context as ASCII codes, and every field of the pre-image at its offset |
| HybridKdf.EncodeLp | src/crypto/hybridKdf.ts:108-117 | two big-endian length bytes, or an error over 65535 |
| HybridKdf.HybridIkm | src/crypto/hybridKdf.ts:94-106 | the framed key material, or an error for a secret that is too long |
| HybridKdf.IkmInjective | src/crypto/hybridKdf.ts:94-117 | the framed key material determines the transcript and both secrets |
| HybridKdf.IkmLayout | src/crypto/hybridKdf.ts:94-117 | the transcript and both secrets behind their lengths, at their offsets |
| DeviceKeyPayload.SerializeDeviceKeys | src/crypto/deviceKeys.ts:370-397 | the bytes written at a moving offset, in all four shapes and for post-quantum keys of any length, or the range error of a write past the end |
| DeviceKeyPayload.DeserializeDeviceKeys | src/crypto/deviceKeys.ts:399-452 | what any bytes are read as, with every error |
| DeviceKeyPayload.PayloadRoundTripExactly | src/crypto/deviceKeys.ts:370-452 | the keys come back if and only if both post-quantum keys are held, each of its fixed size, or neither; one alone is dropped |
| DeviceKeyPayload.VersionOneReadsTheSame | src/crypto/deviceKeys.ts:404-445 | a version 1 payload gives the same classical keys, whatever follows it |
| DeviceKeyPayload.RewritingKeepsKeys | src/crypto/deviceKeys.ts:399-452 | the keys of every accepted payload survive being written again; the bytes are the same if and only if it is of version 2 and ends where its keys do |
| Layouts.DeviceLayout | src/crypto/deviceKeys.ts:370-397 | every key at its offset, with and without a one-time prekey |
| Layouts.PqBytes | src/crypto/deviceKeys.ts:370-397 | post-quantum keys of any length: when they can be written, and every byte that then stands there |
| Layouts.DeviceAcceptedExactly | src/crypto/deviceKeys.ts:399-452 | which bytes are a payload, and the error of the others |
| Base64Url.IndexOfIsExact | src/crypto/base64url.ts:45-49 | a character has a value if and only if the alphabet has it at that index |
| Base64Url.EncodeBase64Url | src/crypto/base64url.ts:19-43 | the loop encodes three bytes at a time and the one or two that remain |
| Base64Url.DecodeBase64Url | src/crypto/base64url.ts:58-94 | padding is added and stripped again before decoding |
| Base64Url.DecodeClean | src/crypto/base64url.ts:68-93 | the loop decodes four characters at a time into a buffer of exactly the right length |
| Base64Url.Base64RoundTrip | src/crypto/base64url.ts:12-94 | every byte sequence comes back from its encoding followed by any number of padding characters |
| Base64Url.EncodedShape | src/crypto/base64url.ts:12-43 | the encoding has ceil(4n/3) characters, all from the alphabet |
| Base64Url.AcceptsExactly | src/crypto/base64url.ts:68-93 | decoding succeeds if and only if every character is in the alphabet, but for a single last one that is not looked at |
| Base64Url.CanonicalExactly | src/crypto/base64url.ts:58-94 | an accepted string is the encoding of what it decodes to if and only if its length is not 1 modulo 4 and the bits that no byte takes are zero |
| Base64Standard.AlphabetIsTable2 | src/crypto/base64url.ts:14-49 | the alphabet is Table 2 of RFC 4648, by character code, in both directions |
| Base64Standard.EncodedBits | src/crypto/base64url.ts:19-43 | the bits of the characters' values are the bits of the bytes and zeros behind them, as sections 4 and 5 of RFC 4648 ask |
| Base64Standard.DecodedBits | src/crypto/base64url.ts:58-94 | the decoded bytes are the first bits of the characters' values, for every string that is accepted |
| DedupWindow.WindowExactly | src/realtime/ChatController.ts:966-979 | the window is a suffix of the accepted ids, of a length given in closed form and never over 2048, without repetition |
| DedupWindow.RefusedExactly | src/realtime/ChatController.ts:966-979 | an id is refused if and only if the window holds it, so whenever it is among the last 1024 accepted |
| ChatHistory.RestoredMessage | src/realtime/ChatController.ts:1195-1236 | a stored message comes back as it was, except that an unconfirmed send comes back as failed with a reason |
| ChatHistory.SortIsStable | src/realtime/ChatController.ts:1186 | messages of equal time keep their order |
| ChatHistory.OneStableOrder | src/realtime/ChatController.ts:1186 | there is one order by time that keeps the order of equal times |
| ChatHistory.MergeIsUnion | src/realtime/ChatController.ts:1180-1186 | the merge is the union by id, ordered by time; live messages stay as they are and distinct ids stay distinct |
| ChatHistory.Restore | src/realtime/ChatController.ts:1165-1179 | activity time and unread count become the greater of the live and the stored one, and a live conversation keeps its session and its send in progress |
| ChatHistory.RestoreIsIdempotent | src/realtime/ChatController.ts:1165-1187 | restoring a history again changes nothing, also after another history was restored in between |
| ChatHistory.DeletedComesBackExactly | src/realtime/ChatController.ts:566-574 | a locally deleted message returns with a restore if and only if it is stored |
| ReceiptSafety.RunKeeps | src/realtime/ChatController.ts:386-1237 | every run keeps the bookkeeping sound and its messages moving forward only |
| ReceiptSafety.StatusOnlyAdvances | src/realtime/ChatController.ts:986-1047 | between any two points of a run an outbound message stays the same but for its error text and a status that moves along sending, sent, delivered, read, or from sending to failed; an inbound one may become acknowledged and nothing else |
| ReceiptSafety.StatusIsBacked | src/realtime/ChatController.ts:986-1216 | a delivered or read status, also one restored from disk, comes after three events in this order: the begin of this message's own send, its end under the object that the begin returned, taken by the transport, and a receipt of that kind from that peer naming the message's wire id; every status from sent on after the first two |
| ReceiptEffects.ReceiptStep | src/realtime/ChatController.ts:986-1007 | one receipt: the first outbound message with its wire id goes from sent to delivered, or from sent or delivered to read; every other status, message and conversation stays |
| ReceiptEffects.ReceiptShows | src/realtime/ChatController.ts:475-1007 | the converse over runs: a listed message whose send was taken shows at least the status of every receipt that came for it afterwards in a new envelope, if it was listed then and the first with its wire id |
| ReceiptEffects.TakenSendShows | src/realtime/ChatController.ts:475-490 | a listed message whose send was taken shows as sent, delivered or read from then on |
| Provenance.MessagesAreAuthentic | src/realtime/ChatController.ts:436-1237 | every listed message, live or restored, says what one event said: text, sender, recipient, ids and time of a new envelope of that peer in a conversation with a session, or of a send to it that began |
| MessageLists.NoMessageIsLost | src/realtime/ChatController.ts:386-1237 | what a conversation lists it lists at every later point, moved forward if at all, unless it was deleted, its conversation closed, or everything cleared or reloaded |
| MessageLists.TextStep | src/realtime/ChatController.ts:895-959 | a text that is new and can be decrypted adds its message at the end and emits its receipts; any other adds and emits nothing |
| MessageLists.BeginStep | src/realtime/ChatController.ts:436-474 | a send that begins adds its message at the end, as sending |
| MessageLists.FinishStep | src/realtime/ChatController.ts:475-502 | the end of a send gives its message the outcome and touches no other |
| MessageLists.LookStep | src/realtime/ChatController.ts:533-551 | looking at a conversation acknowledges its inbound messages and changes nothing else in its list |
| MessageLists.ReadReceiptsExactly | src/realtime/ChatController.ts:1031-1039 | one read receipt for each message that is due, in their order, and no other |
| MessageLists.SignalsStep | src/realtime/ChatController.ts:533-551 | no other event emits a receipt |
| ConversationFields.FieldsStep | src/realtime/ChatController.ts:386-1187 | for every event and conversation: whether it remains, its session, handshake, send in progress, session state, last activity and unread count |
| ConversationFields.ReadyExactly | src/realtime/ChatController.ts:404-867 | after any run a conversation object has a session if and only if one of its handshakes has given it one |
| ConversationFields.SendBeginsExactly | src/realtime/ChatController.ts:436-450 | after any run a send begins if and only if its conversation object was given a session, the text is not blank and no send of the object is in progress; otherwise it is refused with its reason |
| ConversationFields.SessionStateFits | src/realtime/ChatController.ts:395-427 | the state shown agrees with the session and the handshake under way |
| Records.RecordsStep | src/realtime/ChatController.ts:512-1187 | the active peer, the received ids and what is stored, after every event |
| Records.SurvivesReload | src/realtime/ChatController.ts:1165-1237 | a conversation with distinct ids that was stored comes back after a reload: as many messages, in the order of time, each as it was but for unconfirmed sends, with its activity and unread count |
| ReceiptSafety.InboundIsAcknowledged | src/realtime/ChatController.ts:919-939 | of every inbound message, live or restored, a delivery receipt was emitted after its text had come and been decrypted, and it counts as acknowledged only with a read receipt and after its conversation was looked at |
| ReceiptSafety.SignalsAreHonest | src/realtime/ChatController.ts:930-939 | no delivery receipt is emitted for what was not decrypted, and no read receipt for a conversation that was not looked at |
| ReceiptSafety.ReadingTwiceIsReadingOnce | src/realtime/ChatController.ts:1027-1047 | looking at the same messages again emits nothing and changes nothing |
| ReceiptSafety.EarlyReceiptIsLost | src/realtime/ChatController.ts:986-995 | a receipt that comes before the end of the send it confirms raises nothing and is refused when it comes again |
| ReceiptSafety.SendingExactlyInFlight | src/realtime/ChatController.ts:459-502 | a message shows as sending exactly while its send is in progress |
| ChatController.ChatController.MarkReceived | src/realtime/ChatController.ts:966-979 | whether the id is new, and the window afterwards |
| ChatController.ChatController.BeginSend | src/realtime/ChatController.ts:436-474 | the message is listed as sending, or the send is refused with its reason |
| ChatController.ChatController.FinishSend | src/realtime/ChatController.ts:475-505 | the message object is settled, if its conversation still is the one it was sent in, and a failure shows in the session state |
| ChatController.ChatController.HandleReceipt | src/realtime/ChatController.ts:986-1007 | a new receipt raises the first outbound message it names, and never an unsent or failed one |
| ChatController.ChatController.FirstNamed | src/realtime/ChatController.ts:992-1002 | the loop touches the first named message and no other |
| ChatController.ChatController.HandleText | src/realtime/ChatController.ts:895-959 | a new envelope that decrypts adds one inbound message and emits its receipts; one that does not leaves its error in the session state |
| ChatController.ChatController.HandleTyping | src/realtime/ChatController.ts:1010-1014 | a typing envelope enters the window of received ids and marks activity, also for a new conversation |
| ChatController.ChatController.HandleSessionAccept | src/realtime/ChatController.ts:883-893 | the same for a session_accept, which makes no conversation |
| ChatController.ChatController.HandleSessionInit | src/realtime/ChatController.ts:783-808 | a session_init enters the window; what refuses it before the handshake shows in the session state |
| ChatController.ChatController.AcceptSession | src/realtime/ChatController.ts:866-867 | the session goes to the conversation object of the envelope, if it still is in the list |
| ChatController.ChatController.RecordSessionError | src/realtime/ChatController.ts:1068-1073 | the error in the session state of a conversation that exists afterwards, with new activity |
| ChatController.ChatController.OpenConversation | src/realtime/ChatController.ts:395-402 | a conversation with new activity, and a handshake under way unless there is a session or one already |
| ChatController.ChatController.EndOpening | src/realtime/ChatController.ts:404-427 | the session is set before the transport may throw, and only a transport that does not throw marks activity |
| ChatController.ChatController.SetActivePeer | src/realtime/ChatController.ts:533-543 | another peer becomes the active one, and its conversation is read |
| ChatController.ChatController.MarkConversationRead | src/realtime/ChatController.ts:546-551 | the conversation's inbound messages are acknowledged and its unread count is zero |
| ChatController.ChatController.EmitReadReceipts | src/realtime/ChatController.ts:1031-1039 | the loop acknowledges every inbound message that was not, and emits one read receipt for each of them in order |
| ChatController.ChatController.AcknowledgeOne | src/realtime/ChatController.ts:1033-1038 | a round of that loop acknowledges one message, and only an inbound one that was not |
| ChatController.ChatController.CloseConversation | src/realtime/ChatController.ts:512-526 | the conversation is gone, and the active peer with it when it was that one |
| ChatController.ChatController.RestoreConversation | src/realtime/ChatController.ts:1165-1187 | the restored conversation, merged into a live one or new |
| ChatController.ChatController.MergeMessages | src/realtime/ChatController.ts:1180-1186 | the loop and the sort compute the merge |
| ChatController.ChatController.DeleteMessageLocally | src/realtime/ChatController.ts:566-574 | the first message with the id is gone |
| ChatController.ChatController.FirstWithId | src/realtime/ChatController.ts:569-571 | the search removes that message and no other |

## Left out

- Interleaving: each ratchet call and each controller event runs to completion before the next. The source does not
  enforce it: `src/realtime/ChatController.ts:766` starts the decryption of a text without awaiting it.
- TornTurn.TornTurnIsReadExactly: covers the receiver before it turns and in the message's own epoch, not after it has
  turned further, to a refused key or to another encoding of the message's key.
- Synchrony.DeliveryIsCorrect: is stated for honest messages, because a failed decryption has already changed the
  state; arbitrary input is covered by the theorems of `RatchetSafety.dfy` and `Corrupted.dfy`.
- Synchrony.SendingSucceeds: is stated below 2^32 messages in one sending chain, the width of the wire counter.
- Library internals: X25519, Ed25519, HKDF, SHA-256, AES-GCM, ML-KEM and ML-DSA are the symbolic terms.
- Keys of a wrong length given to the handshake or to `create`: keys are values of 32 bytes by type. A fresh private
  key of a wrong length is modelled.
- Handshake.AssociatedData: is the pair of both identities; that it takes 64 bytes is not part of the terms.
- The injected ephemeral key as the only randomness (`src/crypto/e2eeSession.ts:394-401`), a hook that pins every later
  ratchet key: randomness is a parameter of each call instead.
- StateCodec.ExportState: takes the library's sort for the sorted sequence; SkipOrder.SortingIsCanonical shows that
  every correct sort gives it.
- The `initPayload` of a session, which an import does not bring back.
- `wipe` and the zeroing of memory.
- `src/crypto/session.ts`, a superseded wrapper around X3DH alone.
- ChatController.ChatController.SendSignal: records a receipt as handed to the transport, which may drop it.
- ChatController.ChatController.HandleTyping: the typing flag and its timer are not modelled.
- ChatController.ChatController.OpenConversation: the checks of the peer's name before it are not modelled.
- Session faults carry a code and not their message text.
- Presence, notifications and listeners in `ChatController`; several accounts on one device. The store may return any
  conversation ever written to it.
- Times are integers and identifiers are given: `messageId.ts` computes random ids in floating point.
- IndexedDB, REST, sockets, tokens and the user interface.
