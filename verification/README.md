# ME55 protocol core: a Dafny model

ME55 is a peer-to-peer messenger. This project models the parts of it whose correctness depends on
state that lives across many calls: the Double Ratchet session and the handshake that starts it, the
scrambled transport stream, group sender chains and group membership, and the node's tables of one-time
prekeys, queued texts and mailbox drops. `dafny verify dfyconfig.toml` checks everything.

## How it is built

Cryptography is a symbolic algebra (`Symbolic.dfy`): key derivations and AEAD boxes are free constructors,
a Diffie-Hellman output is an unordered pair of private scalars, the KEM is ideal. Agreement between peers
and the impossibility of opening a box with another key are theorems about these terms. Code that changes
an object in place is a class whose methods are proved against a function on values, and the laws over
whole runs are lemmas about those functions.

| files | what they hold |
|---|---|
| `Wrappers`, `Words`, `Symbolic` | option and result types, machine words, the symbolic algebra |
| `RatchetSpec`, `Ratchet` | the session on values, and the session object proved against it |
| `Delivery`, `Agreement`, `OneShot` | two-party runs: honest delivery, agreement of roots and chains, one-shot keys |
| `Duplicates`, `Repeats`, `Losses`, `Aftermath` | second copies of a message, runs in which messages repeat, what a copy costs, and what can still open after one |
| `Crossed`, `SessionIds`, `Authentic` | two nodes that start a session with each other at once; the session id; what opens is what the peer sent |
| `X3dh`, `Handshake` | the four derivations, the hello, agreement and binding |
| `Keystream`, `ScrambleFrames`, `ScrambleStream`, `ScrambleHandshake` | masking, framing, the poll-driven stream, its keys |
| `MegolmSpec`, `Megolm` | group sender and receiver chains, and the set a receiver stands for |
| `Codec`, `Signing`, `GroupBytes` | length prefixes, signing domains, envelopes, canonical control bytes |
| `GroupSpec`, `GroupNode`, `GroupKeys`, `GroupAgreement` | group tables and handlers on values, the node object proved against them, who holds which chain, several nodes of a group |
| `Posting`, `NodeSends`, `OtpkPool`, `RateGate`, `Mailbox` | payloads on values, queued texts and sessions, one-time prekeys, the fetch gate, mailbox timing |

## Main results

- **Delivery.** In every honest run, over any reordering and loss, a message that has not been opened yet
  opens to the plaintext its sender passed to `encrypt` if and only if at most 1000 messages sent before it
  are still missing (`Delivery.HonestDelivery`). The invariant behind it: the two root keys are one DH step
  apart; on both sides the receiving chain is the peer's sending chain for the key followed, `nr` steps from
  its start; and each cache holds exactly the true keys of what is missing (`Agreement.Agreement`).
- **Second copies.** The comments at `src/core/node.rs:1283-1292` and `src/core/node.rs:1351-1361` promise
  that the second arrival of a message (once through the outbox, once through the mailbox) is a no-op. The
  code has no rollback, and the promise does not hold: the copy is always refused, and it leaves the session
  as it was if and only if the guard on skipped keys refuses it at once (`Duplicates.SecondCopy`; for any
  message at all, `RatchetSpec.FailureKeepsState`). Otherwise there are two cases.
  - On the chain being followed the copy uses up a key. The two sides stay one DH step apart, and over every
    run with any number of such copies the answer to every message is exact: it opens if and only if its key
    is cached, or its number has not been passed and the skip limit allows it (`Losses.CopiesKeepStep`,
    `Losses.ExactAnswer`). But the counter is ahead: the first message not yet passed is lost in every
    continuation (`Losses.CopyLosesForGood`), and a reader that gets the chain in order opens nothing more
    of it, however much is written, since each message that fails uses up the key of a later one
    (`Losses.CopyLosesAllInOrder`, `Losses.CopyLosesAllWritten`), until a number is skipped
    (`Losses.SkippingRecovers`) or the sender's key changes. The text queued in outbox and mailbox normally
    meets this case; the shortest run has three events (`Duplicates.LosingTheNextHappens`).
  - On an older chain the copy makes a DH step, and the roots no longer agree
    (`Duplicates.CopyBreaksAgreement`; a run of six events, `Duplicates.BreakingHappens`). In any
    continuation a message sent since, by either side, opens if and only if the copy itself made the receiver
    cache its number ahead (`Aftermath.NothingSentSinceOpens`; `Aftermath.AheadHappens` is a run where it did).

  The delivery theorem therefore speaks of runs without second copies of opened messages.
- **Crossed starts.** `process_incoming_dm` never looks at the hello once there is a session
  (`src/core/node.rs:2337-2344`). So when two nodes start a session with each other at the same time, no
  message either ever sends opens at the other, over any delivery, loss, order and repetition
  (`Crossed.CrossedStartsNeverMeet`).
- **One-shot keys.** Whatever bytes the network brings, no two `encrypt` calls of a session, by either
  side, take the same message key; the constant nonce relies on it (`OneShot.KeysUsedOnce`).
- **Authenticity.** The network may change headers and associated data, make up bytes, and replay ciphertexts of
  either side; what opens is still a message the peer sent, with that header, associated data and plaintext
  (`Authentic.OpensOnlyThePeers`). A group text that opens carries the signature of the owner of the stored
  chain (`GroupAgreement.TextIsTheOwners`).
- **Session id.** Both ends hold the same id over every run, it tells sessions apart exactly when their secrets
  differ, and it is none of the session's keys (`SessionIds.SameIdThroughout`).
- **Handshake.** In all four variants the responder ends with the initiator's secret and the first message
  opens; and it opens only if the hello that arrived is the hello that was sent (`Handshake.HelloBound`).
- **Scrambled stream.** For every schedule of polls the pair of streams is a FIFO byte pipe with a parked
  tail of at most 1024 bytes; the end of the wire is clean exactly at a frame boundary
  (`ScrambleStream.StreamsAreAPipe`, `ScrambleFrames.FeedCut`). The wire shows the frames exactly where the
  keystream is zero, and another keystream reads them exactly where it agrees with the writer's
  (`ScrambleStream.WireShowsFrames`, `ScrambleStream.KeystreamReads`).
- **Group chains.** A receiver refines the set of opened messages, so its state does not depend on the
  order of arrival (`MegolmSpec.ReceiverRefinesSet`, `MegolmSpec.OrderDoesNotMatter`).
- **Group membership.** Over every run, stored receiver chains belong to current members; between creations
  of a group no update is applied twice; and the sender chain in use is known to current members only, as
  long as no accepted update both adds and removes a reachable peer, which is exactly when a step keeps it
  so (`GroupSpec.StepInside`, `GroupSpec.NamedTwiceGetsTheNewChain`).
- **Group keys.** The first text of a group reaches each other reachable member behind the keys that open it
  (`GroupKeys.FirstTextOpens`). Over every run a member holds the chain in use if and only if it could be
  reached when that was drawn, or when it was added (`GroupKeys.RunHolds`), and a later text comes after a
  bundle of its chain exactly then (`GroupKeys.TextsAreKeyed`); with that bundle it opens unless more than
  1000 texts have gone by (`GroupKeys.BundleOpens`).
- **Several nodes of a group.** An announced addition or removal gives a peer that is told the founder's view
  if and only if its node has the row, with that founder, an older epoch, and members that differ at most in
  the one named, or had the view already (`GroupAgreement.AdditionAgrees`, `GroupAgreement.RemovalAgrees`);
  so a peer removed and added again follows (`GroupAgreement.ReturnAgrees`) and a new one does not
  (`GroupAgreement.JoinerLeftOut`).
- **Signing.** Six signing domains never meet; envelopes and control messages can be read back from what is
  signed, control messages up to the order of members (`GroupBytes.CanonicalUpToOrder`).
- **First contact.** All that one node writes to another before it hears from it, held there and taken in once
  the writer's prekey is known, comes out as it was written, in order, and the two sessions are then the ends
  of one honest run (`Posting.HeldTextsOpen`); the node's methods send and take in exactly so
  (`NodeSends.Node.Submit`, `NodeSends.Node.Connect`, `NodeSends.Node.PrekeyArrives`).
- **Node.** Every session in the table can encrypt, and every submitted text is in exactly one place: sent,
  in the outbox, or waiting for a prekey (`NodeSends.Node.Submit`, `NodeSends.Node.Connect`,
  `NodeSends.Node.PrekeyArrives`).

Other places where the code and its comments differ; the model follows the code:

- `src/core/node.rs:3364-3370` says that the update of an addition goes to the new member because it needs it
  to know that it is a member, and `src/core/node.rs:3448-3453` that the bundle lets it decrypt the next
  message. A node without a row for the group drops both, and the texts that follow, until someone creates
  the group over again (`GroupAgreement.JoinerLeftOut`, `GroupAgreement.OutsiderStaysOut`; the shortest case
  is `GroupAgreement.FirstJoinerLeftOut`).
- `src/protocol/group.rs:48-50` calls the founder the sole authority. A creation of a known group by anyone
  who names the local user replaces founder and epoch, and it is the only way they are replaced
  (`GroupSpec.StepFounder`, `GroupSpec.StrangerReplacesFounder`). A leave carries an epoch that is not looked
  at, so an old one counts again (`GroupSpec.OldLeaveCounts`).
- `src/storage/store.rs:1258-1261` says that a group is also dropped when an update removes the local user.
  Only the user's own leave drops a row (`GroupSpec.RowGoesByLeaving`); a removed user keeps it, and the chain
  it draws next goes to the members (`GroupSpec.RemovedUserKeepsTheGroup`).

## Model

| member | source | states |
|---|---|---|
| Ratchet.RatchetState.NewInitiator | src/crypto/ratchet.rs:181-213 | a fresh initiator session: one KDF_RK step past the shared secret, able to send |
| Ratchet.RatchetState.NewResponder | src/crypto/ratchet.rs:215-235 | a fresh responder session: no chains, the signed prekey as first DH key, the initiator's session id |
| Ratchet.RatchetState.Encrypt | src/crypto/ratchet.rs:240-258 | seals under the next key of the sending chain, or reports that there is no chain; nothing else changes |
| Ratchet.RatchetState.Decrypt | src/crypto/ratchet.rs:266-297 | answer and whole new state for any message, failures included: what changed before an error stays changed |
| Ratchet.RatchetState.TrySkipped | src/crypto/ratchet.rs:314-326 | the first matching cached key is taken out even when the ciphertext does not open |
| Ratchet.RatchetState.SkipMessageKeys | src/crypto/ratchet.rs:331-362 | caches exactly the keys up to the given number, or refuses and changes nothing; eviction removes nothing |
| Ratchet.RatchetState.EvictOldest | src/crypto/ratchet.rs:356-361 | keeps the newest 1000 entries, in order |
| Ratchet.RatchetState.DhRatchetStep | src/crypto/ratchet.rs:367-393 | both KDF_RK halves, from the old key for receiving and the drawn key for sending; counters restart |
| RatchetSpec.SkipBound | src/crypto/ratchet.rs:266-362 | for any header the cache stays within 1000, across a DH step too, and no cached key is evicted |
| RatchetSpec.FailureKeepsState | src/crypto/ratchet.rs:266-297 | any message that does not open leaves the session as it was iff its header is turned away by the lookup and the first guard |
| SessionIds.IdIsNoKey | src/crypto/ratchet.rs:394-418 | the id is not the secret, nor a root, chain or message key of the session |
| SessionIds.SameIdThroughout | src/crypto/ratchet.rs:394-401 | over honest runs, runs with repeated messages and arbitrary arrivals both ends keep one and the same id; ids are equal iff secrets are |
| SessionIds.HandshakesShareId | src/crypto/ratchet.rs:746-755 | after any of the four handshakes the responder's id is the initiator's |
| Authentic.OpensOnlyAsSealed | src/crypto/ratchet.rs:282-297 | what opens was sealed for exactly this header and this associated data |
| Authentic.OpensOnlyThePeers | src/crypto/ratchet.rs:266-297 | whatever a network without the keys does, a message that opens is one the peer sent, as it was sent, and not one's own thrown back |
| Delivery.HandshakePairs | src/crypto/ratchet.rs:181-235 | the two sessions a handshake makes satisfy the pairing invariant |
| Delivery.DeliversPaired | src/crypto/ratchet.rs:266-393 | one delivery between paired peers: the exact answer, and they stay paired |
| Delivery.StepStaysPaired | src/crypto/ratchet.rs:240-393 | every send and every delivery keeps the pairing invariant |
| Delivery.RunStaysPaired | src/crypto/ratchet.rs:181-393 | so does every run |
| Delivery.HonestDelivery | src/crypto/ratchet.rs:181-391 | a delivered message opens to what was sent iff at most 1000 earlier ones are missing, else TooManySkipped |
| Agreement.RunMatches | src/crypto/ratchet.rs:240-393 | every run keeps, on both sides, the receiving chain on the peer's sending chain for the key followed |
| Agreement.Agreement | src/crypto/ratchet.rs:260-391 | in every reachable state: roots one DH step apart; on both sides the receiving chain is the peer's for `dhr`, at `nr`, and every message of that key lies on it; caches true and without repetition |
| OneShot.ReceiveRestarts | src/crypto/ratchet.rs:266-393 | receiving anything leaves the sending chain alone or starts one from the key just drawn |
| OneShot.RunKeepsInv | src/crypto/ratchet.rs:240-393 | spent keys stay behind the sending chains, whatever arrives |
| OneShot.KeysUsedOnce | src/crypto/ratchet.rs:19-20 | no message key is taken twice by either side, which the zero nonce relies on |
| OneShot.CachesBounded | src/crypto/ratchet.rs:331-362 | over any run neither cache exceeds 1000 keys |
| Duplicates.ReceivingStaysLayered | src/crypto/ratchet.rs:266-393 | receiving anything keeps every chain above the root it was split from, at the depth its counter says |
| Duplicates.SecondCopy | src/core/node.rs:1283-1292 | a second copy is never accepted, and is a no-op iff the skip guard refuses it at once |
| Duplicates.CopyLosesTheNext | src/crypto/ratchet.rs:282-297 | after a copy on the chain being followed, the next message in order, if already sent, gives BadAead where before it would have opened; what follows is in the rows of Losses |
| Duplicates.CopyBreaksAgreement | src/crypto/ratchet.rs:282-296 | a copy of an older chain, unless refused at once, ends the agreement of the root keys on both sides |
| Duplicates.LosingTheNextHappens | src/core/node.rs:1283-1292 | a run of three events after which the copy loses a message that would have opened |
| Duplicates.BreakingHappens | src/core/node.rs:1283-1292 | a run of six events after which the copy ends the agreement |
| Losses.StepStaysLossy | src/crypto/ratchet.rs:240-393 | copies included, every send and every tolerable delivery keeps one side a DH step ahead, receiving chains on the peer's chains, and caches true to what was and will be sent |
| Losses.HonestIsTolerable | src/crypto/ratchet.rs:266-393 | every honest run is one of these runs |
| Losses.CopiesKeepStep | src/crypto/ratchet.rs:282-296 | any number of copies that are no uncached messages of an older chain leave roots and receiving chains agreeing |
| Losses.ExactAnswer | src/crypto/ratchet.rs:260-362 | in every such run any message, opened before or not, opens iff cached, or not passed and within the skip limit; otherwise which error |
| Losses.CopyLosesForGood | src/core/node.rs:1283-1292 | after a copy on the chain being followed, the first message of it not yet passed, sent or still to be written, opens in no continuation |
| Losses.InOrderIsLost | src/crypto/ratchet.rs:288-297 | a reader past the next number opens nothing that comes in order, over every such run |
| Losses.CopyLosesAllInOrder | src/core/node.rs:1351-1361 | after one copy, nothing of the rest of the chain opens when it comes in order |
| Losses.CopyLosesAllWritten | src/core/node.rs:1283-1292 | a copy at a reader that has read all loses every text written to it from then on, one by one, any number of them |
| Losses.SkippingRecovers | src/crypto/ratchet.rs:331-362 | a number not yet passed, within the limit, opens and puts the reader just past it; the numbers skipped are cached |
| Losses.CopyKeepsStep | src/crypto/ratchet.rs:282-297 | after a copy on the followed chain each side is one step ahead iff it was before and, for the reader, something of the sender's chain was left to read |
| Crossed.ReceivingKeepsOrigin | src/crypto/ratchet.rs:266-393 | whatever arrives, a session keeps to its secret and opens only what was sealed under it |
| Crossed.CrossedSecretsDiffer | src/core/node.rs:1432-1524 | two nodes that start with each other at once get different secrets, whatever prekeys they use |
| Crossed.CrossedStartsNeverMeet | src/core/node.rs:2337-2344 | after crossed starts no message either side ever sends opens, in any run at all |
| Crossed.CrossedHelloDoesDamage | src/core/node.rs:2541-2577 | the other side's first message fails and yet makes the session do a DH step |
| Aftermath.NothingSentSinceOpens | src/core/node.rs:1351-1361 | after a copy of an older chain, in any continuation, a message sent since, either way, opens iff it goes to the side that took the copy and its number was cached ahead by the copy |
| Aftermath.RunStaysForeseen | src/crypto/ratchet.rs:266-362 | the keys cached ahead stay findable over every continuation until their message has been opened |
| Aftermath.AheadHappens | src/crypto/ratchet.rs:282-285 | a reachable run in which the copy parts the two sides and the next message sent opens all the same |
| Aftermath.RunStaysKnotted | src/crypto/ratchet.rs:367-393 | in honest runs a present key has a DH output only with the key it follows and the other's present key |
| Aftermath.ReceivedWithin | src/crypto/ratchet.rs:266-393 | for any message: new keys come from old ones and, with a DH step, from the two outputs it computes |
| Symbolic.DiffieHellmanAgrees | src/crypto/x3dh.rs:82-122 | two DH outputs are equal iff they join the same two scalars |
| Handshake.EndsAgree | src/core/node.rs:2386-2475 | in all four variants the responder's branch derives the initiator's secret, giving the two ends of one handshake |
| Handshake.FirstMessageOpens | src/core/node.rs:2471-2535 | the first message after the handshake opens to what was sent |
| Handshake.SecretsDistinct | src/crypto/x3dh.rs:127-389 | secrets are equal iff variant, DH outputs and KEM secret all are |
| Handshake.OnlyTheRightSecretOpens | src/core/node.rs:2471-2480 | the first message opens under the initiator's secret and no other |
| Handshake.HelloBound | src/core/node.rs:1432-1524 | a stripped, added to or otherwise altered hello never leads to an opened first message |
| Handshake.VariantUsed | src/core/node.rs:1432-1524 | a KEM ciphertext goes along iff there is a KEM key of the right length, an id iff there is a one-time prekey, and the secret is that variant's |
| Handshake.NoSecretExactly | src/core/node.rs:2386-2475 | when a hello leads to no secret, and which error; no fallback to a lesser variant |
| Keystream.XorIsBitwise | src/network/scramble.rs:439-441 | every binary digit of a masked byte is the sum without carry of the two digits |
| Keystream.XorTellsKeys | src/network/scramble.rs:439-441 | two keystream bytes mask a byte alike iff they are equal; a byte shows through iff the keystream byte is zero |
| Keystream.MaskTwice | src/network/scramble.rs:290-292 | masking twice at the same position gives the data back |
| Keystream.MaskSplits | src/network/scramble.rs:439-441 | masking in pieces is masking at once |
| ScrambleFrames.PaddedFrameSize | src/network/scramble.rs:183-186 | the least multiple of 256 that holds the frame |
| ScrambleFrames.FrameSizes | src/network/scramble.rs:150-155 | every frame is 256, 512, 768 or 1024 bytes |
| ScrambleFrames.PadIsZero | src/network/scramble.rs:424-436 | a frame is length, payload and zeros |
| ScrambleFrames.FeedSplits | src/network/scramble.rs:272-357 | reading in two pieces is reading in one |
| ScrambleFrames.ChunksDoNotMatter | src/network/scramble.rs:272-357 | however the wire is split, state and delivered bytes are the same |
| ScrambleFrames.FeedFrame | src/network/scramble.rs:272-357 | any prefix of a frame delivers the same prefix of its payload, and only a whole frame is a boundary |
| ScrambleFrames.FeedWire | src/network/scramble.rs:272-357 | a whole wire delivers all payloads and ends at a boundary |
| ScrambleFrames.FeedCut | src/network/scramble.rs:286-341 | a wire cut anywhere delivers a prefix; the reader is at a boundary iff the cut is one |
| ScrambleFrames.WireCost | src/network/scramble.rs:155-163 | writing L bytes costs 1024 per full 1022 and one padded frame for the rest |
| ScrambleStream.ScrambleStream.WithSplitKeys | src/network/scramble.rs:236-256 | a fresh stream with an empty history |
| ScrambleStream.ScrambleStream.PollPlain | src/network/scramble.rs:276-300 | one inner read, unmasked at the position it has on the wire |
| ScrambleStream.ScrambleStream.PollHeader | src/network/scramble.rs:274-312 | header bytes may come one at a time; the second fixes payload and pad |
| ScrambleStream.ScrambleStream.PollPayload | src/network/scramble.rs:315-333 | payload bytes go to the caller in order |
| ScrambleStream.ScrambleStream.PollPad | src/network/scramble.rs:334-352 | pad bytes advance the keystream and are dropped |
| ScrambleStream.ScrambleStream.PollRead | src/network/scramble.rs:259-359 | delivers the next bytes of the pipe; empty success only at a frame boundary, UnexpectedEof at any other end; anything else is the inner stream's own last answer |
| ScrambleStream.ScrambleStream.DrainPending | src/network/scramble.rs:515-534 | moves parked bytes to the inner stream, losing and reordering none, until none is left; it stops early only on an answer of the inner stream |
| ScrambleStream.ScrambleStream.JitterClears | src/network/scramble.rs:381-417 | a frame is held back iff a delay is drawn or running and its timer has not fired |
| ScrambleStream.ScrambleStream.PollWrite | src/network/scramble.rs:362-476 | accepts min(len, 1022) bytes as one frame or nothing; what is accepted is on the wire or parked, at most 1024 bytes; it fails or stalls only with the inner stream, or for the jitter timer once nothing is parked |
| ScrambleStream.ScrambleStream.EmitFrame | src/network/scramble.rs:424-475 | one masked frame, partly taken, parked or lost with the write half |
| ScrambleStream.ScrambleStream.PollFinish | src/network/scramble.rs:478-505 | with nothing parked any more, the inner stream's own answer; otherwise why the parked bytes were not all taken |
| ScrambleStream.PipeIsFifo | src/network/scramble.rs:258-533 | bytes delivered are a prefix of bytes written, all of them once flushed and read |
| ScrambleStream.StreamsAreAPipe | src/network/scramble.rs:258-533 | the same for two stream objects in any states their polls left them in |
| ScrambleStream.WireShowsFrames | src/network/scramble.rs:439-441 | what is on the wire or parked is the frames' own bytes exactly where the keystream is zero |
| ScrambleStream.KeystreamReads | src/network/scramble.rs:290-292 | a reader with whatever keystream sees the frames exactly where its keystream is the writer's |
| ScrambleHandshake.MirroredExactly | src/network/scramble.rs:574-662 | one end's outgoing keystream is the other's incoming one iff key, opposite roles and ephemerals agree |
| ScrambleHandshake.NoTwoTimePad | src/network/scramble.rs:638-704 | no keystream serves both directions, or two connections with different ephemerals |
| Megolm.SenderChain.constructor | src/crypto/megolm.rs:127-137 | a fresh chain at index 0 |
| Megolm.SenderChain.Encrypt | src/crypto/megolm.rs:164-184 | seals, signs and advances by one |
| Megolm.ReceiverChain.FromBundle | src/crypto/megolm.rs:225-233 | a receiver at the bundle's index with an empty cache |
| Megolm.ReceiverChain.Decrypt | src/crypto/megolm.rs:243-306 | answer and whole new state for any message; signature first |
| Megolm.ReceiverChain.EvictOldest | src/crypto/megolm.rs:290-298 | keeps the newest 1000 entries, in order |
| MegolmSpec.SenderEmits | src/crypto/megolm.rs:164-184 | the i-th message of a chain is the honest message i |
| MegolmSpec.ReceiverRefinesSet | src/crypto/megolm.rs:225-306 | message i is accepted iff not before the bundle, not yet accepted, and within the skip limit; else nothing changes |
| MegolmSpec.RunRefinesSet | src/crypto/megolm.rs:225-306 | after any arrivals the receiver is the one its set of accepted messages determines |
| MegolmSpec.BundleStands | src/crypto/megolm.rs:148-160 | a bundle installs the receiver of the empty set at its index |
| MegolmSpec.OrderDoesNotMatter | src/crypto/megolm.rs:268-305 | same accepted set, same state; everything accepted iff the cache is empty |
| MegolmSpec.SkipBound | src/crypto/megolm.rs:282-298 | for any message the cache stays within 1000 |
| MegolmSpec.OpensOnlySigned | src/crypto/megolm.rs:240-275 | what opens is signed by the chain's owner over index, associated data and ciphertext; anything else changes nothing |
| MegolmSpec.OpensOnlyTheOwners | src/crypto/megolm.rs:240-275 | so with unforgeable signatures it is a message the owner sent, as it was sent |
| Codec.PopInvertsPush | src/protocol/message.rs:518-539 | `pop_bytes` returns (payload, rest) iff the buffer is `push_bytes` of payload followed by rest |
| Signing.PurposesNeverMeet | src/core/identity.rs:15-21 | signed strings of two purposes never coincide, and within one the body is determined |
| Signing.DirectSigningBytes | src/protocol/message.rs:458-477 | the appended buffer is domain and body of the envelope |
| Signing.SealedSigningBytes | src/protocol/message.rs:483-500 | the same with the sender in the place of the empty `from` |
| Signing.EnvelopeInjective | src/protocol/message.rs:458-500 | every envelope field can be read back from what is signed |
| Signing.SignatureBindsEnvelope | src/protocol/message.rs:385-450 | a signature is accepted for another envelope iff path, signer and all fields are the same; an empty one for every envelope |
| Signing.SenderBoundUnlessDeniable | src/protocol/message.rs:393-395 | an accepted envelope passes with another sender in it iff its signature is empty |
| Signing.CertParsesExactly | src/protocol/message.rs:423-433 | the certificate parse accepts exactly the encodings made and returns their parts |
| Signing.RatchetAadInjective | src/core/node.rs:3806-3815 | what the ratchet AEAD binds determines both peers, their roles and the header |
| Signing.GroupMessageInjective | src/crypto/megolm.rs:340-363 | a group message's signature determines index, group, sender and ciphertext |
| GroupBytes.CanonicalCreateBytes | src/protocol/group.rs:380-402 | the appended buffer is the canonical form over the sorted members |
| GroupBytes.CanonicalUpdateBytes | src/protocol/group.rs:409-433 | the same, added and removed sorted separately |
| GroupBytes.CanonicalLeaveBytes | src/protocol/group.rs:437-445 | the same for a leave |
| GroupBytes.AppendCounted | src/protocol/group.rs:398-401 | a count and each entry behind its length |
| GroupBytes.CanonicalUpToOrder | src/protocol/group.rs:380-452 | signed bytes are equal iff operation and fields are equal and member lists are permutations |
| GroupBytes.BigEndianOrders | src/protocol/group.rs:380-402 | counters as bytes are ordered as the numbers are |
| GroupBytes.SignatureBindsControl | src/protocol/group.rs:298-371 | a signature verifies for another control message iff signer and content, up to order, are the same |
| GroupSpec.StepKeepsKeysOfMembers | src/core/node.rs:2643-2854 | every event keeps stored receiver chains to current members |
| GroupSpec.RunKeepsKeysOfMembers | src/core/node.rs:3078-3150 | so does every run, whatever arrives from whomever |
| GroupSpec.StepEpoch | src/core/node.rs:2695-2755 | an event other than a creation raises the epoch iff it applies an update, to exactly that update's epoch |
| GroupSpec.EpochsGrow | src/core/node.rs:2695-2755 | between creations the applied epochs strictly grow |
| GroupSpec.ReplayRefused | src/core/node.rs:2726-2734 | an update applied once, and any older one, is refused later and changes nothing |
| GroupSpec.OnlySignedChanges | src/core/node.rs:2659-2670 | a control message changes a group only if it is about that group, with the founder's, creator's or leaver's signature over its content; a leave takes out the leaver alone |
| GroupSpec.StepFounder | src/storage/store.rs:1153-1171 | the stored founder changes iff someone else creates the group over again |
| GroupSpec.RunKeepsFounder | src/protocol/group.rs:48-50 | over any run in which nobody else creates the group the founder stays |
| GroupSpec.StrangerReplacesFounder | src/storage/store.rs:1164-1167 | the concrete creation that replaces founder and epoch |
| GroupSpec.OldLeaveCounts | src/core/node.rs:2816-2854 | a signed leave of any epoch takes out a member that was added again |
| GroupSpec.RowGoesByLeaving | src/storage/store.rs:1258-1261 | a stored group goes iff the local user leaves it |
| GroupSpec.RemovedUserKeepsTheGroup | src/core/node.rs:2739-2773 | the concrete update that removes the local user: the row stays, and the chain it draws is handed to the founder |
| GroupSpec.UpdateInside | src/core/node.rs:2739-2773 | an applied update keeps my chain within the group iff it names no reachable peer in both lists |
| GroupSpec.StepInside | src/core/node.rs:3664-3760 | each event keeps the chains I send under within their groups iff it is not such an update |
| GroupSpec.RunInside | src/core/node.rs:3664-3760 | so does every orderly run, across joins, removals, leaves and rotations |
| GroupSpec.NamedTwiceGetsTheNewChain | src/core/node.rs:2761-2773 | the concrete update after which a peer that is out holds the new chain |
| GroupSpec.TextReachesMembers | src/core/node.rs:2870-3019 | a text goes to exactly the other reachable members, under a chain only members hold |
| GroupKeys.FirstTextOpens | src/core/node.rs:2910-2962 | each other reachable member is handed the keys and then the text, once, and taking in the two gives the plaintext; nobody else is handed anything |
| GroupKeys.LaterTextGoesOut | src/core/node.rs:2964-3019 | a later text goes out once to each, under the same chain |
| GroupKeys.RunKeepsMembersOnce | src/storage/store.rs:1216-1228 | over every run nobody is a member twice |
| GroupKeys.BundleOpens | src/core/node.rs:2775-2815 | a bundle opens the next text of its chain iff at most 1000 texts have gone by |
| GroupKeys.StepHolds | src/core/node.rs:3664-3760 | after an event a peer holds the chain in use iff the event hands it over, or it held it and the event neither draws another nor drops it |
| GroupKeys.RunHolds | src/core/node.rs:3664-3760 | over every run: iff some event handed it over and no later one drew another |
| GroupKeys.TextsAreKeyed | src/core/node.rs:2910-2962 | after any run a text comes after a bundle of its chain, at an index no later, iff the member could be reached when the chain was drawn or when it was added |
| GroupKeys.LeavingReachesTheRest | src/core/node.rs:3570-3640 | a leave is announced to the rest; where it arrives the leaver is out and a new chain goes to the rest and not to it |
| GroupKeys.StepTouchesOneGroup | src/core/node.rs:2643-2854 | an event of one group leaves row, members and chains of every other as they were |
| GroupNode.GroupNode.AddMembers | src/storage/store.rs:1216-1228 | members not yet there are appended |
| GroupNode.GroupNode.RemoveMembers | src/core/node.rs:2742-2745 | members go together with their receiver chains |
| GroupNode.GroupNode.Deliver | src/core/node.rs:3037-3067 | one copy per reachable peer, in order, to nobody else |
| GroupNode.GroupNode.Rotate | src/core/node.rs:3664-3717 | a new chain replaces mine and its bundle goes to the other members |
| GroupNode.GroupNode.SendMyBundleTo | src/core/node.rs:3730-3758 | my current bundle, when there is one |
| GroupNode.GroupNode.ProcessGroupControl | src/core/node.rs:2643-2854 | whole new tables for any control message; nothing before the signature verifies |
| GroupNode.GroupNode.ApplyUpdate | src/core/node.rs:2739-2773 | members, chains, epoch, then rotation and onboarding |
| GroupNode.GroupNode.ProcessSenderKeys | src/core/node.rs:2775-2815 | a bundle is installed for a member only |
| GroupNode.GroupNode.ProcessGroupMessage | src/core/node.rs:3078-3150 | opens for members with a stored chain; only a success is kept |
| GroupNode.GroupNode.HandleGroupCreate | src/core/node.rs:3192-3266 | the group installed and announced, me included |
| GroupNode.GroupNode.HandleGroupAdd | src/core/node.rs:3371-3462 | founder only: next epoch, member added, announced, onboarded |
| GroupNode.GroupNode.HandleGroupRemove | src/core/node.rs:3471-3560 | founder only: next epoch, member and chain gone, announced to the rest, chain rotated |
| GroupNode.GroupNode.HandleGroupLeave | src/core/node.rs:3570-3640 | a leave announced, then the group forgotten |
| GroupNode.GroupNode.GroupForget | src/storage/store.rs:1262-1280 | row, members and all chains of the group go; other groups stay |
| GroupNode.GroupNode.GroupSend | src/core/node.rs:2870-3019 | keys before the first text, then one message for all; what that gives the members is in the rows of GroupKeys |
| GroupAgreement.CreationAgrees | src/core/node.rs:3192-3266 | the announced creation gives an invited peer the same row, and the founder's view iff the two held the same members before, apart from those invited |
| GroupAgreement.CreationInstalls | src/core/node.rs:2643-2693 | an arriving creation takes effect iff its founder signed and sent it and I am listed; the row is then the one announced |
| GroupAgreement.UpdateInstalls | src/core/node.rs:2695-2773 | an arriving update takes effect iff known group, newer epoch and the founder's signature; members, epoch and stored chains afterwards |
| GroupAgreement.UpdateGivesView | src/core/node.rs:2695-2773 | a founder's update at any node: the founder's view afterwards iff it could follow or had the view already |
| GroupAgreement.AdditionAgrees | src/core/node.rs:3371-3462 | the announced addition gives a told peer, the new one included, the founder's view iff its node has the row, that founder, an older epoch and members differing at most in the one added, or had the view |
| GroupAgreement.RemovalAgrees | src/core/node.rs:3471-3560 | the same for a removal; the removed peer is not told |
| GroupAgreement.ReturnAgrees | src/core/node.rs:3371-3462 | a peer removed and added again follows the addition, if it was in step before |
| GroupAgreement.OutsiderStaysOut | src/core/node.rs:2712-2720 | a node without the group stays without it over any run without a creation, and no text of it opens there |
| GroupAgreement.LeaverStaysOut | src/core/node.rs:3570-3640 | after a leave nothing of the group is left, other groups are untouched, and nothing of it opens until someone creates it anew |
| GroupAgreement.JoinerLeftOut | src/core/node.rs:3364-3370 | a new member is told of its addition, and the update, the bundle and the text change nothing at its node |
| GroupAgreement.FirstJoinerLeftOut | src/core/node.rs:3448-3453 | the concrete case of a founder alone and an empty node |
| GroupAgreement.TextOpens | src/core/node.rs:3078-3150 | a text opens iff the set of opened texts accepts it, and only then is anything stored |
| GroupAgreement.TextIsTheOwners | src/core/node.rs:3078-3150 | a text that opens is signed by the owner of the chain stored for its sender, for this group; anything else changes nothing |
| GroupAgreement.KeysOpenTheText | src/core/node.rs:2870-3019 | a member that installed the keys handed out before a text opens it, once |
| Posting.SendsOne | src/core/node.rs:1716-1731 | a text carries a hello iff there was no session; kind, text and a session that can encrypt |
| Posting.FirstPayloadOpens | src/core/node.rs:1593-1630 | the first payload carries all the other node needs to derive the secret and open the text; the two sessions are then the ends of one honest run |
| Posting.HeldTextsOpen | src/core/node.rs:3764-3797 | any number of texts written before anything was heard, taken in in order, are all in the inbox as written, and the sessions are the ends of one honest run |
| Posting.TakingAddsOneOrNone | src/core/node.rs:2337-2379 | one entry or none per payload; with none, stored session, prekeys and, without a session, everything stays; under a session the hello counts for nothing |
| NodeSends.DrainingKeepsOrder | src/core/node.rs:1363-1403 | a drain sends one payload per row, in order: stored ciphertexts as they are, plaintexts encrypted; without session and prekey the plaintexts wait, in order |
| NodeSends.Deletes | src/storage/store.rs:938-942 | deleting a row takes exactly its text out of the accounts |
| NodeSends.Node.constructor | src/core/node.rs:242-265 | a node with nothing submitted |
| NodeSends.Node.RestoreSession | src/core/node.rs:3984-4009 | true iff a session exists in memory or on disk; memory wins |
| NodeSends.Node.MakeHello | src/core/node.rs:1432-1524 | the hello and session of the right variant; the cached one-time prekey is spent |
| NodeSends.Node.RatchetEncryptAndWrap | src/core/node.rs:1593-1700 | a payload iff there is a session, carrying exactly the given bytes |
| NodeSends.Node.EncryptAndSendExisting | src/core/node.rs:1533-1571 | one packet, carrying the text; the session advanced and stored |
| NodeSends.Node.DeliverKindToMember | src/core/node.rs:3037-3067 | one payload under the session, without hello, iff there is a session; it is moved on and stored; accounts of texts unchanged |
| NodeSends.Node.TryEncryptOffline | src/core/node.rs:1716-1731 | a payload iff a session or a prekey is at hand, and the session after it: what `Posting` says of the session, prekeys and caches there were |
| NodeSends.Node.TrySendOrQueue | src/core/node.rs:1272-1347 | which of four outcomes, exactly when, with payload and session; the text is added to exactly one place |
| NodeSends.Node.QueueOffline | src/core/node.rs:1283-1309 | encrypted once: outbox and mailbox hold the same payload, which opens at the peer |
| NodeSends.Node.SendConnected | src/core/node.rs:1326-1346 | sent now, or held for the prekey; payload, session and stored session afterwards |
| NodeSends.Node.BootstrapInitiatorAndSend | src/core/node.rs:1406-1418 | the first payload of a new session goes out with its hello, the session is stored, the one-time prekey spent |
| NodeSends.Node.Submit | src/core/node.rs:1272-1347 | every submitted text is sent, queued or waiting, once; which, with payload and session; every session can encrypt |
| NodeSends.Node.Connect | src/core/node.rs:900-930 | the outbox for the peer empties, in order, and no text is lost or doubled |
| NodeSends.Node.DrainOutboxFor | src/core/node.rs:1363-1403 | the same for the loop over rows: what is sent, what waits and the session afterwards |
| NodeSends.Node.DrainRow | src/core/node.rs:1381-1402 | a row is deleted after its content is handed off: a stored ciphertext as it is, a plaintext submitted again |
| NodeSends.Node.DecryptAndStore | src/core/node.rs:2541-2577 | the session after the attempt, stored and shown only on success |
| NodeSends.Node.BootstrapResponderAndDecrypt | src/core/node.rs:2386-2502 | a session stays iff the secret could be derived and the first message opened; then the named one-time prekey is gone; otherwise nothing changed |
| NodeSends.Node.ProcessIncomingDm | src/core/node.rs:2337-2379 | which of decrypt, bootstrap, hold and drop; sessions, stored sessions, inbox, prekeys and held messages afterwards; true iff that branch opened the message |
| NodeSends.Node.PrekeyArrives | src/core/node.rs:1126-1171 | the keys are kept; what was held from the peer is taken in, in order; every held text goes out, in order, from the session that leaves; sessions with others stay |
| NodeSends.Node.ProcessPending | src/core/node.rs:3764-3797 | inbox, sessions and one-time prekeys as the held payloads lead to, then the held texts, in order, from there |
| NodeSends.Node.ReceiveHeld | src/core/node.rs:3773-3785 | the held payloads taken in one by one |
| NodeSends.Node.SendHeld | src/core/node.rs:3787-3797 | the held texts sent one by one, under the session there is or as the first of a new one |
| OtpkPool.OtpkPool.AddMyOtpk | src/storage/store.rs:736-750 | a fresh row under a new id |
| OtpkPool.OtpkPool.PopUnusedOtpk | src/storage/store.rs:773-807 | the oldest fresh key, with an id above every id served before |
| OtpkPool.OtpkPool.LoadOtpkPrivate | src/storage/store.rs:823-840 | a served unspent id loads the half that matches what was served; a completed one loads nothing |
| OtpkPool.OtpkPool.ReplenishOtpkPool | src/core/node.rs:3873-3905 | exactly the missing number of new rows, one per key drawn, old rows untouched; private halves stay distinct if the draws are |
| OtpkPool.OtpkPool.PopOneOtpkBundle | src/core/node.rs:3934-3956 | the oldest fresh bundle iff one was fresh, marked as served, and the pool topped up; private halves stay distinct |
| OtpkPool.OtpkPool.Bootstrap | src/core/node.rs:2421-2500 | the session the named key derives and the first message opens, or nothing; an id completes at most one; a failure changes nothing |
| OtpkPool.ServedBundleCompletes | src/core/node.rs:2493-2500 | a served unused bundle completes the bootstrap of whoever starts with it, and the same first message leads nowhere afterwards |
| OtpkPool.PoolBindsHello | src/core/node.rs:2421-2500 | with a served unused bundle, the first message leads to a session iff the hello that arrives is the one sent |
| RateGate.FetchTable.ShouldAttachOtpk | src/core/node.rs:4027-4041 | grants iff no grant within 60 s, and records it |
| RateGate.FetchTable.Prune | src/core/node.rs:3924-3928 | drops exactly the entries older than the cooldown |
| RateGate.SweepingIsInvisible | src/core/node.rs:3911-3928 | pruning never changes an answer while the clock does not run backwards |
| RateGate.GrantsSpaced | src/core/node.rs:4027-4041 | grants to a peer are at least 60 s apart |
| RateGate.WindowBound | src/core/node.rs:4027-4041 | at most T/60 + 1 grants to a peer in any window of T seconds |
| RateGate.GrantedExactly | src/core/node.rs:4027-4041 | after any fetches and sweeps a fetch is granted iff no grant to that peer fell in the 60 s before it |
| Mailbox.SlotIdFor | src/network/mailbox.rs:98-100 | the slot that contains the moment, before the epoch too |
| Mailbox.PollState.PollMailboxSlots | src/core/node.rs:1944-2003 | which slots, each once, at most 24, and the mark left behind |
| Mailbox.PolledOnceAfterClosing | src/core/node.rs:1944-2003 | a slot is queried after it closes at most once, and exactly when the first poll after it came in time |
| Mailbox.NoSlotMissed | src/core/node.rs:1944-2003 | with polls at most 23 slots apart every closed slot is queried exactly once after closing |
| Mailbox.DropTable.RepublishMailboxDrops | src/core/node.rs:1842-1908 | exactly the due rows whose put succeeds are touched |
| Mailbox.SteadyRepublish | src/core/node.rs:1842-1908 | after steady ticks a live drop was published within 1800 s of the last tick |
| Mailbox.NeverStale | src/network/mailbox.rs:63-79 | at every moment it was published within 2400 s, under the 3600 s record life |
| Mailbox.NeverAfterTheEnd | src/storage/store.rs:1006-1020 | over any ticks and puts an acknowledged drop is never published again, none from its expiry on, none twice within half an hour |
| Mailbox.RepublishedExactly | src/storage/store.rs:1006-1020 | a tick publishes a drop again iff it is unacknowledged, alive and half an hour old |

## Left out

- Delivery.HonestDelivery: for fewer than 2^32 - 1 messages per sending chain; the wrap of the u32 counters is not followed.
- Losses.ExactAnswer: for runs without an uncached message of an older chain that gets past the skip guard (after one of these, `Aftermath` says what opens), and receiving counters below 2^32 - 1.
- MegolmSpec.ReceiverRefinesSet: for indices below 2^32 - 1, for the same reason, as is `GroupKeys.RunHolds`.
- OneShot.KeysUsedOnce: over the life of a session object; `try_encrypt_offline` (src/core/node.rs:1716-1731) does not persist the session, so it does not extend across restarts.
- GroupSpec.EpochsGrow: between creations only, since `CreateGroup` overwrites the stored epoch (src/storage/store.rs:1164-1167).
- GroupNode.GroupNode.HandleGroupAdd: for epochs below 2^64 - 1, as is `HandleGroupRemove`; the overflow of `row.epoch + 1` is not modelled.
- ScrambleStream.ScrambleStream.JitterClears: the delay drawn, and whether its timer has fired, are parameters; no clock is modelled.
- Signing.SenderBoundUnlessDeniable: in deniable mode the sender is vouched for by the ratchet's AEAD alone; that bind is `Signing.RatchetAadInjective`.
- NodeSends.Node.TrySendOrQueue: envelopes are taken to serialize and the store to work; sessions are held as values, `Ratchet.dfy` has the object.
- Mailbox.NeverStale: two drops of one sender in one hour share a DHT key (src/network/mailbox.rs:116-123), so nothing is claimed about what the DHT returns.
- libp2p, Kademlia, gossipsub, mDNS, relay and tokio timers: they appear only as nondeterministic events, polls and a clock.
- The arithmetic of X25519, Ed25519, ChaCha20-Poly1305, HKDF, HMAC, SHA-256, ML-KEM and elligator2, and probabilistic secrecy.
- SQLite, migrations, at-rest encryption and JSON: tables are maps and sequences, serialization is the identity.
- Expiry sweeps of outbox, mailbox drops and messages, and restarts: a run is one process lifetime without sweeps.
- The parsing of PeerIds: a peer that cannot be parsed counts as not reachable, and a signature names its signer.
- Session-keyed mailbox keys and acknowledgement queries: more of the same keys and timing.
- Command line, GUI, identity files, peer cache, bootstrap and history: input, output and short case analysis.
