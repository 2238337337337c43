# Hey direct messages: a verified model

Hey sends direct messages between two people over a gossip network that may reorder, lose, duplicate and forge.
This project models the machinery behind that and proves what it promises.

**The ratchet.** A Double Ratchet (the algorithm of Signal's "The Double Ratchet Algorithm", sections 3.3 to 3.5)
with a rolling ML-KEM secret mixed into every DH turn. `SymbolicCrypto` gives the derivation functions as free
terms, `RatchetSpec` what each step computes, `Ratchet` the mutable record the program updates, and `Receiver` the
two files of a contact with the receive-then-commit discipline around them. `Epochs` is a shared history that no
party stores, against which both sides' states are measured; `KeyAgreement` shows one delivery, `Conversation` and
`Runs` any run of two parties with crashes between any two writes, `Guarantees` what follows from it, `LateArrivals`
how long an overtaken message can still come, and `Secrecy` what a thief of one side's file can compute, before and
after the theft.

**Around it.** `QueueRotation` and `KeyPinning`, over the types in `Contacts`, are the timed and the trust state
machine of a contact. `Frag`, `Outbox` and `Broker` are the transport: fragments, the retry queue, the per-topic log;
`FragNoise` adds foreign and forged traffic, and `EndToEnd` follows one sealed wire from an outbox attempt through
its fragments and the reassembly into the recipient's conversation. `CanonicalJson` and `SignedPayloads` are the bytes
that signatures cover, `JsonMeaning` what those bytes determine; `Positional` and `Base58` the did:key numerals;
`Padding` and `Attachments` the size buckets and the attachment round trip; `CidCache` the content cache.

The assumptions of the run theorems are met by real conversations: `Guarantees.ReachableInv` starts from an accepted
invite, and `Guarantees.FirstMessageArrives` carries both sides' first messages through.

Code that the program runs in place on a record, a list or a buffer is a class or a method with loops here, proved
against a function of the old state; the theorems are about those functions and about runs of them.

## How the network and the crypto are modelled

- X25519 agreement is a commutative function of two key identifiers; a KEM secret is a term for (public key,
  encapsulation), and decapsulating under another key gives a different term; the KDFs are free constructors; a
  sealed payload opens exactly under the key it was sealed with.
- A delivery is any wire: any cleartext header around any payload, what the peer signed elsewhere included. The one
  assumption is that what unseals under a key of this ratchet and carries the peer's signature is a payload the peer
  sealed in this conversation (`Conversation.Deliverable`).
- Named operations are atomic. The program reads a file, awaits and writes it back without a lock, so two
  overlapping sends or flushes could interleave; that is outside the model.
- Random identifiers are drawn from a counter, so they are fresh; queue ids and outbox ids are inputs.

## Where the code and its comments part

The model follows the code.

- `base58_encode` prints one `1` too many for a non-empty all-zero buffer (`Base58.RoundTripsExactly`).
- `ratchet_step_recv` does not fail on an already passed position; the seal, not the step, stops a replay
  (`Guarantees.ReplayGetsTheKeyAtTheHead`).
- A sender in Regular mode publishes on the derived pair queue, which a recipient in Anonymous mode never polls
  (`QueueRotation.SendReachesExactly`, `QueueRotation.MixedPairingIsDeaf`).
- `purge_topic` matches exactly although its comment says prefix (`Outbox.PurgeIsExact`).
- A fragment set delivered in full twice is handed over twice (`Frag.CompleteSetIsForgotten`); the ratchet
  stores it once all the same (`EndToEnd.ResendsStoreAtMostOnce`).
- Fractional numbers in a signed body are printed as 0 (`SignedPayloads.FractionsCollide`); bodies without a number
  that prints as 0 are safe, and only those (`SignedPayloads.BodyIsProtectedExactly`).
- The cache key joins with a character that is asserted, not checked, to be absent from CIDs; that is exactly what
  it takes (`CidCache.KeysOwnExactly`).
- Attachment chunks are 256 KiB; comments speak of 1 MiB.

## Model

| member | source | states |
|---|---|---|
| Ratchet.DoubleRatchet.TurnReceiving | capsules/hey-core/src/api/dms.rs:1745-1762 | the receiving half of a turn, in place: exactly the specified new state, hybrid iff a KEM secret came along |
| Ratchet.DoubleRatchet.MintSending | capsules/hey-core/src/api/dms.rs:1763-1789 | the sending half of a turn, in place: fresh DH pair, and fresh KEM pair and ciphertext iff the peer's rolling key is known |
| Ratchet.DoubleRatchet.DhRatchet | capsules/hey-core/src/api/dms.rs:1745-1789 | both halves in order; runs no chain KDF |
| Ratchet.DoubleRatchet.SkipMessageKeys | capsules/hey-core/src/api/dms.rs:1794-1823 | the loop stashes the keys of all positions passed, then evicts; a refusal changes nothing; at most `until - nr` chain steps |
| Ratchet.DoubleRatchet.EvictSkipped | capsules/hey-core/src/api/dms.rs:1827-1834 | the stash in place becomes its evicted form, which `SkippedKeys.EvictsExactly` characterises |
| Ratchet.DoubleRatchet.TrySkipped | capsules/hey-core/src/api/dms.rs:1837-1844 | takes out the first stashed key for (dh, n), or leaves the stash alone |
| Ratchet.DoubleRatchet.StepSend | capsules/hey-core/src/api/dms.rs:1849-1869 | one send: key, header and the whole new state; nothing changes without a sending chain |
| Ratchet.DoubleRatchet.StepRecv | capsules/hey-core/src/api/dms.rs:1875-1957 | one receive: the specified key and state or error, with at most MAX_SKIP + 1 chain KDF calls whatever the header claims |
| SymbolicCrypto.ChainAtAdds | capsules/hey-core/src/crypto.rs:306-315 | chain steps compose: position a + b is b steps past position a |
| SkippedKeys.EvictsExactly | capsules/hey-core/src/api/dms.rs:1827-1834 | a stashed key is evicted iff it is older than seven days or 2000 newer live keys follow it |
| Epochs.DroppedExactly | capsules/hey-core/src/api/dms.rs:1794-1834 | what a skip drops, old keys and just-derived ones alike, is exactly what does not outlive eviction |
| Epochs.JustPassedStays | capsules/hey-core/src/api/dms.rs:1794-1834 | a page just passed over survives the very skip that passed it |
| LateArrivals.EvictedWasOverdue | capsules/hey-core/src/api/dms.rs:1794-1834 | over any run, a page is forgotten only when at some delivery it had been passed over a week before, or 2000 pages no older than a week had been passed after it |
| LateArrivals.LateMessageOpens | capsules/hey-core/src/api/dms.rs:1875-1957 | from an accepted invite on, a genuine message within 1000 of the head whose page is not overdue is accepted iff it has not been before |
| LateArrivals.ShortGapsAreInTime | capsules/hey-core/src/api/dms.rs:1794-1834 | with at most 2000 pages passed and none of them a week before a delivery, no page is ever overdue |
| LateArrivals.OvertakenMessageArrives | capsules/hey-core/src/api/dms.rs:1794-1957 | of two messages sent in a row the second may come first and the first at any later time: both are accepted and both texts stored |
| Epochs.KeysDiffer | capsules/hey-core/src/api/dms.rs:1745-1789 | two pages of a conversation have the same message key iff they are the same page |
| Epochs.SkipKeeps | capsules/hey-core/src/api/dms.rs:1794-1823 | skipping within the budget keeps the receiving half in agreement with the history |
| Epochs.TurnSecretAligned | capsules/hey-core/src/api/dms.rs:1907-1938 | the KEM secret a genuine turn folds in is the one its sender encapsulated |
| Epochs.TurnOpensEpoch | capsules/hey-core/src/api/dms.rs:1745-1789 | a turn opens one new epoch linked to the last and keeps the rolling KEM keys aligned |
| KeyAgreement.GenuineDelivery | capsules/hey-core/src/api/dms.rs:1668-1957 | central theorem: in any reachable agreement a genuine message opens iff its key is stashed or within the skip budget, under exactly the key it was sealed with, and both sides still agree afterwards |
| KeyAgreement.UnspentKeyOpens | capsules/hey-core/src/api/dms.rs:1875-1957 | the same in terms of history: within MAX_SKIP a genuine message opens iff its key was neither consumed nor evicted |
| KeyAgreement.OldEpochStaysClosed | capsules/hey-core/src/api/dms.rs:1875-1957 | a key of a finished epoch that is not stashed never comes out again, though the step may succeed |
| Receiver.BlankIsEmpty | capsules/hey-core/src/api/dms.rs:2278-2287 | a typed text is refused as empty iff every character is white space |
| Receiver.BodyIs | capsules/hey-core/src/api/dms.rs:2278-2287 | what is sent is the text without the white space around it, cut at 4096 characters |
| Receiver.VerdictIsTrue | capsules/hey-core/src/api/dms.rs:3359-3497 | each verdict names the check that decided it, a commit means all of them passed, and nothing else touches the files |
| Receiver.ContactStore.StoreMessage | capsules/hey-core/src/api/dms.rs:3312-3350 | appends the clipped text once per id and reports whether it was new |
| Receiver.ContactStore.ReceiveRatchetMessage | capsules/hey-core/src/api/dms.rs:3359-3497 | both files after one delivery, every check in order, and after a crash between the two writes |
| Receiver.ContactStore.SendRatchetMessage | capsules/hey-core/src/api/dms.rs:2201-2253 | the advanced ratchet is on disk before the wire exists; after a crash there is no wire |
| Guarantees.ReachableInv | capsules/hey-core/src/api/dms.rs:1668-1957 | every world that any run reaches from an accepted invite satisfies the conversation invariant |
| Runs.StartInv | capsules/hey-core/src/api/dms.rs:1240-1262 | accepting an invite, hybrid or legacy, establishes the conversation invariant |
| Runs.BootstrapKeeps | capsules/hey-core/src/api/dms.rs:1699-1729 | completing the handshake turns onto the accepter's epoch and keeps the invariant |
| Runs.SendKeeps | capsules/hey-core/src/api/dms.rs:2201-2253 | a send, crashed or not, keeps the invariant |
| Runs.DeliverKeeps | capsules/hey-core/src/api/dms.rs:3359-3497 | a delivery of any wire, crashed or not, keeps the invariant |
| Runs.CommitIsGenuine | capsules/hey-core/src/api/dms.rs:3359-3497 | what is accepted is the peer's own payload under the header it was sealed with |
| Runs.StepKeepsInv | capsules/hey-core/src/api/dms.rs:1668-1957 | every event the network can cause keeps the invariant |
| Runs.RunKeepsInv | capsules/hey-core/src/api/dms.rs:1668-1957 | so does every run |
| Guarantees.AcceptedExactly | capsules/hey-core/src/api/dms.rs:3359-3497 | a wire is accepted iff it is the peer's payload under its own header and its key is stashed or in budget |
| Guarantees.UnspentMessageOpens | capsules/hey-core/src/api/dms.rs:3359-3497 | within the skip budget an unaltered message is accepted iff its key was neither consumed nor evicted |
| Guarantees.SendingNeverFails | capsules/hey-core/src/api/dms.rs:1849-1869 | once both sides exist, either can send in every reachable world |
| Guarantees.FreshMessageArrives | capsules/hey-core/src/api/dms.rs:1849-1957 | liveness: in any reachable world a message sent now and arriving first is accepted and stored if the gap before it is within the skip budget |
| Guarantees.FirstMessageArrives | capsules/hey-core/src/api/dms.rs:1668-1729 | in particular either side's first message after any handshake, hybrid or legacy: the other side stores the trimmed text, cut at 4096 characters |
| Guarantees.ForgeryIsIdle | capsules/hey-core/src/api/dms.rs:1871-1957 | a forged delivery changes neither file, the peer's own payloads under other keys or headers included |
| Guarantees.ForgeriesChangeNothing | capsules/hey-core/src/api/dms.rs:1871-1957 | removing every forged delivery from any run leads to the same ratchets, conversations and history |
| Guarantees.OpensOnce | capsules/hey-core/src/api/dms.rs:1871-1957 | after (dh, n) is committed, no wire for it is accepted again after any further run |
| Guarantees.ReplayGetsTheKeyAtTheHead | capsules/hey-core/src/api/dms.rs:1948-1956 | the bare step does not fail on a passed position: it hands out the key at `nr`, which differs from the one asked for |
| Guarantees.NoKeySealsTwice | capsules/hey-core/src/api/dms.rs:2201-2253 | no two payloads, of one side or both, share a key or a (dh, n), crashes included |
| Guarantees.DiskIsFaithful | capsules/hey-core/src/api/dms.rs:3484-3497 | at any moment the conversation holds genuine texts once each, and no key is spent whose text is not stored |
| Guarantees.CrashHealsOnRedelivery | capsules/hey-core/src/api/dms.rs:3484-3497 | crash after storing plus redelivery equals one uninterrupted delivery |
| Guarantees.RedeliveryIsIdle | capsules/hey-core/src/api/dms.rs:3312-3350 | delivering an accepted wire again changes nothing |
| Guarantees.CommitIsTimeless | capsules/hey-core/src/api/dms.rs:1827-1834 | whether a wire is accepted does not depend on the clock |
| Guarantees.NoDowngrade | capsules/hey-core/src/api/dms.rs:1907-1938 | for any header: a known rolling key stays known, a turn without ciphertext is refused, and the chain it mints carries one |
| Guarantees.RunKeepsPeerKem | capsules/hey-core/src/api/dms.rs:1907-1943 | over a whole run a learned rolling key is never forgotten |
| Guarantees.HybridChains | capsules/hey-core/src/api/dms.rs:1763-1789 | a side's chain carries a ciphertext iff it knows a rolling key, and then for that very key |
| Guarantees.FirstChainIsHybrid | capsules/hey-core/src/api/dms.rs:1699-1729 | the inviter's first chain is hybrid iff the handshake advertised a rolling key, and then for that key |
| Guarantees.HybridTurnsAreFresh | capsules/hey-core/src/api/dms.rs:1763-1789 | over any run no two hybrid turns share a rolling key or an encapsulation |
| Guarantees.HonestTurnIsUsable | capsules/hey-core/src/api/dms.rs:1907-1946 | between honest sides the refusal never fires and the ciphertext yields the peer's secret |
| Guarantees.InnerCapNeverFires | capsules/hey-core/src/api/dms.rs:1794-1800 | after the combined check the per-chain cap cannot be hit, whatever the header claims |
| Guarantees.StashIsBounded | capsules/hey-core/src/api/dms.rs:1827-1834 | at rest at most 2000 keys, no (dh, n) twice |
| Secrecy.DerivableIsClosed | capsules/hey-core/src/crypto.rs:234-315 | the attacker's reach is closed under every function of the program |
| Secrecy.DerivableIsLeast | capsules/hey-core/src/crypto.rs:234-315 | and is the least such set, so the definition is neither too weak nor too strong |
| Secrecy.PastRootsHidden | capsules/hey-core/src/api/dms.rs:1745-1789 | a root turned past cannot be computed from the state, with or without the long-term keys |
| Secrecy.ForwardSecrecy | capsules/hey-core/src/api/dms.rs:1849-1957 | a stolen state gives away a message key up to its epoch iff it is unsent, unreached or stashed; the inviter's long-term keys add only the accepter's first epoch while that is current |
| Secrecy.SentKeysAreGone | capsules/hey-core/src/api/dms.rs:1849-1869 | no key of a sent message can be computed from the sender's device, long-term keys included, in any reachable world |
| Secrecy.ReceivedKeysAreGone | capsules/hey-core/src/api/dms.rs:1948-1956 | nor any key of a received message from the receiver's device |
| Secrecy.NextEpochExposed | capsules/hey-core/src/api/dms.rs:1745-1789 | the peer's next epoch is always within the thief's reach: healing takes two turns |
| Secrecy.LaterRootsHeal | capsules/hey-core/src/api/dms.rs:1745-1789 | a later root is within reach iff the secrets of every turn since the theft are, the long-term keys stolen with it or not |
| Secrecy.PostCompromise | capsules/hey-core/src/api/dms.rs:1745-1789 | so is a later message key; and the first such turn is exposed iff X25519 and, if hybrid, ML-KEM are broken, the long-term keys stolen or not |
| Secrecy.RunHeals | capsules/hey-core/src/api/dms.rs:1745-1789 | the same over any run continuing from the theft of a file, with or without the long-term keys |
| Secrecy.HealingTurnIsHybrid | capsules/hey-core/src/api/dms.rs:1763-1789 | a turn is hybrid iff the other side advertised a rolling key in the epoch before |
| CanonicalJson.WriteCanonical | capsules/hey-core/src/events.rs:38-97 | the recursive printer appends exactly the canonical text |
| CanonicalJson.WriteArray | capsules/hey-core/src/events.rs:38-97 | its array loop |
| CanonicalJson.WriteObject | capsules/hey-core/src/events.rs:38-97 | its loop over the sorted keys |
| CanonicalJson.Canonicalize | capsules/hey-core/src/events.rs:32-36 | the whole text |
| SortedKeys.AtMostExactly | capsules/hey-core/src/events.rs:82-84 | the order of keys: a prefix comes first, else the first different character decides |
| CanonicalJson.ObjectPrints | capsules/hey-core/src/events.rs:82-95 | an object prints as its fields joined by commas in the strictly ascending order of its keys |
| CanonicalJson.KeysAscend | capsules/hey-core/src/events.rs:82-95 | and there is always exactly one such listing of the keys |
| CanonicalJson.EscapeIsShortest | capsules/hey-core/src/events.rs:66-70 | the escape printed for a character is its one shortest spelling without control characters |
| CanonicalJson.NoLeadingZero | capsules/hey-core/src/events.rs:41-50 | a number prints without leading zeros |
| CanonicalJson.StringReadsBack | capsules/hey-core/src/events.rs:38-97 | escaping per section 7 of RFC 8259 is undone by reading, whatever follows |
| CanonicalJson.ParsesBack | capsules/hey-core/src/events.rs:38-97 | a parser inverts the printer up to the integer coercion of numbers |
| CanonicalJson.CanonInjective | capsules/hey-core/src/events.rs:32-97 | two texts are equal iff the values are, keys in any order, numbers as the integers they print as |
| JsonMeaning.WholeCanonInjective | capsules/hey-core/src/events.rs:32-97 | on values with integer numbers two texts are equal iff the values are, keys in any order |
| JsonMeaning.TextDeterminesExactly | capsules/hey-core/src/events.rs:41-66 | over all values, a text determines every number's value iff no number in the value prints as 0 |
| JsonMeaning.FloatPrintsAs | capsules/hey-core/src/events.rs:50-61 | an integral float below 2^63 in size prints as that integer, every other float as 0 |
| SignedPayloads.InnerBytesAre | capsules/hey-core/src/api/dms.rs:1395-1415 | the signed bytes spelled out: body, kind, rh if present, sender_did, ts |
| SignedPayloads.HeaderTextIs | capsules/hey-core/src/api/dms.rs:1398-1414 | the header inside them: dh, kem_ct and kem_pub if present, n, pn |
| SignedPayloads.EventBytesAre | capsules/hey-core/src/events.rs:99-106 | and an event's: payload, sender_did, ts, type |
| SignedPayloads.InnerSignBytesInjective | capsules/hey-core/src/api/dms.rs:1395-1415 | signed bytes are equal iff kind, sender, ts, presence and content of `rh`, and body are |
| SignedPayloads.WholeInnerSignBytesInjective | capsules/hey-core/src/api/dms.rs:1395-1415 | with integer bodies the signed bytes are equal iff the messages are |
| SignedPayloads.BodyIsProtectedExactly | capsules/hey-core/src/api/dms.rs:1395-1415 | over all bodies, a signature protects what a body means iff no number in it prints as 0 |
| SignedPayloads.EventSignBytesInjective | capsules/hey-core/src/events.rs:99-106 | the same for public events |
| SignedPayloads.EventsAndMessagesApart | capsules/hey-core/src/events.rs:99-106 | no event signs the bytes of a direct message |
| SignedPayloads.FractionsCollide | capsules/hey-core/src/events.rs:38-60 | counterexample: fractional numbers are printed as 0, so two different bodies sign the same bytes |
| Base58.DivideBy58 | capsules/hey-core/src/identity.rs:36-76 | one pass of the in-place division leaves the quotient and yields the remainder |
| Base58.Encode | capsules/hey-core/src/identity.rs:36-76 | the encoder, with all digit and byte ranges justified, computes the base-58 numeral |
| Base58.MultiplyAdd | capsules/hey-core/src/identity.rs:99-135 | one in-place pass multiplies by 58 and adds the digit, the carry in range |
| Base58.Decode | capsules/hey-core/src/identity.rs:99-135 | the decoder accepts exactly the alphabet and computes the numeral's bytes |
| Base58.DecodedEncoded | capsules/hey-core/src/identity.rs:36-135 | decode after encode, for every buffer: the buffer, or one zero more if it is non-empty and all zero |
| Base58.RoundTripsExactly | capsules/hey-core/src/identity.rs:36-135 | the round trip holds iff the buffer is empty or has a non-zero byte |
| Base58.DecodedInjective | capsules/hey-core/src/identity.rs:99-135 | no two strings decode to the same bytes |
| Base58.PublicKeyToDidKey | capsules/hey-core/src/identity.rs:78-83 | prefix and multicodec bytes, then the encoder |
| Base58.DidKeyToPublicKey | capsules/hey-core/src/identity.rs:86-97 | the parser, with its three errors |
| Base58.DidKeyRoundTrip | capsules/hey-core/src/identity.rs:78-97 | every 32-byte key survives its did:key |
| Base58.NamedKeyInjective | capsules/hey-core/src/identity.rs:86-97 | no two accepted did:key strings name one key |
| Base58.AlphabetExactly | capsules/hey-core/src/identity.rs:11-11 | the alphabet is the letters and digits without 0, O, I and l, in the order of their codes |
| Base58.DidKeyLooksLike | capsules/hey-core/src/identity.rs:78-83 | every did:key is 56 characters and begins with did:key:z6Mk |
| Base58.NamedKeyErrors | capsules/hey-core/src/identity.rs:86-97 | which error a string that names no key gets |
| Frag.SplitWire | capsules/hey-core/src/api/frag.rs:58-88 | the splitting loop yields the specified fragments |
| Frag.FragmentsAre | capsules/hey-core/src/api/frag.rs:58-88 | tagged, numbered fragments of 3000 characters, the last one with the rest |
| Frag.ChunksConcatenate | capsules/hey-core/src/api/frag.rs:58-88 | the chunks concatenate to the wire |
| Frag.Reassembler.Reassemble | capsules/hey-core/src/api/frag.rs:98-133 | one arrival: the specified output and buffer, expiry included |
| Frag.ArrivalReady | capsules/hey-core/src/api/frag.rs:98-133 | a wire comes out iff the arrival was its last missing index, and it is the original |
| Frag.ArrivalBuffers | capsules/hey-core/src/api/frag.rs:98-133 | an arrival adds to its own set or clears it, and touches no other live set |
| Frag.StaleSetsStartOver | capsules/hey-core/src/api/frag.rs:112-118 | nothing stays buffered past the TTL; a set that comes back after it starts from nothing |
| Frag.Transparent | capsules/hey-core/src/api/frag.rs:58-133 | any interleaving, permutation and duplication within the TTL: nothing before the last missing index, then the wire |
| Frag.CompleteSetIsForgotten | capsules/hey-core/src/api/frag.rs:98-133 | after completion nothing of the set is kept, so a full second delivery counts as new |
| FragNoise.NoiseChangesNothing | capsules/hey-core/src/api/frag.rs:98-133 | amid any traffic under other ids each genuine fragment makes ready exactly what it would alone |
| FragNoise.WholeSetIsReady | capsules/hey-core/src/api/frag.rs:58-133 | amid any traffic under other ids: once every index has arrived within the TTL, the last missing one makes the wire ready |
| FragNoise.BadIndexBlocks | capsules/hey-core/src/api/frag.rs:98-133 | a fragment whose index is at or above its set's count yields nothing and blocks the set |
| FragNoise.BlockedUntilExpiry | capsules/hey-core/src/api/frag.rs:98-133 | a blocked set yields nothing, whatever arrives, until its first fragment is past the TTL |
| FragNoise.JoinsToWireExactly | capsules/hey-core/src/api/frag.rs:117-131 | a full set of parts of the right lengths joins to the wire iff every part is the wire's own chunk |
| FragNoise.CompletesExactly | capsules/hey-core/src/api/frag.rs:98-133 | the fragment that completes such a set hands over a text, and the wire iff no buffered part is forged |
| FragNoise.ForgeryCompletes | capsules/hey-core/src/api/frag.rs:98-133 | the failing input: other bytes of the right length under the last missing index complete the set to another text |
| FragNoise.GenuineRepairs | capsules/hey-core/src/api/frag.rs:98-133 | while the set is open, the genuine fragment of the same index undoes the forgery |
| EndToEnd.AttemptsAreGenuine | capsules/hey-core/src/api/outbox.rs:78-93 | every fragment an attempt of the outbox publishes is a genuine fragment of its own copy of the wire |
| EndToEnd.CopyIsTheWire | capsules/hey-core/src/api/frag.rs:98-133 | whatever else is on the topic, a fragment of a copy makes ready the text itself or nothing |
| EndToEnd.ThroughIsReady | capsules/hey-core/src/api/frag.rs:98-133 | once every fragment of one attempt is in, or a short text itself, the text is ready, in any order and amid any other traffic |
| EndToEnd.ResendsStoreAtMostOnce | capsules/hey-core/src/api/dms.rs:3302-3350 | however often a wire is re-sent, duplicated or mixed with other traffic, and wherever the receiver crashes, its text is stored at most once |
| EndToEnd.ResendsStoreExactlyOnce | capsules/hey-core/src/api/dms.rs:3302-3497 | if one attempt gets through while the wire's key is neither evicted nor out of the skip budget, its text is stored exactly once |
| EndToEnd.CopiesAddOnlyTheText | capsules/hey-core/src/api/dms.rs:3302-3497 | copies of one wire, with traffic that is no ratchet wire among them, add its text or nothing to the conversation |
| Padding.MaskRoundsDown | capsules/hey-core/src/crypto.rs:434-444 | masking with the complement of 2^k - 1 is rounding down to a multiple of 2^k |
| Padding.PadmeRounds | capsules/hey-core/src/crypto.rs:434-444 | the bit trick is rounding up to the unit the two logarithms pick |
| Padding.PadmeMonotone | capsules/hey-core/src/crypto.rs:434-444 | larger sizes never get smaller buckets |
| Padding.PadmeIdempotent | capsules/hey-core/src/crypto.rs:434-444 | a bucket is its own bucket |
| Padding.PadmeOverhead | capsules/hey-core/src/crypto.rs:434-444 | at most 12 percent above the size, for every size |
| Padding.PadmeOverheadLarge | capsules/hey-core/src/crypto.rs:419-444 | below one part in 32 where attachments use it |
| Padding.AttachmentBucketMonotone | capsules/hey-core/src/crypto.rs:423-430 | at least the size and monotone, across the ladder's end |
| Padding.MessageBucketMonotone | capsules/hey-core/src/crypto.rs:60-72 | the same for the message ladder and its 64 KiB steps |
| Padding.MessageBucketExactly | capsules/hey-core/src/crypto.rs:60-72 | a message goes into the least of 256, 1024, 4096, 16384, 65536 and the multiples of 64 KiB that holds it |
| Padding.AttachmentBucketExactly | capsules/hey-core/src/crypto.rs:419-430 | attachments use the same ladder, and Padme above it |
| Padding.PadmeTellsLittle | capsules/hey-core/src/crypto.rs:434-444 | between 2^e and 2^(e+1) there are at most 2e + 1 sizes, in equal steps; with the overhead bound this fixes the rounding |
| Padding.PaddedLayout | capsules/hey-core/src/crypto.rs:60-72 | length, text, and nothing but zeros behind them |
| Padding.UnpadsExactly | capsules/hey-core/src/crypto.rs:75-87 | a buffer unpads to a text iff it starts with the text's length and the text |
| Padding.PlaintextRoundTrip | capsules/hey-core/src/crypto.rs:60-84 | messages below 4 GiB unpad to themselves; the length is the bucket's |
| Padding.AttachmentRoundTrip | capsules/hey-core/src/crypto.rs:448-469 | so do attachments |
| QueueRotation.Contact.Rotate | capsules/hey-core/src/api/dms.rs:4298-4317 | the old queue joins the grace list with its pseudonym and time; clock and counter restart |
| QueueRotation.Contact.PruneRetired | capsules/hey-core/src/api/dms.rs:4321-4332 | keeps exactly the entries in grace and returns the others' queues |
| QueueRotation.Contact.MaybeRotate | capsules/hey-core/src/api/dms.rs:4395-4448 | one received message: the whole new contact, whether it rotated, and which queues left their grace window |
| QueueRotation.AtMostOneRetired | capsules/hey-core/src/api/dms.rs:4395-4448 | floor and grace interact: never more than one queue in grace, whatever the traffic |
| QueueRotation.RotationsApart | capsules/hey-core/src/api/dms.rs:4395-4448 | two rotations are at least an hour apart |
| QueueRotation.RotatesExactly | capsules/hey-core/src/api/dms.rs:4410-4421 | after a rotation the next one comes at the first message an hour later with 200 messages or a week passed, not before |
| QueueRotation.FirstRotationExactly | capsules/hey-core/src/api/dms.rs:4405-4421 | the first rotation: the clock starts with the first message, and an hour after it 200 messages or a week decide |
| QueueRotation.PseudonymsStay | capsules/hey-core/src/api/dms.rs:4298-4317 | a queue keeps the pseudonym it was installed with, current or in grace |
| QueueRotation.ExpiredExactly | capsules/hey-core/src/api/dms.rs:4321-4332 | a queue is reported as expired exactly by the first message after its grace window |
| QueueRotation.PolledExactly | capsules/hey-core/src/api/dms.rs:4462-4495 | a queue ever installed is polled iff it is current or less than the grace period past its replacement |
| QueueRotation.PolledIsOwned | capsules/hey-core/src/api/dms.rs:302-323 | every topic polled for a contact passes the ownership check |
| QueueRotation.OwnedExactly | capsules/hey-core/src/api/dms.rs:302-323 | the ownership check passes for installed queues not yet reported as expired, for the contact's own pair queue in Regular mode, and for nothing else |
| QueueRotation.SendReachesExactly | capsules/hey-core/src/api/dms.rs:2363-2369 | whatever DIDs the two records carry: a Regular sender's topic is polled iff the recipient is Regular and both records hold the profile DIDs; an Anonymous one's iff its queue has not lapsed |
| QueueRotation.MixedPairingIsDeaf | capsules/hey-core/src/api/dms.rs:3618-3618 | counterexample: an Anonymous recipient filed under its ephemeral DID polls only its minted queue, not the pair queue its Regular peer publishes on |
| Outbox.PublishWire | capsules/hey-core/src/api/outbox.rs:78-93 | publishes a prefix of the fragments; true iff all crossed, else stops at the first that did not |
| Outbox.CrossedExactly | capsules/hey-core/src/api/outbox.rs:65-71 | answer by answer: a publish counts unless it failed or says local_only, at the top or, without a field there, below |
| Outbox.BackoffIs | capsules/hey-core/src/api/outbox.rs:95-98 | the delay is min(5000 * 2^r, 3600000) for every r: saturation never shows; the cap binds iff r >= 10 |
| Outbox.Queue.Enqueue | capsules/hey-core/src/api/outbox.rs:120-137 | appends, dropping the oldest of a full queue |
| Outbox.Queue.PublishOrEnqueue | capsules/hey-core/src/api/outbox.rs:146-178 | true iff delivery is confirmed; queued exactly otherwise |
| Outbox.Queue.Flush | capsules/hey-core/src/api/outbox.rs:182-224 | the loop leaves exactly the specified queue, written only on change |
| Outbox.Queue.PurgeTopic | capsules/hey-core/src/api/outbox.rs:240-244 | leaves exactly the other topics' items |
| Outbox.FlushKeepsOrder | capsules/hey-core/src/api/outbox.rs:182-224 | the result is the order-preserving subsequence of items that wait or failed short of the limit |
| Outbox.FlushedExactly | capsules/hey-core/src/api/outbox.rs:182-224 | position by position: who stays, that it is the same message in the same order, its new count and that it waits min(5000 * 2^r, 3600000) |
| Outbox.FateExactly | capsules/hey-core/src/api/outbox.rs:182-224 | a due item counts as delivered iff every fragment crossed and a named neighbour is there, and is given up on at its twelfth failure |
| Outbox.QueueIsWhatWasPut | capsules/hey-core/src/api/outbox.rs:120-244 | after any run the queue is a subsequence of what was put, in that order and with the contents it had |
| Outbox.PurgeIsExact | capsules/hey-core/src/api/outbox.rs:238-244 | an item is purged iff its topic is equal; nothing under `topic/` is |
| Outbox.FlushSpends | capsules/hey-core/src/api/outbox.rs:182-224 | each due item costs the sum of (12 - retries) at least one |
| Outbox.FlushesDrain | capsules/hey-core/src/api/outbox.rs:182-224 | flushes with something due empty the budget, at most 12 000 |
| Outbox.RunKeepsQueueOk | capsules/hey-core/src/api/outbox.rs:120-224 | at most 1000 items, retries below 12, no attempt earlier than its backoffs allow, after any run |
| Outbox.ExpiryIsPatient | capsules/hey-core/src/api/outbox.rs:182-224 | an item is given up on at its twelfth failed attempt only, and not within 12 310 seconds of being queued |
| Outbox.RunConserves | capsules/hey-core/src/api/outbox.rs:120-244 | over any run, what was put equals what is queued, delivered, given up on, pushed out and purged |
| Broker.Broker.Append | capsules/peer-provider/src/main.rs:97-101 | appends under the next sequence number |
| Broker.Broker.ReadBatch | capsules/peer-provider/src/main.rs:102-115 | the drain loop: the visible messages from the cursor to where the batch is full |
| Broker.Broker.Drain | capsules/peer-provider/src/main.rs:102-115 | one drain: that batch, and the cursor moved behind it |
| Broker.Broker.GossipSend | capsules/peer-provider/src/main.rs:349-363 | rejects an empty topic, else appends and saves |
| Broker.Broker.GossipRecv | capsules/peer-provider/src/main.rs:364-374 | argument checks, limit at least 1, save only if something was handed out |
| Broker.DrainGivesBatch | capsules/peer-provider/src/main.rs:102-115 | a batch is full or reaches the log's end, starts at the cursor, and skips only the filtered sender |
| Broker.LogsStayOk | capsules/peer-provider/src/main.rs:95-115 | after any run memory and disk agree on the log and no cursor passes its end |
| Broker.DeliveredExactly | capsules/peer-provider/src/main.rs:95-115 | a consumer's batches, restarts included, concatenate to the filtered log up to its cursor: in order, once, no gap |
| Broker.NumbersOrder | capsules/peer-provider/src/main.rs:97-101 | sequence numbers are unique across topics and sort every topic's log |
| Broker.DrainsCatchUp | capsules/peer-provider/src/main.rs:364-373 | as many drains as there are visible messages left deliver all of them |
| Broker.RecvGivesFirst | capsules/peer-provider/src/main.rs:364-374 | a call gets the first n messages after its cursor that its filter lets through, n being 64 unless given and at least 1 |
| Broker.VisibleExactly | capsules/peer-provider/src/main.rs:102-115 | a filter lets through exactly the messages of other senders, in order |
| CidCache.Store.Put | capsules/hey-core/src/runtime.rs:1032-1052 | the eviction loop, without underflow: exactly the specified cache |
| CidCache.Store.GetBytes | capsules/hey-core/src/runtime.rs:1080-1106 | a hit answers without a fetch; a miss fetches and remembers success only |
| CidCache.EvictsOldestFirst | capsules/hey-core/src/runtime.rs:1039-1048 | drops the fewest oldest entries that make room and leaves the others as they were |
| CidCache.PutKeepsSound | capsules/hey-core/src/runtime.rs:1032-1052 | map and order stay in bijection, the total is the summed lengths, at most 512 entries and 8 MiB |
| CidCache.PutIsFound | capsules/hey-core/src/runtime.rs:1032-1052 | what is put is found if it is at most 1 MiB and nothing was there; other entries stay or are evicted |
| CidCache.FetchedIsCached | capsules/hey-core/src/runtime.rs:1080-1106 | a fetch that succeeded with at most 1 MiB answers the next one of the same cid and path, and the cache stays as it is |
| CidCache.RunKeepsSound | capsules/hey-core/src/runtime.rs:1080-1106 | so after any run of fetches |
| CidCache.KeyInjective | capsules/hey-core/src/runtime.rs:1054-1061 | keys are equal iff cid and path are, for CIDs without the separator |
| CidCache.SeparatorCollides | capsules/hey-core/src/runtime.rs:1054-1061 | a CID holding the separator shares each of its keys, whatever the path, with a path of a shorter CID |
| CidCache.KeysOwnExactly | capsules/hey-core/src/runtime.rs:1054-1061 | the join is collision-free for a CID iff the CID has no separator in it |
| CidCache.CacheRefinesFetch | capsules/hey-core/src/runtime.rs:1080-1106 | against immutable content a cached fetch answers as the plain one, except that a failure may become an earlier success |
| KeyPinning.Book.BootstrapFromKeys | capsules/hey-core/src/api/dms.rs:2545-2644 | the whole new contact list; true iff the pin changed |
| KeyPinning.PinMoves | capsules/hey-core/src/api/dms.rs:2545-2644 | one call: an absent pin is set, an unverified one yields to a verified call, nothing else changes |
| KeyPinning.PinningInClosedForm | capsules/hey-core/src/api/dms.rs:2545-2644 | any sequence of calls: a verified pin stands; else the first verified call; else the old pin; else the first call |
| KeyPinning.OthersUntouched | capsules/hey-core/src/api/dms.rs:2545-2644 | a call reaches one contact, which keeps its name, clock and existing queues and becomes usable if it was keyless |
| KeyPinning.CalledContact | capsules/hey-core/src/api/dms.rs:2545-2644 | what a call leaves under its DID: name and ticket of a new contact, mode, status and pin of a first one |
| KeyPinning.FirstPinFillsQueues | capsules/hey-core/src/api/dms.rs:2545-2644 | existing queues and pseudonyms stay, missing ones are drawn, and the publish queue is the one its owner polls for us |
| KeyPinning.TicketExactly | capsules/hey-core/src/api/dms.rs:2545-2644 | with new keys a call's ticket replaces the old one, with known keys it only fills a gap |
| KeyPinning.OnlyCalledChange | capsules/hey-core/src/api/dms.rs:2545-2644 | over any sequence, contacts that are not called about never change |
| KeyPinning.DidsStayDistinct | capsules/hey-core/src/api/dms.rs:2545-2644 | bootstrapping never lists a DID twice |
| Attachments.Store | capsules/hey-core/src/api/dms.rs:2096-2112 | hands over chunk by chunk; references only if every chunk was taken |
| Attachments.Upload | capsules/hey-core/src/api/dms.rs:2004-2088 | the upload with its size checks and three fallbacks |
| Attachments.Fetch | capsules/hey-core/src/api/dms.rs:2117-2184 | the fetch of each form, with the size check |
| Attachments.OpensSealed | capsules/hey-core/src/crypto.rs:474-527 | decrypting the padded blob gives the bytes back |
| Attachments.OpensLegacy | capsules/hey-core/src/crypto.rs:499-527 | so does a blob without padding, unless its nonce starts with the magic |
| Attachments.OpenFailsBecause | capsules/hey-core/src/crypto.rs:499-527 | which error a blob that does not open gets |
| Attachments.SealedSize | capsules/hey-core/src/crypto.rs:474-497 | magic, nonce, and a length that tells the size bucket only |
| Attachments.ChunksConcat | capsules/hey-core/src/api/dms.rs:2066-2074 | the chunks concatenate to the blob, each of 256 KiB but the last |
| Attachments.OneForm | capsules/hey-core/src/api/dms.rs:2019-2088 | exactly one form is populated, decided by size and by which store took every chunk |
| Attachments.UploadSucceedsExactly | capsules/hey-core/src/api/dms.rs:2004-2088 | an upload succeeds iff it has 1 byte to 25 MiB and, above 16 kB, one store took every chunk; else the error says which |
| Attachments.FetchedIsUploaded | capsules/hey-core/src/api/dms.rs:2004-2184 | over immutable stores every successful upload is fetched back as the same bytes |
| Attachments.FetchedHasSize | capsules/hey-core/src/api/dms.rs:2117-2184 | bytes are handed over only under a 32-byte key and with the size announced |

## Left out

- Real cryptography: X25519, ML-KEM-768, HKDF, ChaCha20-Poly1305, Ed25519 and SHA-256 are symbolic or inputs; nonces, tags and key zeroisation do not appear.
- Encodings inside the ratchet: hex and base64 of keys and ciphertexts, and the decode errors they can raise on malformed wires.
- Machine limits: u32 counters are unbounded (a chain of 2^32 messages), sequence numbers and lengths too; `Padding` takes the word width as a parameter and requires that twice the size fits.
- Interleavings inside one operation: each named operation is one atomic step.
- Ratchet.DoubleRatchet.StepRecv: promises nothing about the fields after an error, because the program only ever advances a clone and discards it then.
- Receiver.ContactStore.ReceiveRatchetMessage: starts from the contact already found for the queue; the checks that the queue is owned by an Active, ratchet-capable contact with a ratchet on file, group bodies and bodies with attachments only are left out.
- Conversation: one text message per wire; group bodies, attachments inside messages, invites, the handshake transport, welcome messages and the single-shot path for contacts without a ratchet are not part of it.
- Guarantees.CrashHealsOnRedelivery: covers a crash between storing the text and committing the ratchet; crashes inside one storage write are not modelled.
- A second handshake over an existing conversation, which would replace the ratchet, is not an event of `Conversation`.
- QueueRotation.PolledExactly: assumes that minted queue ids never repeat and that the clock does not run backwards; consumer ids, tickets, topic joins and the announcement of a new queue are left out.
- QueueRotation.SendReachesExactly: speaks of topics, not of opening: single-shot traffic of an Anonymous contact on a retired queue arrives but is decrypted for the current queue only.
- Frag.Transparent: for ASCII wires with distinct ids and no forged fragment under a known id; parsing a fragment from its JSON text is taken as given. Fragments carry no signature, so a forged one breaks transparency in two ways: with an index at or above the count it blocks the set (`FragNoise.BlockedUntilExpiry`), and with an index in range it completes the set to another text (`FragNoise.ForgeryCompletes`, exactly when by `FragNoise.JoinsToWireExactly`), unless the genuine fragment comes in again before (`FragNoise.GenuineRepairs`).
- EndToEnd.ResendsStoreExactlyOnce: the same for the topic it runs on: foreign fragments have ids of their own.
- Outbox: serialising the queue and storage errors; whether a neighbour is reached is an input.
- Broker.DeliveredExactly: for a consumer that always asks with the same filter; the network side of `gossip_send` is an append at the other end.
- CidCache.CacheRefinesFetch: the response decoding of a fetch is an input.
- Attachments.FetchedIsUploaded: file name, MIME type, ids and the base64 of the inline form are omitted, and both stores keep what they accepted.
- KeyPinning.PinningInClosedForm: a lookup finds the first contact with a DID; that DIDs are distinct holds for bootstrapping but not for incoming handshakes, which push without looking.
- Gossip mesh formation, HTTP, tokens, sessions and local storage, the user interface, and the social features (posts, profiles, notifications, groups): plumbing or storage with few invariants.
- The small providers and both command-line clients: thin wrappers; `identity-projection-provider` repeats the base58 code proved here.
