# pqchat: a verified model

pqchat is a two-party chat prototype: clients that agree on keys through a hybrid handshake and
talk over ratcheting sessions, and a server that keeps prekey bundles and mailboxes for them. This
project models its protocol logic in Dafny and proves what the protocol is for. `dafny verify
dfyconfig.toml` checks everything.

Cryptography is symbolic. Diffie-Hellman commutes, decapsulation inverts encapsulation, key
derivation is a free term, and an AEAD opens exactly what was sealed with the same key, nonce and
data (`Symbolic.dfy`). Everything else has the source's form: the client, the servers, the rate
limiter, the wire readers and writers and the socket are classes whose methods change their fields
in loops, each proved to be a function on values, and the theorems are about runs of those functions.

| files | what they model |
|---|---|
| `Symbolic`, `Nonces`, `KeyTerms`, `Messages`, `Bytes`, `Wrappers` | key terms, nonces, message records, bytes |
| `Sessions`, `SessionAgreement`, `SessionSafety`, `SessionTails` | the ratcheting session; two parties over queues; two parties over a hostile network; when nothing is missed |
| `ClientSpec`, `Client`, `ClientRuns`, `Handshake` | handshake, pins, one-time keys, replay guards, polling; the class; its runs |
| `Trust` | pins and safety numbers over whole runs |
| `ClientSessions`, `ClientKeys`, `Conversations` | the session theorems for whole clients; every message key once; from one user's keyboard to the other's screen |
| `Mailbox`, `Delivery`, `Polls` | the in-memory mailbox and prekey store; exactly-once polling over a lossy link; what a poll shows |
| `SqliteStore`, `StoreRefinement` | the tables; the proof that they refine the in-memory store |
| `Fields`, `WireCodec`, `WirePages`, `InboxPages`, `AuthWire`, `WireBuffers`, `WireMessages`, `Frames` | the wire format, its reader and writer, pages and frames |
| `SignInputs` | what is signed, hashed or bound as associated data |
| `AuthSpec`, `AuthServer`, `AuthRuns`, `AuthLimits`, `AuthKeys`, `UserIds` | registration, login, sessions; where a registered key comes from |
| `SqliteAuth` | the same in tables; the proof that the answers are the same |
| `RateLimits`, `PreAuthGate`, `LoginGate` | sliding windows; the limits on interleaved connections |
| `Dispatch`, `Connections`, `Commands`, `TcpServer` | the commands of a connection over all of the above; connections side by side; what each command does and replies |
| `StateFile`, `DurableState`, `StateBuffers` | the client's state file |

Three facts of the code shape what is true of it, and each is stated as an exact condition.

- Both directions mix into one root key, so two ratchets that cross break the session: agreement
  holds in runs without crossing (`SessionAgreement.Agreement`), a crossing message is lost for good
  (`CrossingNeverAccepted`), and the next message gets through if and only if it does not cross
  (`AcceptedIffNotCrossing`).
- The receiver ratchets before it checks counter and tag (`src/client/client.cpp:1819-1842`), so a
  refused message leaves the session alone if and only if it names another session or carries no new
  usable ratchet key (`Sessions.RejectedUnchanged`).
- The length of the previous chain is never checked on receipt, so the tail of a chain may be
  skipped (`SessionTails.TailSkipped`). A side misses nothing if and only if each ratchet into a
  chain it accepts from moves when its receive counter stands at ten (`SessionTails.PrefixIff`). The
  length that is announced would not serve for that check: the first ratchet of a session announces
  zero (`KeyTerms.AnnouncedIff`).

The two stores are not the same, and each difference has its exact condition. A publish is answered
alike unless a valid bundle has an empty blob for a NOT NULL column (`StoreRefinement.PublishedAlikeIff`);
an envelope, unless it does not encode or its encoding does not decode to it (`EnqueuedAlikeIff`); an
acknowledgement, unless it names an id that was never given out and a row of the user lies above what
it is cast to (`DrainedAlikeIff`); a revocation, unless its row is revoked already
(`SqliteAuth.SqliteAuthRefines`).

The header file of the frames and their code disagree on when a close counts as the end of the
stream; the code is followed, and `Frames.EofInsideFrame` says where they differ.

Every call into the server holds its mutex and is one atomic step. A request takes up to three of
them, a rate limit, a session check and the call itself, and the runs of `Connections` interleave the
steps of all connections in any order.

The clock, the random generator, signature verification, the provisioning-token check and what
becomes of a network request are parameters. A run takes any values of them.

## Model

| member | source | states |
|---|---|---|
| `SessionAgreement.Agreement` | src/client/client.cpp:996-1041 | For every interleaving of sends and in-order receipts after a handshake in which no ratchets cross: nothing has been refused, each user has been shown a prefix of what the other sent, and replaying the messages in flight gives the rest, the sender's chain, counter and ratchet key, and its root key where no opposite ratchet is in flight |
| `SessionAgreement.RunKeepsSync` | src/client/client.cpp:1819-1860 | The relation between both sessions and both queues that agreement rests on, kept by every allowed run |
| `SessionAgreement.RatchetKeepsSync` | src/client/client.cpp:996-1019 | A tenth message, which mixes a new DH secret into the shared root, keeps that relation when no ratchet of the peer is in flight |
| `SessionAgreement.SendKeepsSync` | src/client/client.cpp:1021-1041 | A message without ratchet extends the replay of the queue by exactly its plaintext |
| `SessionAgreement.DeliverKeepsSync` | src/client/client.cpp:1819-1858 | Receiving the head of the queue shows the plaintext that was sent and leaves the rest of the queue replayable |
| `SessionAgreement.CrossingNeverAccepted` | src/client/client.cpp:1822-1837 | The other half: a ratchet message that crosses one of the peer is refused whenever it arrives, whatever the peer does before |
| `SessionAgreement.AcceptedIffNotCrossing` | src/client/client.cpp:996-1041 | From every synchronised state, the next message gets through in order if and only if it does not cross a ratchet |
| `SessionAgreement.CrossedIsPassed` | src/client/client.cpp:1822-1837 | Where a ratchet of the peer is in flight, the peer's root is already deeper than any chain that can be opened from the own root |
| `KeyTerms.PassedForever` | src/client/client.cpp:1819-1858 | A chain that a session has ratcheted past is never listened to again, over all local sends and all messages received |
| `KeyTerms.NumberedUnique` | src/client/client.cpp:483-500 | The chain key at a position of a chain is determined by the key the chain starts with |
| `KeyTerms.AnnouncedIff` | src/client/client.cpp:1018-1019 | In every run a ratchet ends a chain of ten messages, and its message announces that length if and only if the session has ratcheted before; the first announces zero |
| `Sessions.RejectedUnchanged` | src/client/client.cpp:1814-1851 | A refused chat message leaves the session unchanged if and only if it names another session or its header carries no new usable ratchet key |
| `SessionSafety.ReceiveSafety` | src/client/client.cpp:1819-1858 | On a network that drops, duplicates, reorders and replays, in every run: what each side accepted is a duplicate-free, order-preserving selection of what the other sealed, contiguous from the start within each chain |
| `SessionSafety.KeysUsedOnce` | src/client/client.cpp:483-539 | In every such run no message key seals twice on either side or across both, and no send counter exceeds 10 |
| `SessionSafety.RunKeepsInv` | src/client/client.cpp:541-559 | Accepted and sealed logs are chains of growing rank under the growing depth of the root, in every run |
| `SessionSafety.ReceiveSide` | src/client/client.cpp:1819-1858 | Receiving any message keeps the log of accepted messages a strictly growing chain, also when the ratchet moves and the message is then refused |
| `SessionSafety.SendSide` | src/client/client.cpp:996-1041 | Sending keeps the log of sealed messages a strictly growing chain |
| `SessionSafety.OrderedSelection` | src/client/client.cpp:1840-1842 | Two logs that are such chains, one within the other, are in the relation that receive safety states |
| `SessionTails.PrefixIff` | src/client/client.cpp:1819-1842 | Nothing missed, exactly: in every run on the hostile network, what a side accepted is a beginning of what its peer sealed if and only if, for every chain it accepted from, the ratchet into that chain moved when its receive counter stood at ten |
| `SessionTails.TailSkipped` | src/client/client.cpp:1822-1837 | The input: a sender fills its chain, opens the next, only the opening message arrives, is accepted, and nine messages are lost for good |
| `SessionTails.RatchetHeard` | src/client/client.cpp:1822-1842 | With equal roots and each other's keys, a ratchet message is accepted wherever the receive counter stands |
| `SessionTails.RunDirections` | src/client/client.cpp:1819-1858 | What ties each receiver to its sender's chains, kept by every run in both directions |
| `SessionTails.ReceiverMoves` | src/client/client.cpp:1822-1837 | A moving ratchet either follows the sender into its next chain or leaves the sender's chains |
| `SessionTails.NotPoisoned` | src/client/client.cpp:502-520 | A root that was mixed with a secret the sender has no part in is never reached by the sender |
| `SessionTails.LostHearsNothing` | src/client/client.cpp:1839-1851 | A receiver that has left its sender's chains never accepts again |
| `Conversations.ConversationArrives` | src/client/client.cpp:978-1152 | From keyboard to screen: from mirrored sessions, after any run of sends and in-order deliveries without crossing ratchets, a poll of the receiver over a link that holds shows the rest, so that every text the sender was asked to send has been shown once and in order; it reports no failure and empties the inbox |
| `Conversations.PollReceives` | src/client/client.cpp:1054-1152 | The poll itself, from every synchronised pair of clients with the messages on their way in the inbox |
| `Conversations.HandshakeArrives` | src/client/client.cpp:1155-1345 | When an initiator's message waits in the inbox of a responder that accepts it, a poll shows the initiator's plaintext and leaves the two clients where the session theorems start |
| `Conversations.TextsReplay` | src/client/client.cpp:1082-1110 | Handling envelopes as a client shows exactly what receiving their messages as a session shows |
| `ClientSessions.AnsweredSession` | src/client/client.cpp:1803-1860 | After a handshake that a client answered and until the next with that peer, in every run of the client: the ciphertexts it accepts from the peer, the handshake's first, strictly precede one another, so none is accepted twice; so do those it returns for the peer |
| `ClientSessions.BegunSession` | src/client/client.cpp:978-1052 | The same after a handshake that the client began |
| `ClientSessions.ClientsSafe` | src/client/client.cpp:1803-1860 | Two clients with mirrored sessions on a hostile network, whatever else either does: what each accepts from the other is an ordered duplicate-free selection of what the other returned, contiguous in each chain, and all message keys they return for each other differ |
| `ClientSessions.ClientsAgree` | src/client/client.cpp:978-1052 | Two clients over ordered mailboxes, in every run without crossing ratchets: every text a client is asked to send is sent, none is refused, each user is shown a beginning of what the other was asked to send, and all of it once nothing is on its way |
| `ClientSessions.TwoInARow` | src/client/client.cpp:978-1052 | Two messages sent in a row and delivered in order are both shown |
| `ClientSessions.HandshakeStarts` | src/client/client.cpp:820-957 | An accepted handshake leaves the two clients where these theorems start |
| `ClientSessions.RunKeepsSide` | src/client/client.cpp:1803-1860 | One session's logs stay growing chains in every run of its client |
| `ClientSessions.SessionAfter` | src/client/client.cpp:1803-1860 | What any event but a handshake with the peer does to the session with that peer |
| `ClientSessions.SentMessage` | src/client/client.cpp:985-1041 | Number, flags, ratchet key, nonce, names and sealed data of the message a client returns; a ratchet key on top of every ten messages and only there |
| `ClientKeys.EveryKeyOnce` | src/client/client.cpp:820-1041 | In every run of a client without sessions in which keys named by the network have been generated: all ciphertexts it returns, in handshakes and chats, for all peers, are sealed under pairwise different message keys, each with the nonce of its position, and no send counter exceeds ten |
| `ClientKeys.SendingNeverFails` | src/client/client.cpp:985-1041 | In such a run a client can send to a peer if and only if it has a session with it |
| `ClientKeys.RunKeepsInv` | src/client/client.cpp:483-539 | No chain that a client sends on begins twice or is shared by two sessions, in every run |
| `ClientKeys.PastForever` | src/client/client.cpp:820-957 | A chain begun with an ephemeral key, a one-time key or a ratchet key of the past cannot begin again |
| `Symbolic.SharedSecretAgrees` | src/client/client.cpp:820-957 | Both ends of a Diffie-Hellman exchange get the same secret, and only from the same other key |
| `Symbolic.NonceInjective` | src/crypto/aead.cpp:139-146 | Different counters give different nonces |
| `Nonces.NonceFromCounter` | src/crypto/aead.cpp:139-146 | The shifting loop produces the counter as eight big-endian bytes after four zero bytes |
| `Nonces.U64ByteAt` | src/crypto/aead.cpp:139-146 | The low byte after shifting by n bytes is the n-th byte from the right of the big-endian form |
| `Handshake.Mirroring` | src/client/client.cpp:820-957 | Whenever a responder accepts an initiator's message, it shows the initiator's plaintext and both sessions start the agreement and the safety theorem: equal roots, swapped chains, equal counters, matching ratchet keys |
| `Handshake.AcceptedUnaltered` | src/client/client.cpp:1155-1345 | Whatever a responder accepts with the ciphertext an initiator sealed is the initiator's message with nothing altered |
| `Handshake.MirroringDelivered` | src/client/client.cpp:820-957 | Mirroring for every such message, however it reached the responder |
| `Handshake.AcceptanceConfirms` | src/client/client.cpp:1229-1329 | A responder that accepts has computed the initiator's secret, so the bundle the initiator used carried the responder's own keys, whatever the server handed out |
| `Handshake.AcceptedIff` | src/client/client.cpp:1155-1345 | An initiator's message is accepted if and only if its bundle is the responder's current one, the initiator is pinned and verified, and neither replay guard has been seen |
| `Handshake.InitiateIff` | src/client/client.cpp:780-957 | A client begins a session if and only if the bundle names the peer, in the right version and suite with valid signatures, the peer is pinned with exactly the bundle's identity and verified, both one-time keys are there, all keys are usable, and neither guard has been seen |
| `Handshake.InitiateRefused` | src/client/client.cpp:795-801 | If it does not, nothing has changed but that a valid bundle on first contact has pinned its identity, unverified |
| `Handshake.InitiateEffects` | src/client/client.cpp:931-974 | If it does, both guards are seen afterwards, the message carries the bundle's identity and one-time ids, and only guards and that session have changed |
| `ClientRuns.AcceptedAuthentic` | src/client/client.cpp:1155-1229 | Whoever's initial message is accepted is verified, and both keys of the pinned identity have signed the transcript naming this client, its keys and all that the message carries; the guards were new and the one-time keys still there |
| `ClientRuns.AcceptedEffects` | src/client/client.cpp:1331-1345 | Acceptance removes exactly the two one-time keys named from their pools, marks the pools for publication, makes both guards seen, gives the sender a session and leaves the rest alone |
| `ClientRuns.RememberKeepsSeen` | src/client/client.cpp:1931-1962 | Remembering makes both guards seen and forgets none below 4096, and at 4096 only the oldest |
| `Trust.AcceptedIsVerified` | src/client/client.cpp:1221-1229 | For a client that starts without pins, in every run: whoever's initial message it accepts, the user has entered the safety number of exactly the identity that the message carries |
| `Trust.InitiatedIsVerified` | src/client/client.cpp:795-801 | The same of whomever it begins a session with and the identity in the bundle |
| `Trust.RunPins` | src/client/client.cpp:1865-1900 | In every run the keys of a pin never change, a verified pin stays so, and a pin becomes verified only by entering its number |
| `Trust.StepPins` | src/client/client.cpp:728-751 | The same of one event |
| `Clients.Client.VerifyPeerSafetyNumber` | src/client/client.cpp:728-751 | Verifies a pin exactly if the number entered is that of the pinned identity; it stays verified also when saving fails |
| `ClientRuns.AcceptedAtMostOnce` | src/client/client.cpp:1171-1173 | After a client accepted an initial message, no message with the same ciphertext is accepted later in any run of the process, also after its guards were evicted |
| `ClientRuns.AtMostOnceInRun` | src/client/client.cpp:1171-1173 | The same over a whole run that starts without one-time keys |
| `ClientRuns.CiphertextNamesKey` | src/client/client.cpp:1248-1329 | The ciphertext alone determines the one-time key that opens it |
| `ClientRuns.AcceptSpends` | src/client/client.cpp:1331-1341 | Accepting removes that key from the pool for good |
| `ClientRuns.RunKeepsSpent` | src/client/client.cpp:1348-1388 | No run brings a spent key back: refills only add newly generated keys |
| `ClientRuns.StepKeepsKeys` | src/client/client.cpp:1348-1388 | The keys of the pool stay distinct and already generated |
| `ClientRuns.RunKeepsKeys` | src/client/client.cpp:1348-1388 | So they do in every run |
| `ClientRuns.RefusedInitial` | src/client/client.cpp:1155-1345 | A refused initial message changes nothing, but that a first contact that passed all checks up to the signatures is pinned, unverified |
| `ClientRuns.RememberKeepsGuards` | src/client/client.cpp:1931-1962 | Guard sets hold exactly the elements of their orders, once each, and never more than 4096 |
| `ClientRuns.RunKeepsValid` | src/client/client.cpp:1348-1421 | Guards, pools and sessions stay sound through every run: pool ids are non-zero and distinct across both pools and pools never exceed 16 |
| `ClientRuns.PushKeepsPools` | src/client/client.cpp:1349-1386 | A key with an id that neither pool uses may join a pool |
| `ClientSpec.IndexOf` | src/client/client.cpp:1248-1285 | The first position of an id in a pool, or the pool's length when no key has it |
| `Clients.Client.HandleInitialMessage` | src/client/client.cpp:1155-1345 | The object changes exactly as the handshake function says and yields its plaintext; remembering cannot fail once the seen-check has passed |
| `Clients.Client.RememberInitialReplayGuards` | src/client/client.cpp:1931-1962 | Insert, roll back on a duplicate transcript, and evict: all or nothing, as the guard function says |
| `Clients.Client.Evict` | src/client/client.cpp:1951-1960 | The eviction loop keeps the newest 4096 entries and the set of them |
| `Clients.Client.VerifyOrRememberPeerIdentity` | src/client/client.cpp:1865-1900 | First contact pins unverified and is refused; afterwards only the same keys with a verified pin pass |
| `Clients.Client.FindOneTime` | src/client/client.cpp:1248-1285 | The search loop finds the first key with the id |
| `Clients.Client.Admit` | src/client/client.cpp:1155-1220 | Accepts exactly what passes recipient, version, suite, prekey, guard, transcript and signature checks |
| `Clients.Client.OpenWithPools` | src/client/client.cpp:1229-1329 | Session and plaintext are those of the handshake function, and nothing has changed yet |
| `Clients.Client.Consume` | src/client/client.cpp:1336-1341 | Removes the two used one-time keys and nothing else |
| `Clients.Client.InitiateSession` | src/client/client.cpp:769-974 | Acquires the bundle, builds the message and enqueues it; client, server and result for every outcome of the request: when it fails, session and guards stay |
| `Clients.Client.BuildInitial` | src/client/client.cpp:780-957 | From the bundle on, the object and the message are those of the handshake function |
| `Clients.Client.SendMessage` | src/client/client.cpp:978-1052 | Seals and enqueues; client, server and result for every outcome of the request: when it fails, the session has moved on all the same |
| `Clients.Client.SealMessage` | src/client/client.cpp:985-1041 | The sender's object and message are those of the session function, ratcheting at every tenth message |
| `Clients.Client.HandleChatMessage` | src/client/client.cpp:1803-1860 | The receiver's object and plaintext are those of the session function |
| `Clients.Client.ReceiveOn` | src/client/client.cpp:1819-1858 | Ratchet, counter check, decryption and counter step in the source's order, also when they stop half-way |
| `Clients.Client.GenerateUniqueOneTimePrekeyId` | src/client/client.cpp:1390-1421 | The first draw, of up to 32, that is not zero and in neither pool, and how many draws that took |
| `Clients.Client.RefillOneTimePrekeyPools` | src/client/client.cpp:1348-1388 | Both pools are filled to 16 with new keys after the old ones, with ids distinct across both; it succeeds exactly if they are full, and always if the draws hold an id for every missing key and fewer than 32 others |
| `Clients.Client.RefillEc` | src/client/client.cpp:1349-1367 | The first loop of the refill |
| `Clients.Client.RefillPq` | src/client/client.cpp:1369-1385 | The second loop of the refill |
| `ClientRuns.PlentyFinds` | src/client/client.cpp:1390-1421 | With enough usable draws the search finds an id and leaves enough for the other keys |
| `Clients.Client.HandlePage` | src/client/client.cpp:1082-1110 | Handles a page in order up to the first refusal, shows the plaintexts of exactly the envelopes handled, and reports the id of the last one |
| `Clients.Client.InboxPass` | src/client/client.cpp:1063-1117 | One pass against the server object is one pass of the protocol, with its plaintexts and its failure; the acknowledgement to send and the pending one stay equal |
| `Clients.Client.DrainLoop` | src/client/client.cpp:1061-1118 | The loop of up to 64 passes, with arrivals between and losses in any of them, is a poll of the protocol; it shows the plaintexts of all envelopes handled, in order |
| `Clients.Client.ProcessInbox` | src/client/client.cpp:1054-1152 | The loop, then refill, publication and save: what is left of the inbox, the pools and the dirty flag, and that the result is the plaintexts, or an error exactly if there are none and something failed |
| `Polls.PollKeepsPools` | src/client/client.cpp:1061-1118 | A poll keeps both pools valid, so the refill after it may start |
| `Polls.TextsCount` | src/client/client.cpp:1082-1110 | As many plaintexts are shown as envelopes are handled |
| `Polls.PollShows` | src/client/client.cpp:1061-1118 | The texts of a poll are the plaintexts of exactly the envelopes that it handles, in order |
| `Polls.PollShowsAll` | src/client/client.cpp:1061-1118 | If no request is lost, nothing arrives, no envelope is refused and the passes are enough: no failure, the text of every unhandled envelope, an empty inbox and nothing pending |
| `Polls.PollFailsIff` | src/client/client.cpp:1061-1118 | A poll fails if and only if its last pass lost a request or reply, met a page that cannot be built, or had an envelope refused |
| `Delivery.ExactlyOnce` | src/client/client.cpp:1061-1118 | In every run of arrivals and passes, with requests and replies lost anywhere: what was handled is a prefix of what was enqueued, each once; nothing unhandled is deleted; whatever is handled but not deleted is covered by the pending acknowledgement |
| `Delivery.PassKeepsInv` | src/server/in_memory_server.cpp:516-551 | Each pass, delivered, lost before or lost after the server acted, keeps the invariant behind it |
| `Delivery.PollKeepsInv` | src/client/client.cpp:1061-1118 | A poll keeps the invariant, so polls may be repeated for ever |
| `Delivery.PollEnds` | src/client/client.cpp:1061-1118 | When a poll ends: at the first pass that loses its request or reply, cannot get a page, has an envelope refused or finds the inbox empty, or after the last pass allowed; and if it finds it empty, nothing is left, nothing is pending and everything enqueued has been handled |
| `Delivery.PollGetsAll` | src/client/client.cpp:1061-1118 | A poll over a link that holds, with all envelopes accepted and enough passes for the page size, handles everything and leaves nothing |
| `Delivery.PollPasses` | src/client/client.cpp:1061-1118 | A poll is the first passes of its environment, each but the last with reason to go on |
| `Delivery.GoodPass` | src/client/client.cpp:1063-1117 | A pass over a good link handles a page and goes on exactly if the inbox was not empty |
| `Delivery.PageHolds` | src/server/in_memory_server.cpp:533-550 | A page holds as many envelopes of bounded size as its limits allow, or all there are |
| `Delivery.DropAckedTo` | src/server/in_memory_server.cpp:527-531 | Dropping up to an id that was given out leaves exactly what came after it |
| `Mailbox.PrekeysConserved` | src/server/in_memory_server.cpp:464-506 | Between two publishes, the pairs handed out followed by what remains are the published lists in order, and exactly the smaller pool's size of acquires return a pair |
| `Mailbox.PageBounds` | src/server/in_memory_server.cpp:533-550 | A page is a prefix of the inbox, non-empty if the inbox is, at most 128 items, and within 512 KiB unless it is a single item |
| `Mailbox.PageStops` | src/server/in_memory_server.cpp:533-550 | A page leaves out an item only if it would exceed 128 items or 512 KiB, and there is no page only if an item directly behind ones that fit cannot be encoded |
| `Mailbox.InMemoryServer.PublishBundle` | src/server/in_memory_server.cpp:464-484 | A valid bundle replaces the user's bundle with its keys; an invalid one changes nothing |
| `Mailbox.InMemoryServer.AcquireBundleForSession` | src/server/in_memory_server.cpp:486-506 | Hands out one key of each kind, or none when a pool is empty |
| `Mailbox.InMemoryServer.EnqueueEnvelope` | src/server/in_memory_server.cpp:508-514 | Appends under the user's next id |
| `Mailbox.InMemoryServer.DrainInbox` | src/server/in_memory_server.cpp:516-553 | Drops what is acknowledged, also when the page then cannot be built, and returns the page |
| `Mailbox.InMemoryServer.BuildPage` | src/server/in_memory_server.cpp:533-550 | The page-building loop returns the longest prefix within both limits |
| `StoreRefinement.SqliteRefinesMemory` | src/server/sqlite_store.cpp:1479-1569 | From empty stores, every run of the same calls gets the same answers from tables and from memory, inbox ids replaced by row ids that keep the order of enqueueing; for bundles that are refused anyway or fit their columns, envelopes that survive the codec and sound acknowledgements, each of which is exact by the three equivalences below |
| `StoreRefinement.PublishedAlikeIff` | src/server/sqlite_store.cpp:1091-1292 | A publish is answered alike if and only if the bundle is refused anyway or the NOT NULL columns take its own row and all its key rows |
| `StoreRefinement.DrainedAlikeIff` | src/server/sqlite_store.cpp:1489-1512 | On related stores a drain is answered alike if and only if the acknowledged id was given out or every row id of the user is at most what the id is cast to |
| `StoreRefinement.EnqueuedAlikeIff` | src/server/sqlite_store.cpp:1451-1477 | On related stores an enqueue and the drain that acknowledges all before it are answered alike if and only if the envelope encodes and its encoding decodes to it |
| `StoreRefinement.EmptyKeyDiffers` | src/server/sqlite_store.cpp:448-465 | A bundle with an empty Diffie-Hellman identity key, which no signature check looks at, is taken by memory and refused by the tables |
| `StoreRefinement.StepRelated` | src/server/sqlite_store.cpp:1451-1565 | One call on both stores: the same answer, and stores that are related again |
| `StoreRefinement.LargeAckDiffers` | src/server/sqlite_store.cpp:1501-1503 | On related stores an acknowledgement from 2^63 on, cast to a negative id, is answered alike if and only if the inbox is empty |
| `StoreRefinement.ArrivedIsStored` | src/server/sqlite_store.cpp:1455-1470 | Envelopes that came in through a frame meet the condition |
| `StoreRefinement.FetchLinked` | src/server/sqlite_store.cpp:1515-1560 | The row-fetch loop under its LIMIT builds the page that the in-memory loop builds |
| `StoreRefinement.AckLinked` | src/server/sqlite_store.cpp:1489-1512 | Deleting up to a row id removes what dropping up to its id drops |
| `StoreRefinement.NewestDrained` | src/server/sqlite_store.cpp:1489-1512 | After acknowledging all before it, exactly the newest envelope is left on both sides |
| `StoreRefinement.AcquireStep` | src/server/sqlite_store.cpp:1348-1435 | Selecting and deleting the first row of a user takes the first key and leaves all other users' keys alone |
| `StoreRefinement.PublishStep` | src/server/sqlite_store.cpp:1235-1283 | Publishing a bundle whose rows fit replaces the bundle row and that user's keys and no one else's |
| `StoreRefinement.WithoutFirst` | src/server/sqlite_store.cpp:1399-1435 | Deleting by row id removes exactly one row |
| `StoreRefinement.InsertAllSelect` | src/server/sqlite_store.cpp:1269-1283 | Rows inserted for a user come after those already there, in order |
| `SqliteStore.SqliteServer.PublishBundle` | src/server/sqlite_store.cpp:1091-1292 | One transaction: all rows are replaced, or none when the bundle row or a key row is refused by its columns |
| `SqliteStore.SqliteServer.AcquireBundleForSession` | src/server/sqlite_store.cpp:1294-1449 | One transaction that reads the bundle and the first key row of each kind, and deletes both rows or neither |
| `SqliteStore.SqliteServer.EnqueueEnvelope` | src/server/sqlite_store.cpp:1451-1477 | Inserts the encoding, or fails when there is none |
| `SqliteStore.SqliteServer.DrainInbox` | src/server/sqlite_store.cpp:1479-1569 | A row that does not decode rolls back the whole drain, its acknowledgement included |
| `SqliteStore.SqliteServer.FetchPage` | src/server/sqlite_store.cpp:1536-1560 | The row-fetch loop with its running byte total |
| `Fields.RoundTrip` | src/protocol/serialization.cpp:23-207 | Every list of fields within limits reads back from its encoding, whatever follows |
| `Fields.Canonical` | src/protocol/serialization.cpp:77-207 | Whatever list of fields is read from bytes, writing it gives those bytes, and all of it is within limits |
| `Fields.FieldRoundTrip` | src/protocol/serialization.cpp:23-75 | Reading one written field |
| `Fields.FieldCanonical` | src/protocol/serialization.cpp:77-207 | Writing one field that was read |
| `WireCodec.EnvelopeRoundTrip` | src/protocol/serialization.cpp:422-479 | Decoding an encoded envelope returns it |
| `WireCodec.EnvelopeCanonical` | src/protocol/serialization.cpp:446-479 | Every accepted byte string is the encoding of the envelope it decodes to, and that envelope is within limits |
| `WirePages.BundleRoundTrip` | src/protocol/serialization.cpp:376-420 | Decoding an encoded bundle returns it |
| `WirePages.BundleCanonical` | src/protocol/serialization.cpp:393-420 | Every accepted byte string is the encoding of its bundle |
| `WirePages.EnqueueRoundTrip` | src/protocol/serialization.cpp:616-655 | Round trip of the enqueue request |
| `WirePages.EnqueueCanonical` | src/protocol/serialization.cpp:629-655 | Canonicity of the enqueue request, and its length |
| `WirePages.AuthenticatedRoundTrip` | src/protocol/serialization.cpp:849-872 | Round trip of the payload with a session token |
| `WirePages.AuthenticatedCanonical` | src/protocol/serialization.cpp:857-872 | Canonicity of the payload with a session token, and its length |
| `WirePages.DrainRoundTrip` | src/protocol/serialization.cpp:657-698 | Round trip of the drain request |
| `WirePages.DrainCanonical` | src/protocol/serialization.cpp:668-698 | Canonicity of the drain request |
| `WirePages.ArrivedFits` | src/server/tcp_server.cpp:571-605 | An envelope that came in through a frame, when stored, leaves 48 bytes of a frame free: canonicity makes the stored form as long as the one that arrived |
| `WirePages.PageDelivered` | src/protocol/serialization.cpp:536-592 | From envelopes that came in through frames the server always builds a page, non-empty if the inbox is; it fits a frame even as one oversized item and the client decodes that very page |
| `InboxPages.InboxRoundTrip` | src/protocol/serialization.cpp:536-592 | Decoding an encoded page returns it |
| `InboxPages.InboxCanonical` | src/protocol/serialization.cpp:551-592 | Every accepted page is the encoding of what it decodes to |
| `WirePages.PageCanonical` | src/protocol/serialization.cpp:551-592 | Every accepted page of wire envelopes is the encoding of what it decodes to |
| `WirePages.EnvelopeCodecExact` | src/protocol/serialization.cpp:446-479 | The envelope decoder accepts nothing but encodings |
| `InboxPages.PageFitsFrame` | src/server/in_memory_server.cpp:533-550 | The arithmetic of page limits, per-item overhead and request overhead against the frame limit |
| `InboxPages.FrameRoundTrip` | src/server/tcp_wire.cpp:133-209 | A written frame reads back from any stream it begins, and only payloads up to 1 MiB are written |
| `AuthWire.RegisterRoundTrip` | src/protocol/serialization.cpp:700-731 | Round trip of the register request |
| `AuthWire.RegisterCanonical` | src/protocol/serialization.cpp:711-731 | Canonicity of the register request |
| `AuthWire.BeginRoundTrip` | src/protocol/serialization.cpp:733-758 | Round trip of the login begin request |
| `AuthWire.BeginCanonical` | src/protocol/serialization.cpp:741-758 | Canonicity of the login begin request |
| `AuthWire.BeginReplyRoundTrip` | src/protocol/serialization.cpp:760-787 | Round trip of the login begin response |
| `AuthWire.BeginReplyCanonical` | src/protocol/serialization.cpp:769-787 | Canonicity of the login begin response |
| `AuthWire.FinishRoundTrip` | src/protocol/serialization.cpp:789-820 | Round trip of the login finish request |
| `AuthWire.FinishCanonical` | src/protocol/serialization.cpp:801-820 | Canonicity of the login finish request |
| `AuthWire.FinishReplyRoundTrip` | src/protocol/serialization.cpp:822-847 | Round trip of the login finish response |
| `AuthWire.FinishReplyCanonical` | src/protocol/serialization.cpp:830-847 | Canonicity of the login finish response |
| `AuthWire.StringRoundTrip` | src/protocol/serialization.cpp:594-614 | Round trip of a plain string |
| `AuthWire.StringCanonical` | src/protocol/serialization.cpp:600-614 | Canonicity of a plain string |
| `WireBuffers.Writer.U32` | src/protocol/serialization.cpp:29-34 | Appends one field; the buffer stays the encoding of the fields written |
| `WireBuffers.Writer.U64` | src/protocol/serialization.cpp:36-40 | The shifting loop appends the eight big-endian bytes |
| `WireBuffers.Writer.OptionalBytes` | src/protocol/serialization.cpp:58-63 | Tag, then length and bytes if present |
| `WireBuffers.Writer.OneTimeKeys` | src/protocol/serialization.cpp:316-322 | The loop appends count and keys |
| `WireBuffers.Reader.U64` | src/protocol/serialization.cpp:99-112 | Eight bytes folded in a loop are the 64-bit value, or the message cannot be read |
| `WireBuffers.Reader.Bytes` | src/protocol/serialization.cpp:114-135 | A length within limit and input, then that many bytes, or the message cannot be read |
| `WireBuffers.Reader.OptionalU32` | src/protocol/serialization.cpp:156-176 | A tag of 0 or 1 and the value it announces |
| `WireBuffers.Reader.OneTimeKeys` | src/protocol/serialization.cpp:324-343 | The counted loop reads exactly the key list that the bytes hold, within 4096 |
| `WireBuffers.WriteInitialMessage` | src/protocol/serialization.cpp:236-254 | Appends the twenty fields of an initial message in order |
| `WireBuffers.WriteChatMessage` | src/protocol/serialization.cpp:274-281 | Appends the nine fields of a chat message in order |
| `WireBuffers.EncodeEnvelope` | src/protocol/serialization.cpp:422-444 | The writer's result is the encoding that round trip and canonicity speak of |
| `WireMessages.ReadInitialMessage` | src/protocol/serialization.cpp:256-272 | Reads the twenty fields in order or the bytes are unreadable |
| `WireMessages.ReadChatMessage` | src/protocol/serialization.cpp:283-288 | Reads the nine fields in order or the bytes are unreadable |
| `WireMessages.DecodeEnvelope` | src/protocol/serialization.cpp:446-479 | The reader's result is the decoding that round trip and canonicity speak of |
| `WireMessages.EncodeInbox` | src/protocol/serialization.cpp:536-549 | The page-writing loop produces that encoding |
| `WireMessages.DecodeInbox` | src/protocol/serialization.cpp:551-592 | The page-reading loop produces that decoding |
| `Frames.WriteFrame` | src/server/tcp_wire.cpp:133-155 | Sends exactly one frame however the socket cuts it; nothing when it is too large, and its beginning when sending fails on the way |
| `Frames.ReadFrame` | src/server/tcp_wire.cpp:183-209 | Returns exactly the next frame however the bytes arrive; reports the end of the stream if and only if the peer closed in order and the rest is empty or just a header with a payload to come; else an error |
| `Frames.EofInsideFrame` | include/pqchat/server/tcp_wire.h:31-36 | The header file promises the end of the stream only for a close before a frame; the code keeps that exactly when the stream does not stop right behind a header that announces a payload |
| `Frames.ReadExact` | src/server/tcp_wire.cpp:29-50 | Fills the buffer with the next bytes if and only if that many come; the end of the stream is told from a break by whether anything had come |
| `Frames.WriteExact` | src/server/tcp_wire.cpp:52-65 | Sends all bytes in order however many are taken at a time, or as many as go out before sending fails |
| `SignInputs.EncodeInjective` | src/protocol/messages.cpp:48-112 | Unambiguous encodings: transcript, chat data, safety number, both prekeys, bundle, register, rotate and login inputs with equal encodings are equal, across all kinds |
| `SignInputs.TagsDiffer` | src/protocol/prekey_bundle.cpp:42-73 | The tags of the nine kinds are pairwise different |
| `SignInputs.SameTranscriptTail` | src/protocol/messages.cpp:66-84 | The optional fields of a transcript can be told apart although their presence shifts what follows |
| `SignInputs.BuildTransportAuthSignInput` | src/protocol/transport_auth.cpp:30-44 | Appends exactly the login input |
| `SignInputs.BuildTransportRegisterSignInput` | src/protocol/transport_auth.cpp:46-54 | Appends exactly the register input |
| `SignInputs.BuildTransportRegisterRotateSignInput` | src/protocol/transport_auth.cpp:56-66 | Appends exactly the rotate input |
| `SignInputs.BuildChatAssociatedData` | src/protocol/messages.cpp:95-112 | Appends exactly the chat data |
| `SignInputs.TranscriptInput` | src/protocol/messages.cpp:48-93 | Appends exactly the transcript, or fails on another version or suite |
| `AuthRuns.LiveSessionBinding` | src/server/in_memory_server.cpp:240-290 | In every reachable state, a token that authenticates was issued on a login signature that verifies under the key its user has registered now, through registration, rotation, recovery, login, expiry and revocation in any order |
| `AuthRuns.LiveSessionsBound` | src/server/in_memory_server.cpp:337-420 | The same of every stored session, kept by every run |
| `AuthRuns.OneSessionPerChallenge` | src/server/in_memory_server.cpp:374-417 | In every run with fresh challenge ids no two sessions come from one challenge |
| `AuthRuns.FinishConsumes` | src/server/in_memory_server.cpp:374-417 | Exactly which attempts use up a challenge, whether or not the signature verifies, and exactly which of them issue a session |
| `AuthRuns.SpentForever` | src/server/in_memory_server.cpp:374-392 | After an attempt has used up a challenge, every later finish on it fails, in every run |
| `AuthRuns.FirstAttemptSpends` | src/server/in_memory_server.cpp:374-392 | The first matching unexpired attempt spends the challenge |
| `AuthRuns.CleanupInvisible` | src/server/in_memory_server.cpp:158-190 | Under a clock that never goes back, cleanup at any points of a run changes no answer to a registration, a login or a token check |
| `AuthRuns.CleanupTwice` | src/server/in_memory_server.cpp:158-190 | Cleaning up earlier makes no difference to cleaning up later |
| `AuthRuns.RegisterCommutes` | src/server/in_memory_server.cpp:240-290 | Registration and cleanup may be exchanged |
| `AuthKeys.KeyProvenance` | src/server/in_memory_server.cpp:210-290 | Over every run from an empty server, a user's key is the end of a chain of registrations of that run, each with a proof under its own key and authorised by the key before it: a rotation signature under that key or a provisioning token; the first, where a token is required, by the token |
| `AuthKeys.KeyHistory` | src/server/in_memory_server.cpp:256-276 | The same from any state: a key changes by authorised registrations only, one after the other |
| `AuthKeys.RegisterIff` | src/server/in_memory_server.cpp:210-290 | A registration is accepted if and only if its sizes are right and the registered key authorises it; then its key is registered, a replaced key leaves no session of the user, and nothing else changes |
| `AuthKeys.RowKeyHistory` | src/server/sqlite_store.cpp:566-654 | Key provenance over every run on the tables |
| `AuthKeys.RegisterRowIff` | src/server/sqlite_store.cpp:566-654 | The same condition on the tables; a replaced key leaves no unrevoked row of the user and touches no other |
| `AuthKeys.LoginWorks` | src/server/in_memory_server.cpp:292-443 | A challenge answered within 60 seconds under the registered key gives a session whose token authenticates the user for 900 seconds and not longer |
| `AuthKeys.SessionEnds` | src/server/in_memory_server.cpp:422-462 | A revoked token, or one whose user's key has been replaced, authenticates nobody; any other registration leaves it as it was |
| `AuthKeys.AuthenticateIff` | src/server/in_memory_server.cpp:422-443 | A token authenticates exactly the user of its stored session until that expires |
| `AuthKeys.CleanupIff` | src/server/in_memory_server.cpp:158-190 | Cleanup leaves exactly the unused unexpired challenges and the unexpired sessions |
| `AuthLimits.AttemptsLimited` | src/server/in_memory_server.cpp:192-208 | In every run with times in order, each login begin and each finish is decided as counting all recorded attempts of its user would, and no 60 seconds hold more than 30 of them |
| `AuthLimits.StepTracks` | src/server/in_memory_server.cpp:175-208 | Any event, limited or not, keeps a user's bucket in step with the full log |
| `AuthServer.Server.CleanupAuthState` | src/server/in_memory_server.cpp:158-190 | The erasing and trimming loops leave exactly what is live |
| `AuthServer.Server.RegisterTransportIdentity` | src/server/in_memory_server.cpp:210-290 | All checks in order; a replaced key revokes all sessions of its user |
| `AuthServer.Server.BeginTransportAuthentication` | src/server/in_memory_server.cpp:292-335 | Cleanup, checks, rate limit, then a challenge for 60 seconds |
| `AuthServer.Server.FinishTransportAuthentication` | src/server/in_memory_server.cpp:337-420 | Cleanup, checks, rate limit, the challenge is used up before the signature is looked at, then a session for 900 seconds |
| `AuthServer.Server.AuthenticateSessionToken` | src/server/in_memory_server.cpp:422-443 | The user of an unexpired session |
| `AuthServer.Server.RevokeSessionToken` | src/server/in_memory_server.cpp:445-462 | Removes exactly that session |
| `AuthServer.IsValidChallengeId` | src/server/in_memory_server.cpp:62-74 | Accepts exactly 32 hexadecimal digits |
| `UserIds.IsValidUserId` | src/server/in_memory_server.cpp:33-47 | Accepts exactly 1 to 64 characters of the allowed set |
| `SqliteAuth.SqliteAuthRefines` | src/server/sqlite_store.cpp:518-979 | In every run with times in order and random values that are not in the tables, the SQLite store answers registrations, logins and token checks as the in-memory server does; and all its answers are the same if and only if the run never revokes a row that is revoked already |
| `SqliteAuth.RunsShow` | src/server/sqlite_store.cpp:1040-1086 | That equivalence from any pair of states in which the tables show the in-memory state |
| `SqliteAuth.SqliteSessionBinding` | src/server/sqlite_store.cpp:566-654 | A token that authenticates against the tables was issued on a login signature that verifies under the key its account has now |
| `SqliteAuth.RowStepView` | src/server/sqlite_store.cpp:328-357 | One event on the tables: the in-memory answer on what the tables show, and tables that show the next in-memory state but for trimming |
| `SqliteAuth.RegisterView` | src/server/sqlite_store.cpp:566-654 | Marking all rows of a user as revoked shows what erasing the user's sessions shows |
| `SqliteAuth.FinishView` | src/server/sqlite_store.cpp:789-979 | Committing the used mark before the signature check, and inserting a session row, show what the in-memory finish does |
| `SqliteAuth.RevokeView` | src/server/sqlite_store.cpp:1040-1086 | Marking a row as revoked shows what erasing the session shows |
| `SqliteAuth.RevokeAlikeIff` | src/server/sqlite_store.cpp:1040-1086 | After every run, the two stores answer the next revocation alike if and only if it does not name a row that is revoked already |
| `SqliteAuth.SqliteAccounts.CleanupAuthState` | src/server/sqlite_store.cpp:328-357 | Deletes used or expired challenges and expired sessions, revoked or not, and no counters |
| `SqliteAuth.SqliteAccounts.RegisterTransportIdentity` | src/server/sqlite_store.cpp:518-693 | A replaced key and the revocation of all its user's rows happen together or not at all |
| `SqliteAuth.SqliteAccounts.BeginTransportAuthentication` | src/server/sqlite_store.cpp:695-787 | Inserting a challenge fails if its id is there already |
| `SqliteAuth.SqliteAccounts.FinishTransportAuthentication` | src/server/sqlite_store.cpp:789-984 | The challenge stays used whatever fails after the commit of its mark |
| `SqliteAuth.SqliteAccounts.AuthenticateSessionToken` | src/server/sqlite_store.cpp:986-1038 | The user of a row that is neither revoked nor expired |
| `SqliteAuth.SqliteAccounts.RevokeSessionToken` | src/server/sqlite_store.cpp:1040-1086 | Marks the row; revoking again succeeds again |
| `PreAuthGate.SlidingWindows` | src/server/tcp_server.cpp:253-377 | For every run with a clock that never goes back and does not overflow, the trimmed buckets decide each attempt as counting full logs of recorded attempts would, and no window of any log, per address, per address and user or global, ever holds more than its limit |
| `LoginGate.LoginsLimited` | src/server/tcp_server.cpp:379-475 | Over every interleaving of the steps of all connections, with times in order: no window lets more requests of a login command through than its limit for an address, for an address and user, or for all |
| `LoginGate.GateFollows` | src/server/tcp_server.cpp:379-475 | Only these checks touch the counters, and they decide whether a connection goes on with its request |
| `PreAuthGate.TrimInvisible` | src/server/tcp_server.cpp:266-281 | Trimming all buckets and dropping empty ones changes nothing that is decided |
| `PreAuthGate.PairNameInjective` | src/server/tcp_server.cpp:341-341 | Joined by the separator, different pairs of address and valid user have different bucket names |
| `PreAuthGate.AttemptTracks` | src/server/tcp_server.cpp:44-55 | One check on one bucket decides as its log does and leaves all other buckets alone |
| `PreAuthGate.TcpGate.EnforcePreAuthRateLimit` | src/server/tcp_server.cpp:253-327 | Trims every bucket, then checks the address and the global limit of the command; an attempt that the global limit refuses stays recorded for its address |
| `PreAuthGate.TcpGate.EnforcePreAuthUserRateLimit` | src/server/tcp_server.cpp:329-377 | Trims every bucket, then checks the limit of address and user |
| `RateLimits.NoWindowExceeds` | src/server/in_memory_server.cpp:192-208 | If each attempt was recorded with fewer than the limit before it in its window, no window anywhere holds more than the limit |
| `RateLimits.CheckTracks` | src/server/in_memory_server.cpp:192-208 | The trimmed bucket decides as counting the log does, and goes on tracking it |
| `RateLimits.TrimCounts` | src/server/tcp_server.cpp:38-42 | What trimming leaves of an ordered log is exactly what counts |
| `RateLimits.TrimWindow` | src/server/tcp_server.cpp:38-42 | The popping loop removes exactly the attempts at the front that have left the window |
| `RateLimits.CheckAndRecord` | src/server/tcp_server.cpp:44-55 | Trims, compares with the limit and records |
| `RateLimits.TrimMap` | src/server/in_memory_server.cpp:175-189 | The loop over a map trims every bucket and erases the empty ones |
| `Connections.Provenance` | src/server/tcp_server.cpp:491-605 | Over every interleaving of the steps of all connections, each inbox entry was put there by a request whose own token was checked to stand for the envelope's sender and that named the inbox's user, and each stored bundle was published in a request checked for its own user |
| `Connections.SendersSigned` | src/server/tcp_server.cpp:491-605 | End to end over every interleaving: the token of the request that brought an inbox entry was issued on a login signature of the entry's sender |
| `Connections.OnlyOwnerRemoves` | src/server/tcp_server.cpp:617-630 | In every reachable state, a step that removes an entry from an inbox belongs to a drain that was checked for the inbox's owner |
| `Connections.EventMail` | src/server/tcp_server.cpp:491-647 | What one step of one connection may do to one user's mail, whatever happened since its token was checked |
| `Connections.CheckedMail` | src/server/tcp_server.cpp:520-647 | The mailbox call of each command, for the user that was checked |
| `Connections.StepLogged` | src/server/tcp_server.cpp:491-502 | A connection that goes on behind the check has had its token checked for that user |
| `Connections.DrainReplyFits` | src/server/tcp_server.cpp:617-645 | In every state reachable by interleaved steps, the owner's next drain yields a page whose encoding fits a frame and decodes to it |
| `Connections.DrainStepReplies` | src/server/tcp_server.cpp:617-645 | The step of a checked drain replies with that page |
| `Connections.RunIds` | src/server/in_memory_server.cpp:508-514 | No inbox id exceeds the number of steps taken |
| `Connections.HandledAlone` | src/server/tcp_server.cpp:380-647 | A request that no other connection comes between is handled in these steps as the straight dispatch says |
| `Commands.StoredBundles` | src/protocol/prekey_bundle.cpp:75-140 | Over every interleaving: each stored bundle is what some number of acquires left of one that its user published in a checked request, and the identity's two keys it shows have each signed both prekeys and the whole; ids in every inbox go up |
| `Commands.AcquireReplies` | src/server/tcp_server.cpp:544-569 | Over every interleaving: an acquire is answered by bytes that read as the very bundle its user published with the next pair of one-time keys, or none once a kind has run out, and that pair is gone afterwards |
| `Commands.PublishIff` | src/server/tcp_server.cpp:520-542 | A bundle is stored, with all its one-time keys, if and only if it reads, names the checked user and carries the six signatures; nothing else changes |
| `Commands.AcquireIff` | src/server/tcp_server.cpp:544-569 | What an acquire replies and leaves |
| `Commands.EnqueueIff` | src/server/tcp_server.cpp:571-615 | An envelope is put at the end of its recipient's inbox if and only if the request reads and names the checked user as sender and its own user as recipient; nothing else changes |
| `Commands.DrainIff` | src/server/tcp_server.cpp:617-645 | A drain is refused unless it names the checked user; else exactly the acknowledged items leave that inbox and the reply is the page of the rest |
| `Commands.CommandKeepsOrder` | src/server/in_memory_server.cpp:508-531 | Ids go up in every inbox, whatever command comes |
| `Commands.RegisterReply` | src/server/tcp_server.cpp:409-431 | A registration is answered if and only if the registered key authorises it |
| `Commands.BeginReply` | src/server/tcp_server.cpp:433-460 | A challenge reads as the one that was stored |
| `Commands.FinishReply` | src/server/tcp_server.cpp:462-489 | A login is answered if and only if it uses up its challenge under a signature of the registered key; the reply reads as the token of the session it opens |
| `Commands.CheckedIff` | src/server/tcp_server.cpp:491-502 | A request gets behind the check as a user if and only if its token stands for that user and has not expired |
| `Commands.LogoutReply` | src/server/tcp_server.cpp:505-518 | A logout is answered if and only if its token had a session, and the token is good for nothing after |
| `TcpServer.Server.HandleFrame` | src/server/tcp_server.cpp:380-647 | The straight dispatch over the three server objects, for a request that nothing comes between |
| `TcpServer.Server.Step` | src/server/tcp_server.cpp:380-647 | One call of one connection under its mutex; server, connections and reply are those of the step function |
| `TcpServer.Server.Serve` | src/server/tcp_server.cpp:379-647 | The steps of all connections in any order: state and replies are those of the run |
| `DurableState.DurableRoundTrip` | src/client/client.cpp:1452-1553 | For every reachable client, its saved form, all keys, pools, pins, sessions, pending acknowledgement and replay guards in bytes, loads again if it fits the file; the loader's count limits follow from the client's invariants |
| `DurableState.LoadedIsSaved` | src/client/client.cpp:1571-1800 | What is loaded is the saved form of no other client: every field of the client and the pending acknowledgement are the same again |
| `DurableState.SavedTells` | src/client/client.cpp:1452-1553 | Different clients have different saved forms, as keys and hashes have different bytes |
| `DurableState.SavedLoads` | src/client/client.cpp:1571-1800 | The same of any state within the loader's limits, for every order in which the maps are written |
| `StateFile.SectionsRoundTrip` | src/client/client.cpp:1571-1800 | Fixed fields and counted records read back from their encoding |
| `StateFile.SectionsSmall` | src/client/client.cpp:58-61 | A payload below 2^32 bytes has no byte string whose length was cut by the 32-bit cast |
| `DurableState.MapRebuilt` | src/client/client.cpp:1713-1728 | Entries put back one by one rebuild the map |
| `StateBuffers.SaveLocalState` | src/client/client.cpp:1452-1553 | The writing loops produce that payload, or fail on too many peers or sessions |
| `StateBuffers.LoadLocalState` | src/client/client.cpp:1571-1800 | The reading loops produce that state, or fail |

## Left out

- Cryptographic primitives: the wrappers around OpenSSL are ideal terms, so key sizes, hash collisions and forged signatures do not occur.
- Error texts and the difference between errors: apart from the end of a stream, every failure is `None` or `false`.
- Clients.Client.ProcessInbox: that publication and save succeed are parameters; the bundle that is republished is not built from the pools.
- Clients.Client.InitiateSession: reading what the server hands out as a bundle, its signature checks included, is a parameter.
- Delivery.ExactlyOnce: safety only; an envelope that is always refused stops the inbox behind it, as in the source. What a poll gets done is stated by `Delivery.PollEnds` and `Polls.PollShowsAll`.
- ClientKeys.EveryKeyOnce: for keys on the network that somebody has generated already, as unguessable keys are.
- Conversations.ConversationArrives: that a client sends is one step with its arrival in the inbox; loss on the way is the subject of `Clients.Client.SendMessage`.
- Crashes and restarts: sends are enqueued before the state is saved, so all statements about sessions and inboxes are about runs of one process.
- DurableState.DurableRoundTrip: that an exported private key loads again is a parameter.
- StateBuffers.LoadLocalState: a load that fails half-way leaves the source's object partly filled; the only caller gives that object up (`src/client/client.cpp:576-590`), and the model returns no state.
- State file handling: passphrase, key derivation, encryption of the payload, temporary file, rename and permissions.
- SQLite: statement preparation, binding and step errors, schema migration and the audit log. The keyed hash of a token is taken to be one-to-one, and one clock value stands for both looks at the clock in a finish.
- StoreRefinement.SqliteRefinesMemory: row ids are assumed not to run out, that is, at most 2^63 calls.
- SqliteAuth.SqliteAuthRefines: for times below 2^63, where the casts to the store's signed columns change nothing.
- AuthRuns.CleanupInvisible: says nothing of the answer to a revocation, which tells an expired session that is still stored from one that is gone.
- Sessions are keyed by their token where the source uses its hexadecimal form, and the hexadecimal decoding of provisioning tokens is part of the token check that is a parameter.
- PreAuthGate.SlidingWindows: the clock is read before the mutex is taken, so two threads may record times out of order by a moment; the statement is for times in order.
- Connections.DrainReplyFits: for fewer than 2^64 steps, as inbox ids are 64 bits wide.
- SessionTails.PrefixIff: the two sides' ratchet keys are different at the start, as generated keys are.
- Sockets, TLS, certificate pinning, threads, the accept loop, interrupted system calls, and the client's network adapter.
- The plain envelope vector (`src/protocol/serialization.cpp:481-534`), a format like the inbox page without ids.
- Command line programs, demos and argument parsing.
- Wiping of secret buffers and constant-time comparison.
