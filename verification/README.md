# Azerust, verified

Azerust is an auth and a world server for version 3.3.5 of World of Warcraft. This project models the five parts of it
that carry real protocol logic and proves what they promise, for every input, every run and every interleaving of their
tasks.

* **Login** (`Bytes`, `Modular`, `Srp`, `SrpAgreement`): the SRP-6 variant of sections 2.5 and 2.6 of RFC 5054 and
  section 3 of RFC 2945, with k = 3 and little-endian integers, over the real modulus. An honest client is written from
  the RFCs and shown to agree with the server byte for byte.
* **Auth conversation** (`AuthPackets`, `AuthLanguage`, `AuthServer`, `AuthConversation`, `AuthLogin`): packet layouts,
  the connection loop on a byte stream, the exact language of conversations, and login inside a conversation.
* **World connection** (`Parsing`, `HeaderEncryption`, `WorldPackets`, `WorldFrames`, `WorldChannel`, `GameClient`,
  `WorldLogin`): RC4 header encryption, the frame loop, the addon parser, the writer, and both ends of a link in step. A
  game client with opcodes, keys and codes of its own says what every packet and every reply must look like.
* **World tasks and characters** (`WorldSessions`, `WorldReplies`, `WorldRuns`, `WorldTasks`, `WorldHandler`,
  `CharacterList`, `Characters`): the accepting and the handling task in every interleaving, replies included; the same
  loops as code, from the bytes a client sends to the bytes it is sent; the packet handler, and the character table behind
  it.
* **Realm state** (`Heartbeat`, `RealmCache`): heartbeats and the status table; the cached realm list.

Code that changes state step by step is a method or a class proved against a specification function; concurrent tasks
are transition systems whose steps are the points between which a task can be suspended. `dafny verify dfyconfig.toml`
checks everything.

What the code calls but does not define is a parameter: SHA-1 and HMAC (any function to 20 bytes), inflation, UTF-8
validity, the opcode table, the account and realm services (which may answer differently each turn), the clock, random
numbers, and whether a database statement or a socket write succeeds. A panic is a value (`Panicked`, `Abort`, `Crashed`),
never a precondition. Arithmetic that overflows is a panic, as in a build with overflow checks.

Properties that do not hold as one might state them are given with their exact condition and, where that helps, a
concrete input that breaks them: the 32-byte conversions (`HonestLogin`, `SetUpExact`, `ToArrayExact`; an honest login that
panics is `HonestLoginMayPanic`), the 16-bit realm-list size (`RealmListSizeExact`), server packet sizes
(`ServerHeaderExact`, `StreamRoundTrip`, and `GreetingReadable` for clients that announce more than 8191 addons), reading
a session's stream when writes may fail (`WireOrder`), handling everything that is queued (`EverythingHandled`; a list of
240 characters that kills the handling task is `HandlingMayPanic`), character lists of more than 255 rows
(`ListRoundTrip`), overlapping realm-list refreshes (`TimelinessExact`, `OverlapBreaksBound`), a client id drawn twice
(`OwnSessionAnswers`, `ReusedIdMisdirects`), realm ids above 255 (`HighRealmNeverFlagged`, `BeatHeard`), and status flags
when updates may fail (`FlagExact`, `FailedUpdateIsNotRepeated`).

## Model

| member | source | states |
|---|---|---|
| `Bytes.MinimalRoundTrip` | crates/wow-srp/src/lib.rs:60-64 | decoding the minimal little-endian bytes of any natural gives it back |
| `Bytes.MinimalLength` | crates/wow-srp/src/lib.rs:241-248 | the minimal encoding has exactly the length the number's size demands, and at least one byte |
| `Bytes.ToArrayExact` | crates/wow-srp/src/lib.rs:82-87 | conversion to a fixed width succeeds exactly for numbers in [256^(width-1), 256^width), and then decodes back |
| `Bytes.BigEndianIsReversedLittleEndian` | crates/wow-srp/src/lib.rs:189-191 | big-endian decoding is little-endian decoding of the reversed bytes |
| `Bytes.XorBit` | crates/wow-srp/src/lib.rs:216-219 | the exclusive or of two bytes has a bit set exactly where the two differ, and is a byte |
| `Modular.ServerPower` | crates/wow-srp/src/lib.rs:205-205 | (g^a · (g^x)^u)^b mod n is g^((a+ux)b) mod n for every modulus and exponents |
| `Modular.ClientPower` | crates/wow-srp/src/lib.rs:242-248 | removing the blinding from (g^b + kv) mod n and raising to a+ux gives that same power |
| `Srp.ToArray32Exact` | crates/wow-srp/src/lib.rs:207-213 | the 32-byte conversions return exactly on [256^31, 256^32) |
| `Srp.SplitThenStrip` | crates/wow-srp/src/lib.rs:252-269 | splitting 32 bytes and skipping the same prefix of both halves equals dropping leading zeros, one more byte if the rest is odd, then splitting; all zeros included |
| `Srp.InterleaveExact` | crates/wow-srp/src/lib.rs:252-277 | the session key takes its bytes in turn from the digests of the even and the odd bytes of the secret without its leading zeros, one more byte dropped if an odd number is left |
| `Srp.DeriveSessionKey` | crates/wow-srp/src/lib.rs:252-277 | the array loops compute SHA_Interleave of section 3.1 of RFC 2945, with every index in range |
| `Srp.VerifyChallengeResponse` | crates/wow-srp/src/lib.rs:184-237 | the method answers what the specification answers, panics included; what that answer is, `SrpAgreement.AcceptExact` says |
| `SrpAgreement.GeneratorIsUnit` | crates/wow-srp/src/lib.rs:33-38 | 7 has an inverse modulo N |
| `SrpAgreement.SecretsAgree` | crates/wow-srp/src/lib.rs:197-205 | client and server formula for the shared secret are one power of the generator |
| `SrpAgreement.PublicNumbers` | crates/wow-srp/src/lib.rs:126-136 | the server's stored numbers in terms of the client's secrets |
| `SrpAgreement.PremasterAgreement` | crates/wow-srp/src/lib.rs:184-205 | an honest client computes the server's premaster secret |
| `SrpAgreement.HonestValuesNonzero` | crates/wow-srp/src/lib.rs:193-205 | verifier, A and premaster of an honest run are never 0 mod N, so the zero check never rejects an honest client |
| `SrpAgreement.HonestLogin` | crates/game/src/accounts.rs:88-103 | an honest M1 is accepted with the client's own key and expected M2 exactly when the secret fills 32 bytes, and panics otherwise |
| `SrpAgreement.AcceptExact` | crates/game/src/accounts.rs:88-103 | for every server, A and M1: accepted exactly when A is not 0 mod N, the secret fills 32 bytes and M1 is the digest of section 3 of RFC 2945 over its interleaved key; a panic exactly when the secret is too short; IncorrectPassword in every other case |
| `SrpAgreement.HonestLoginMayPanic` | crates/wow-srp/src/lib.rs:207-213 | an honest client whose set-up succeeds and whose correct proof makes the server panic: the other case of the theorem is real |
| `SrpAgreement.SetUpExact` | crates/wow-srp/src/lib.rs:68-88 | registration and challenge set-up return exactly when verifier and B fill 32 bytes |
| `SrpAgreement.HonestReconnect` | crates/game/src/accounts.rs:122-139 | after an honest login the client's answer to any reconnect challenge is accepted |
| `SrpAgreement.HonestLoginExists` | crates/wow-srp/src/lib.rs:110-136 | a concrete login meets every condition of these theorems, so none of them is empty |
| `HeaderEncryption.SchedulePermutes` | crates/protocol/src/header_crypto.rs:20-30 | RC4 key scheduling leaves a permutation |
| `HeaderEncryption.AlwaysPermutation` | crates/protocol/src/header_crypto.rs:19-47 | for every key and any number of bytes the RC4 table is a permutation |
| `HeaderEncryption.NextIsReversible` | crates/protocol/src/header_crypto.rs:41-47 | an RC4 step can be undone |
| `HeaderEncryption.AdvanceInjective` | crates/protocol/src/header_crypto.rs:41-47 | generators that agree after n bytes agreed at the start: desynchronised streams never merge |
| `HeaderEncryption.MaskCancels` | crates/protocol/src/header_crypto.rs:41-47 | the same keystream position decrypts what it encrypted |
| `HeaderEncryption.KeystreamExact` | crates/protocol/src/header_crypto.rs:19-47 | the keystream is that of RC4 written out round by round: the key mixed in over 256 swaps, then one swap and one lookup per byte |
| `HeaderEncryption.MaskDigit` | crates/protocol/src/header_crypto.rs:41-47 | a masked byte differs from the plain one in exactly the bits set in the keystream byte at its position |
| `HeaderEncryption.ProcessInPlace` | crates/protocol/src/header_crypto.rs:32-47 | overwriting a buffer byte by byte flips exactly the bits the keystream has set at the current position and moves on by its length |
| `HeaderEncryption.HeaderCrypto.constructor` | crates/protocol/src/header_crypto.rs:19-39 | both streams start 1024 bytes into the keystreams of their own keys |
| `HeaderEncryption.HeaderCrypto.Encrypt` | crates/protocol/src/header_crypto.rs:41-43 | masks four bytes in place, moves the encrypt stream by four, leaves the other alone |
| `HeaderEncryption.HeaderCrypto.Decrypt` | crates/protocol/src/header_crypto.rs:45-47 | masks six bytes in place, moves the decrypt stream by six, leaves the other alone |
| `WorldPackets.ReadRecord` | services/world/src/protocol/mod.rs:111-127 | one turn of the addon loop, with its three ways to fail |
| `WorldPackets.ReadAddons` | services/world/src/protocol/mod.rs:108-128 | the cursor loop yields the records of the block in order or the first failure |
| `WorldPackets.ReadPacket` | services/world/src/protocol/mod.rs:63-198 | the method decodes as the specification does; what that makes of every packet, `GameClient.CommandRead`, `GameClient.OtherwiseRefused` and `WorldPackets.OpeningFails` say |
| `WorldPackets.AddonsAfter` | services/world/src/protocol/mod.rs:108-128 | after i addons the cursor is 4 + Σ(len(name)+10) and exactly those i have been read |
| `WorldPackets.BlockRoundTrip` | services/world/src/protocol/mod.rs:94-129 | an encoded addon list is read back whole and the final cursor is the end of the block |
| `WorldPackets.AuthSessionRoundTrip` | services/world/src/protocol/mod.rs:65-143 | every session with NUL-free UTF-8 names survives encoding and parsing field by field; the split falls 49 bytes after the first NUL |
| `WorldPackets.RecordFails` | services/world/src/protocol/mod.rs:111-127 | an addon record without a terminated name, with a name that is not UTF-8 or with fewer than nine bytes after it fails, each in its own way |
| `WorldPackets.AddonsStop` | services/world/src/protocol/mod.rs:108-128 | the first record that fails decides how the whole list fails |
| `WorldPackets.OpeningFails` | services/world/src/protocol/mod.rs:65-143 | an opening whose fields or list are cut short, do not inflate or hold a bad record is refused or panics as the parser does |
| `WorldPackets.NamelessOpening` | services/world/src/protocol/mod.rs:65-92 | an opening whose name never ends is an error |
| `WorldFrames.DecryptHeader` | services/world/src/protocol/mod.rs:32-39 | a header passes through the decrypt stream exactly when there is a session |
| `WorldFrames.ReadFrame` | services/world/src/protocol/mod.rs:41-57 | one turn of the loop after decryption, with its error and panic cases |
| `WorldFrames.ReadPackets` | services/world/src/protocol/mod.rs:17-61 | the loop terminates, returns what the frame specification returns, leaves the decrypt stream where that says and never returns an empty batch |
| `WorldFrames.FramesRoundTrip` | services/world/src/protocol/mod.rs:21-60 | any list of plain or encrypted frames comes back as its packets in order, nothing left, six keystream bytes per header |
| `WorldFrames.NoHeader` | services/world/src/protocol/mod.rs:21-39 | fewer than six bytes left over panic and leave the keystream where it was |
| `WorldFrames.FirstFrame` | services/world/src/protocol/mod.rs:32-57 | the first frame of any buffer: its size and opcode taken from the decrypted header, unknown opcodes refused, short sizes and short buffers a panic, six keystream bytes gone in every case |
| `WorldFrames.FramesThen` | services/world/src/protocol/mod.rs:21-60 | after any good frames the rest of a read decides: its packets follow theirs, or its failure is that of the whole read |
| `WorldFrames.ServerHeaderExact` | services/world/src/world/session.rs:246-251 | the header announces the true length exactly for bodies up to 65533 bytes |
| `WorldFrames.GreetingFits` | services/world/src/world/session.rs:114-124 | the greeting never overflows a header, and fits its headers exactly for at most 8191 addons |
| `WorldFrames.StreamRoundTrip` | services/world/src/world/session.rs:246-264 | a client in step recovers exactly the messages written if and only if every body fits its 16-bit size |
| `WorldFrames.StreamAppend` | services/world/src/world/session.rs:246-264 | writing one more message extends the stream by its frame at the next position |
| `WorldFrames.Session.constructor` | services/world/src/world/session.rs:47-65 | a new session has written nothing and stands at 1024 in both streams |
| `WorldFrames.Session.WritePacket` | services/world/src/world/session.rs:246-264 | one write of the masked header and the body and four keystream bytes; a failed write moves the keystream all the same; an overflowing size panics and touches nothing |
| `WorldFrames.Session.WriteAll` | services/world/src/world/session.rs:246-264 | any run of packets goes out as exactly the encrypted frames of those before the first failing write or overflowing header, and says which it was |
| `WorldFrames.Session.Finalize` | services/world/src/world/session.rs:237-244 | the greeting never panics; all four frames go out and the stream moves by sixteen, or it stops at the failing write |
| `WorldFrames.GreetingReadable` | services/world/src/world/session.rs:237-244 | the client reads its greeting back exactly when it announced at most 8191 addons |
| `WorldFrames.RunInStep` | services/world/src/protocol/mod.rs:31-58 | every exchange keeps both ends in step |
| `WorldFrames.AlwaysInStep` | services/world/src/world/session.rs:246-272 | over any interleaving of n sends and m received frames the server stands at 1024+4n and 1024+6m, the client with it, and both ends have recovered everything |
| `WorldChannel.EncryptInOrder` | services/world/src/world/session.rs:253-255 | encrypting a header keeps the wire in keystream order with that frame outstanding |
| `WorldChannel.WriteInOrder` | services/world/src/world/session.rs:256-263 | writing the outstanding frame keeps the wire in keystream order |
| `WorldChannel.FailInOrder` | services/world/src/world/session.rs:260-260 | a failed write leaves a gap, never a reordering |
| `WorldChannel.LayoutReadBack` | services/world/src/world/session.rs:246-264 | wherever in the keystream the headers of a stream were encrypted, a client reads back exactly what was sent if and only if every body fits and every header was encrypted with the bytes the client decrypts it with |
| `GameClient.CommandRead` | services/world/src/protocol/mod.rs:145-196 | every packet a client lays out arrives as itself, field by field; a realm split always as realm 1 |
| `GameClient.CommandsRead` | services/world/src/protocol/mod.rs:17-61 | a run of commands decodes to exactly its packets, in order |
| `GameClient.OtherwiseRefused` | services/world/src/protocol/mod.rs:145-198 | bodies of the wrong length, unterminated names and opcodes nobody handles are errors; exactly the nine unfinished opcodes panic |
| `GameClient.NewcomerRefused` | services/world/src/protocol/mod.rs:152-180 | a character whose name is not UTF-8 or is not followed by nine bytes is an error |
| `GameClient.OpeningRead` | services/world/src/protocol/mod.rs:17-61 | the opening frame of a client, in the clear, is read as the auth session it encodes, addons included |
| `GameClient.GreetingHeard` | services/world/src/world/session.rs:98-131 | a client hears from the greeting that it is admitted to the second expansion, which of its addons are standard, and nothing cached or seen |
| `GameClient.CreationHeard` | services/world/src/world/world.rs:157-224 | what a creation is answered with: 50, 88, 89, 90, 47 or nothing, each in exactly its own case |
| `GameClient.CreationStores` | services/world/src/world/world.rs:187-224 | a creation answered with 47, and no other, stores a character of level one in the starting place |
| `GameClient.DeletionHeard` | services/world/src/world/world.rs:233-254 | a deletion is answered with 71 or 72 as the row was there or not, and not at all for an id that is no player's |
| `GameClient.AnswerHeard` | services/world/src/world/world.rs:106-257 | what a client hears in answer to every other packet: its ping back, the realm it asked for, the account-data times, its list, or nothing |
| `WorldLogin.EntryExact` | services/world/src/worldserver.rs:311-348 | the verdict for every auth session: each refusal has its own cause, in this order, and whoever sent the digest of the stored key enters with it |
| `WorldLogin.LoginOpensTheWorld` | services/world/src/worldserver.rs:317-343 | a client that sends the digest over the key agreed at login, once stored, is admitted; over every interleaving of traffic after that, each end recovers exactly what the other sent |
| `WorldLogin.BatchesRead` | services/world/src/worldserver.rs:230-237 | whatever batches of frames an honest client encrypts, the reads yield exactly their packets, in order, across all of them |
| `WorldLogin.HonestVisit` | services/world/src/worldserver.rs:188-238 | a client that opens with the account and digest of its key and then says anything in any batches enters with that key, and exactly what it said is read, in order, without a panic |
| `WorldLogin.WhoEnters` | services/world/src/worldserver.rs:188-238 | the converse: whoever enters opened with exactly the digest of the key stored for the account it names; only a first read that breaks the parser panics |
| `WorldLogin.NothingRead` | services/world/src/worldserver.rs:188-238 | a connection that sends nothing is turned away |
| `WorldLogin.ReadsStop` | services/world/src/worldserver.rs:230-237 | what follows an empty read or one that cannot be decoded is lost, and only a parser panic is a panic |
| `WorldSessions.AcceptorKeepsObjects` | services/world/src/worldserver.rs:131-157 | every step of the accepting task keeps each session with a client of its own that carries its id and an account |
| `WorldSessions.AcceptorKeepsAcceptor` | services/world/src/worldserver.rs:188-238 | every step keeps the session being greeted out of everyone else's reach and the directory exact |
| `WorldSessions.AcceptorKeepsQueue` | services/world/src/world/session.rs:90-95 | publishing and queueing keep every queued id published, and the queue accounts for every packet |
| `WorldSessions.ConsumerKeepsQueue` | services/world/src/world/world.rs:84-104 | taking, looking up and finishing packets loses and repeats none |
| `WorldSessions.StepKeepsInv` | services/world/src/world/world.rs:84-104 | every step of either task keeps the whole invariant |
| `WorldSessions.StepKeepsWire` | services/world/src/world/session.rs:246-264 | every step keeps at most one outstanding header per session and every wire in order |
| `WorldSessions.StepOwn` | services/world/src/world/world.rs:263-281 | a step keeps waiting packets leading to their own sessions exactly if it does not publish a session under an id with packets waiting |
| `WorldSessions.OwnershipExact` | services/world/src/world/world.rs:88-103 | over whole runs: packets reach their own sessions throughout exactly if no step displaces one |
| `WorldSessions.SessionSafety` | services/world/src/world/world.rs:88-96 | in every interleaving: published sessions sit under their own id with an account, every queued id has a session (no drop, no missing account), the client being authenticated is present and offline, and no packet is lost, repeated or overtaken |
| `WorldSessions.WireOrder` | services/world/src/world/session.rs:237-264 | in every interleaving, failed writes included: one outstanding header at most, wire order is encryption order, and the client reads exactly what was sent if and only if the bodies fit and the keystream matches at every header, which it does unless a write failed |
| `WorldSessions.OwnSessionAnswers` | services/world/src/world/world.rs:88-103 | each packet is handled by the session that queued it exactly in the runs that never publish under an id with packets waiting; ids drawn once are enough |
| `WorldSessions.ReusedIdMisdirects` | services/world/src/worldserver.rs:131-141 | a run of two complete connections with one id, both greeted with all four packets under their own keys, in which a packet is handled by the other connection's session |
| `WorldReplies.StepKeepsReplies` | services/world/src/world/world.rs:84-104 | every step of either task keeps the record of what was handled and what each client has been told |
| `WorldReplies.EveryReply` | services/world/src/world/world.rs:84-257 | in every interleaving: the character table is what the packets handled made of it, in the order they were queued, each for the account of its session; and each session has been sent its greeting, or the beginning of one, and then exactly the replies it wrote, each as the handler computes it from the table of its turn |
| `WorldReplies.ClientIsAnswered` | services/world/src/world/world.rs:84-257 | in every interleaving that displaces nobody, and so whenever each client id is drawn once: those replies are the ones to the client's own packets, in order, and it reads exactly them if and only if the bodies fit and, after a failed write, the keystream matches |
| `WorldRuns.GreetingEnds` | services/world/src/world/session.rs:237-244 | the greeting as four encrypt and write steps, all out or broken off at any of them, is a run of the transition system |
| `WorldRuns.ConnectionReachable` | services/world/src/worldserver.rs:131-157 | a whole connection, whatever it comes to, leaves the server where a run of the transition system can leave it |
| `WorldRuns.PacketReachable` | services/world/src/world/world.rs:84-104 | so does the handling of one packet, whose session is always found |
| `WorldRuns.EverythingHandled` | services/world/src/world/world.rs:84-104 | the handling task gets through everything queued if and only if no packet asks for a character list that overflows its header on the table of its turn; then every packet has been handled, in order, none dropped |
| `WorldRuns.HandlingMayPanic` | services/world/src/world/session.rs:143-188 | a run in which an account with 240 characters, all properly named, asks for its list and the handling task dies |
| `WorldRuns.NamesKept` | services/world/src/world/world.rs:157-254 | in every interleaving the character names stay distinct, proper and at least two bytes long |
| `WorldRuns.ServedClientReads` | services/world/src/world/session.rs:237-264 | after a connection whose id no waiting packet carries, with no failed write: the exact condition under which everything is handled, and then the client has been sent its greeting and the handler's answers to its own packets alone, and reads them under its own key if and only if their bodies fit |
| `WorldRuns.HonestSession` | services/world/src/worldserver.rs:188-238 | end to end: exactly the packets of an honest client's encrypted frames are queued under its own session; if no waiting packet carries its id and no write fails, everything is handled if and only if no list overflows, and then the client decrypts its greeting and the handler's answers to those packets if and only if they fit |
| `WorldTasks.WorldServer.constructor` | services/world/src/worldserver.rs:80-100 | a new server is the initial state of the transition system |
| `WorldTasks.WorldServer.QueueAll` | services/world/src/worldserver.rs:231-234 | the packets of one read are queued in order under the session's client id |
| `WorldTasks.WorldServer.ReadAll` | services/world/src/worldserver.rs:230-237 | the loop decrypts and queues exactly the packets of the reads, up to the first read that fails, and panics exactly when that read aborts |
| `WorldTasks.WorldServer.CreateSession` | services/world/src/world/session.rs:47-65 | the account is set and a session object made that has greeted its client, with the keystream where that leaves it, or given up at the failing write |
| `WorldTasks.WorldServer.PublishAndPipe` | services/world/src/world/world.rs:263-281 | the session is inserted under its id, then the rest of the first read and all later reads are queued |
| `WorldTasks.WorldServer.Meet` | services/world/src/worldserver.rs:188-228 | the first read, in the clear, and the checks of the auth session decide as the specification of a visit says |
| `WorldTasks.WorldServer.ConnectLoop` | services/world/src/worldserver.rs:188-238 | from the bytes of the reads: a client that enters is published exactly when its greeting went out, and then exactly the packets it sent are queued under its own session; every other connection leaves sessions and queue alone |
| `WorldTasks.WorldServer.ServeConnection` | services/world/src/worldserver.rs:131-157 | the whole new state after a connection, which is a reachable one, and exactly when it panics; otherwise nobody is listed afterwards |
| `WorldTasks.WorldServer.Send` | services/world/src/world/session.rs:246-264 | a reply reaches the wire of that session and no other, a failed one leaves the gap, an overflowing one panics |
| `WorldTasks.WorldServer.Handle` | services/world/src/world/world.rs:106-257 | the handler on the session found: character table and reply are the specification's, on that connection |
| `WorldTasks.WorldServer.HandleNext` | services/world/src/world/world.rs:84-104 | one turn of the handling loop, its whole new state, and the server stays reachable |
| `WorldTasks.WorldServer.HandlePackets` | services/world/src/world/world.rs:84-104 | the loop is the specification's: it survives if and only if no queued packet asks for a list that overflows its header, and then everything queued has been handled in order; the branch that drops a packet is dead |
| `WorldHandler.HandleRequest` | services/world/src/world/world.rs:106-257 | which reply each packet gets, bodies included, and what becomes of the character table, through the methods of the character service |
| `WorldHandler.PacketKeepsNames` | services/world/src/world/world.rs:157-254 | no packet breaks the invariant of the character names |
| `WorldHandler.ReplyHeaded` | services/world/src/world/session.rs:143-206 | a reply's header overflows exactly for a character list whose length is 65534 or 65535 modulo 65536, and then the table is untouched |
| `WorldHandler.ReplyFits` | services/world/src/world/session.rs:246-251 | a reply's header tells its true length except for a character list of more than 65533 bytes |
| `CharacterList.ListRoundTrip` | services/world/src/world/session.rs:143-188 | a client reads back every row of its list, in order, if and only if there are at most 255 |
| `CharacterList.BodyLength` | services/world/src/world/session.rs:143-188 | a list takes one byte, and 270 and the name for each row |
| `Characters.ProperIdempotent` | services/world/src/world/world.rs:177-180 | name normalisation is idempotent |
| `Characters.ProperIsCaseFold` | services/world/src/world/world.rs:177-180 | two names normalise alike exactly when they agree up to ASCII case |
| `Characters.CharacterService.NameAvailable` | crates/mysql-characters/src/characters.rs:60-66 | counting rows tells whether a name is free |
| `Characters.CharacterService.CreateCharacter` | crates/mysql-characters/src/characters.rs:68-103 | inserts under an unused id or changes nothing |
| `Characters.CharacterService.DeleteCharacter` | crates/mysql-characters/src/characters.rs:105-111 | removes at most the row named |
| `Characters.CharacterService.GetByAccount` | crates/mysql-characters/src/characters.rs:41-50 | the rows of the account among those the database comes upon, in that order |
| `Characters.CharacterService.HandleCreate` | services/world/src/world/world.rs:157-224 | the handler's table and reply are the specification's, for every name, account and database behaviour |
| `Characters.CharacterService.HandleDelete` | services/world/src/world/world.rs:233-254 | the same for deletion, including ids that are no player's |
| `Characters.HandledKeepsNames` | services/world/src/world/world.rs:157-254 | any request keeps names distinct, proper and at least two bytes long |
| `Characters.NamesDistinctIgnoringCase` | services/world/src/world/world.rs:157-254 | after any requests no two stored names agree up to ASCII case, and each is its own proper spelling of at least two bytes |
| `Characters.ListingExact` | crates/mysql-characters/src/characters.rs:41-50 | a row is listed exactly if it was scanned, is stored and belongs to the account |
| `Characters.ListedOnce` | crates/mysql-characters/src/characters.rs:41-50 | a scan without repetitions lists no row twice |
| `Characters.CreateThenList` | services/world/src/world/world.rs:157-224 | a confirmed creation shows up in the listings of its account that scan it, and in no other account's |
| `Characters.CreateThenDelete` | services/world/src/world/world.rs:233-245 | deleting a created character restores the table and frees the name |
| `AuthPackets.BodyRoundTrip` | services/auth/src/protocol/mod.rs:86-94 | every message body decodes to the message encoded |
| `AuthPackets.Stream.Read` | services/auth/src/protocol/mod.rs:75-76 | a read splits the input, as much as asked for if there is enough |
| `AuthPackets.ReadPacket` | services/auth/src/protocol/mod.rs:60-94 | command byte and fixed-length body are taken off the stream, or there is no message |
| `AuthPackets.NextEncoded` | services/auth/src/protocol/mod.rs:60-94 | an encoded message is read back and nothing behind it is touched |
| `AuthPackets.MeasureRealms` | services/auth/src/protocol/packets.rs:177-184 | the running sum is the length of all serialized realms |
| `AuthPackets.AppendRealms` | services/auth/src/authserver.rs:421-424 | the loop appends the serialized realms in order |
| `AuthPackets.BuildRealmList` | services/auth/src/authserver.rs:411-429 | the loops build the specified packet and the reserved capacity covers it |
| `AuthPackets.RealmListSizeExact` | services/auth/src/protocol/packets.rs:176-191 | for any list: a panic exactly when the realms take 65520 bytes or more modulo 65536; otherwise length, size field and count are the true ones cut to 16 bits, and the size is right exactly up to 65519 bytes |
| `AuthPackets.RealmListRoundTrip` | services/auth/src/protocol/packets.rs:175-223 | a specification decoder recovers the exact list and trailer |
| `AuthLanguage.LanguageIsStepByStep` | services/auth/src/authserver.rs:164-184 | prefixes of ((Connect or ReConnect)+ matching-proof RealmList*)* are exactly the words in which every command may follow the one before |
| `AuthServer.HandleConnectRequest` | services/auth/src/authserver.rs:238-293 | consumes exactly the identifier and writes exactly the reply of the specification, with every refusal |
| `AuthServer.HandleMessage` | services/auth/src/authserver.rs:164-184 | the match over state and message on the stream |
| `AuthServer.SendRealmlist` | services/auth/src/authserver.rs:411-429 | the realm-list reply for whatever the service returns |
| `AuthServer.TakeTurn` | services/auth/src/authserver.rs:161-194 | one turn consumes and writes what the conversation says next, and strictly shortens the input unless it ends the run |
| `AuthServer.ConnectLoop` | services/auth/src/authserver.rs:158-197 | one reply per handled message in order, a rejection at most once and last, nothing for a message that ends the run |
| `AuthConversation.ServeChained` | services/auth/src/authserver.rs:161-184 | each turn starts in the state the last one left and was agreed to by the services |
| `AuthConversation.RealmListSafety` | services/auth/src/authserver.rs:171-179 | a realm list follows an accepted proof with only realm-list requests between, checked against the token issued by the message just before it |
| `AuthConversation.ServeFollows` | services/auth/src/authserver.rs:164-184 | the commands handled go step by step, from any state that remembers the last one |
| `AuthConversation.ExactLanguage` | services/auth/src/authserver.rs:158-197 | the messages handled are a word of the language, and the run ends for a bad state exactly when the next message would leave it |
| `AuthConversation.LanguageSuffices` | services/auth/src/authserver.rs:158-197 | if the services let everybody in, a stream of legal messages is answered to its end exactly when its commands are a word of the language |
| `AuthConversation.OneLegal` | services/auth/src/authserver.rs:250-264 | handling a legal message consumes exactly its identifier |
| `AuthConversation.ParsesExactly` | services/auth/src/authserver.rs:344-358 | a stream of any legal messages is consumed exactly, message by message |
| `AuthLogin.ChallengeReadBack` | services/auth/src/protocol/packets.rs:70-85 | a client recovers B, g, N and the salt from the challenge |
| `AuthLogin.ReplyBytes` | services/auth/src/protocol/packets.rs:66-160 | every byte of challenge, proof, reconnect and reproof reply |
| `AuthLogin.HonestConversation` | services/auth/src/authserver.rs:158-197 | at any point of any conversation an honest connect, proof and realm-list request are answered with the challenge, the expected M2 and the list, consumed to the last byte, and the client finds challenge and M2 in its replies |
| `AuthLogin.HonestResume` | services/auth/src/authserver.rs:329-409 | the same for a reconnect: the client finds the challenge in the reply, answers it with the key it derived at login, and gets the list |
| `AuthLogin.RealmListNeedsTheKey` | services/auth/src/authserver.rs:171-179 | whoever gets a realm list sent a nonzero A and the M1 of the shared secret, or the digest of the stored key, for the token issued just before |
| `AuthLogin.WrongProof` | services/auth/src/authserver.rs:295-327 | a proof other than the right one, or a public value of zero, is refused with 01 00 05 and nothing more |
| `AuthLogin.WrongPassword` | services/auth/src/authserver.rs:158-197 | at any point of any conversation a user who connects and types a wrong password gets the challenge, then 01 00 05, and that is all the server writes |
| `AuthLogin.ShortSecret` | crates/wow-srp/src/lib.rs:207-213 | any proof at all with a secret below 256^31 ends the connection in a panic, without a word |
| `AuthLogin.NotStored` | services/auth/src/authserver.rs:295-327 | the right proof is refused with 01 00 01 if the session cannot be stored |
| `AuthLogin.ConnectRefused` | services/auth/src/authserver.rs:238-293 | another build, too long a name, too few bytes and a name that is not UTF-8 are each answered, or not, in their own way |
| `AuthLogin.ServiceRefuses` | services/auth/src/authserver.rs:238-293 | each failure of the account service is refused with its own byte, for connect and reconnect |
| `AuthLogin.WrongReproof` | services/auth/src/authserver.rs:360-409 | a reconnect answered with another digest is refused |
| `AuthLogin.OutOfPlace` | services/auth/src/authserver.rs:164-184 | a message in the wrong state ends the connection without a word |
| `Heartbeat.StatusTable.UpdateStatus` | crates/mysql-auth/src/realms.rs:53-62 | the rows are upserted in order up to the first refused statement |
| `Heartbeat.BatchJudges` | services/auth/src/authserver.rs:120-128 | any batch naming each realm once leaves the same table: map order is irrelevant |
| `Heartbeat.Recv` | services/auth/src/authserver.rs:96-98 | a datagram overwrites the front of the buffer and leaves the rest of the last one |
| `Heartbeat.Monitor.constructor` | services/auth/src/authserver.rs:85-90 | nobody has been heard from and the buffer is zero |
| `Heartbeat.Monitor.Receive` | services/auth/src/authserver.rs:97-111 | the realm in the buffer is marked as heard now, and nothing else changes |
| `Heartbeat.Monitor.Drain` | services/auth/src/authserver.rs:121-131 | realms unheard for sixteen seconds leave the map and the batch names every realm once with its verdict |
| `Heartbeat.Monitor.Update` | services/auth/src/authserver.rs:120-136 | a successful turn flags every realm of the map, 0x02 if sixteen seconds or more have passed since it was heard and 0x20 otherwise, and leaves all other rows alone |
| `Heartbeat.BeatAnnounces` | services/world/src/worldserver.rs:104-120 | a realm's beat announces its id modulo 256, whatever the buffer held before |
| `Heartbeat.StepHears` | services/auth/src/authserver.rs:97-128 | in the interleaved tasks a datagram refreshes the realm its second byte names exactly if its first is zero, a short one being completed by the last; a drain forgets exactly what is sixteen seconds old |
| `Heartbeat.AlwaysTracks` | services/auth/src/authserver.rs:102-136 | what every interleaving of datagrams, drains and single rows keeps for each realm |
| `Heartbeat.PendingJudged` | services/auth/src/authserver.rs:121-131 | a row waiting to be written holds the verdict of the last drain, in every run |
| `Heartbeat.TableExact` | services/auth/src/authserver.rs:117-136 | in every run, failures included, a flag is the verdict behind the last row written for its realm, or untouched |
| `Heartbeat.FlagExact` | services/auth/src/authserver.rs:117-136 | after an update that finished or failed a flag is the one deserved in nanoseconds if and only if the last row written for the realm was judged the same way, or, if there was none, the table already said so |
| `Heartbeat.EveryUpdateJudges` | services/auth/src/authserver.rs:117-136 | after any run, failures included, one successful update gives every realm still in the map, and every other one no failed update has dropped, 0x02 if its last heartbeat is at least 16,000,000,000 ns old and 0x20 otherwise |
| `Heartbeat.UnheardUntouched` | crates/mysql-auth/src/realms.rs:53-62 | a realm nobody heard from keeps its row |
| `Heartbeat.HighRealmNeverFlagged` | services/auth/src/authserver.rs:97-111 | the row of a realm with an id of 256 or more is never written, in any run |
| `Heartbeat.BeatHeard` | services/world/src/worldserver.rs:104-120 | its beats refresh the realm with its id modulo 256 instead |
| `Heartbeat.FailedUpdateIsNotRepeated` | services/auth/src/authserver.rs:133-135 | a run in which a failed update drops the Offline row of a realm that has left the map: it stays Recommended for good |
| `RealmCache.RealmList.constructor` | crates/mysql-auth/src/realms.rs:21-29 | an empty list that is due at once |
| `RealmCache.RealmList.Realms` | crates/mysql-auth/src/realms.rs:34-51 | an undisturbed call refreshes exactly when the deadline has passed and the query succeeds; otherwise its list is at most one interval old |
| `RealmCache.StepKeepsInv` | crates/mysql-auth/src/realms.rs:34-51 | every step of every overlapping call keeps the cache sound |
| `RealmCache.CacheBound` | crates/mysql-auth/src/realms.rs:34-51 | in every interleaving, after a first refresh the cached list was queried no earlier than next_update − update_interval |
| `RealmCache.FreshReply` | crates/mysql-auth/src/realms.rs:34-51 | a call that finds the deadline ahead returns a list at most one interval old at its start if nobody commits before it reads |
| `RealmCache.SoloCall` | crates/mysql-auth/src/realms.rs:34-51 | without overlap a call either tries to refresh or has a list at most one interval old |
| `RealmCache.SoloRefresh` | crates/mysql-auth/src/realms.rs:34-51 | the rest of a call that refreshes: success returns the new list, due again one interval after the call started; failure changes nothing and returns the cached one |
| `RealmCache.OverlapBreaksBound` | crates/mysql-auth/src/realms.rs:44-46 | for every interval a run of three overlapping calls, no refresh later than one tick beyond the interval, that returns an older list without trying to refresh |
| `RealmCache.RunKeepsFresh` | crates/mysql-auth/src/realms.rs:34-51 | while refreshes are committed within the interval, every overlapping call that does not try to refresh is served a list at most one interval old |
| `RealmCache.TimelinessExact` | crates/mysql-auth/src/realms.rs:34-51 | the age bound holds in all interleavings if and only if refreshes are committed within the update interval |

## Left out

- SHA-1, HMAC, zlib, UTF-8 and big-integer internals: parameters or mathematical definitions; nothing is claimed about collisions.
- The bincode fork's own behaviour: layouts are written out byte by byte; strings with an embedded NUL are outside the round trips.
- Storage of the negotiated key: crates/mysql-auth/src/accounts.rs updates a fixed username, so `LoginOpensTheWorld` takes the stored key as a hypothesis.
- Reads that split a frame and partial socket writes on the world connection: a read delivers whole frames, a write is whole or fails.
- AuthPackets.Stream.Read: a read that returns fewer bytes than are available is not modelled; the code then sees a message that is too short.
- Wrap-around arithmetic of a build without overflow checks: 16-bit size overflows are panics here.
- Lock liveness in the realm cache, and a clock that goes backwards between a call's sample and its query: only the data invariant with a monotone clock.
- The loops of `WorldTasks` run undisturbed there, as the reachability lemmas of `WorldRuns` say; interleavings are those of `WorldSessions`.
- The authentication challenge in the clear and the error reply to a client that is turned away: fixed bytes outside the session's keystream.
- Which rows a database scan comes upon, in which order, and the account-data times are parameters of the handler (`Backend`); coordinates are listed as the unsigned integers they are cut down to.
- Opcodes that hit `todo!()` are panics, and floats are opaque four-byte values.
- `Realm::from_realm` formatting of the address, `set_uptime`, latency, timeouts and the stored character of `login`: single assignments.
- Collation and column widths of the character table: names are compared byte by byte and stored whole.
- GraphQL, axum, configuration, command line, SQL text, the opcode and response tables, `WowId` packing, ban status, account-data slots.
