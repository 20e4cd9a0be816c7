# Verified model of the Dara chat server and its WebSocket library

This project models the server that carries chat, group and presence messages between game
clients, and the WebSocket library its bots use, and proves what they are for:

* whatever `send` calls one end makes, and however the transport cuts the bytes, the other end
  reports every message once, in order and whole;
* the flat member vector with leader flags stands for groups of one to six characters in join
  order, led by the longest-standing member;
* sessions, sockets, stored members and broker subscriptions agree in every reachable state of
  the server, so that a publication reaches only those it is meant for, and nobody enters a group
  without a recent invitation from somebody who led a group;
* conversely the newest login gets the session and hears what concerns its character until an
  exactly known step ends that, and what a client writes is delivered to all who hear it, word for
  word and under the authenticated name;
* printers and parsers undo each other exactly when their separators allow it, and the second,
  independent parser (the Python observer), reading lines, ends up with the same rosters as the
  server when names are single lines, and exactly when else;
* the hand-optimised SHA-1 and base64 of the handshake compute what FIPS 180-4 and RFC 4648 define.

Code that changes state in place is modelled by classes and array methods with loops; each such
method is proved equal to a function on values, and the theorems are about those functions and
about whole runs of them.

| file | what it holds |
|---|---|
| `Wrappers.dfy`, `Seqs.dfy`, `Text.dfy` | optional values, sequences from their end, splitting, decimal integers, ASCII case |
| `Groups.dfy`, `Rosters.dfy`, `GroupContainer.dfy` | the member vector as a value, the abstract machine it refines, the class |
| `ChatEnvelope.dfy`, `GroupInfoCodec.dfy`, `Login.dfy` | the three text formats |
| `ServerSteps.dfy`, `ServerGroups.dfy`, `ServerInvariant.dfy`, `ServerKeeps.dfy`, `ServerRuns.dfy`, `ServerCommands.dfy`, `ServerInvitations.dfy`, `ServerUpdates.dfy` | the server as a step machine, its invariant, its runs, who hears commands and in whose name, invitations over runs, which changes of groups are announced |
| `ServerLogins.dfy`, `ServerDelivery.dfy`, `ServerHearing.dfy` | what a login does, what texts and commands deliver, and who goes on hearing it |
| `ChatServer.dfy`, `AdminSnapshot.dfy` | the handlers as code, the administrator's view |
| `GroupObserver.dfy`, `CutUpdates.dfy`, `ObservedRuns.dfy` | the Python controller, updates cut by line breaks, and the chain from login to its cache |
| `Bits.dfy`, `Frames.dfy`, `FrameExamples.dfy`, `Receiver.dfy`, `Sender.dfy`, `BufferBound.dfy`, `WSConnection.dfy` | frames, both ends of a connection, the exact buffer bound, the in-place code |
| `ConnectionPool.dfy` | the server-side pool of connection slots |
| `Sha1.dfy`, `Sha1InPlace.dfy`, `Base64.dfy` | the handshake digest |

## How to read the model

* Bytes and 32-bit words are integers below 256 and 2^32; additions wrap explicitly and the
  bitwise operations are defined bit by bit in `Bits`.
* Time, fresh group ids, network reads, decoded tokens and the outcome of a connection's read are
  parameters. The clock is not assumed to be monotone. A fresh id starts with `group_` and is not
  in use; that is all `FreshId` asks.
* The broker is the set of topics each live socket is subscribed to; a publication records the
  sockets it reached. `end()` removes the socket and runs its close handler at once.
* `capacity` is the template parameter RecvBufSize. It is taken even, because the block moved to
  the front of the buffer overlaps its old place only for odd sizes, and at least 28 in
  the chunking theorem, so that an incomplete frame header (up to 13 bytes) stays below half of it.

## What the proofs found

* The frame size that is safe for every cut of the stream is RecvBufSize / 2 + 1, one byte more
  than half the buffer, and it is exact: for every larger frame that fits the buffer there is a
  stream which one pair of reads delivers (`BufferBound.CutAtFrame`) and another pair ends with
  "recv buf full" (`BufferBound.LargerFrameOverflows`).
* INTERFACE.md (lines 193-195) says the invitation is removed when it has been used. Checking an
  invitation ignores ASCII case (GroupContainer.cpp:741-751), removing one does not
  (GroupContainer.cpp:729-739): `ServerInvitations.SurvivingRun` is a run after which it is still
  there and still admits, `ServerInvitations.InvitationUsedUp` says exactly when a join uses it up.
* INTERFACE.md (lines 91 and 98) says the sender is the authenticated name and holds no colon. No
  check keeps colons out of names: receivers of what chat commands publish read the authenticated
  name as the sender exactly when it has none (`ServerCommands.CommandAuthentic`), and whoever holds
  a good token for "Alice:x" is read as Alice (`ServerCommands.ImpersonatingLogin`). On the legacy
  publish path, which the document describes as raw, the sender is whatever the client wrote
  (`ServerCommands.LegacySpeaksAs`).
* `WSServer::poll` leaves exactly the connected slots in its prefix if and only if no handler
  disconnected a connection that had already been serviced in the same round; such a slot leaves
  the pool, and is reported closed, in the next poll (`ConnectionPool.WSServer.Poll`).
* The controller reads its bots' output line by line, and a name may contain a line break, though
  not a bot's (group_test_controller.py:285-288). An update of a group with a bot in it is followed
  whatever was cached before if no member's name has one. Otherwise it is followed exactly when
  the last member's name alone has one, what the first line holds of its entry passes for an
  entry, that entry names no bot outside the group (or one that a later line takes for departed,
  all other bots being in the group), and no later line reads as the printing bot's leave or as
  the departure of a bot of the group (`CutUpdates.FollowsExactly`). A leader called "a", line
  break, "b" is missed (`CutUpdates.CutLeaderMissed`).
* INTERFACE.md (lines 249-252) says when `GroupInfo` is published. Every step that changes the
  record of a group publishes it, with two exceptions: the invitation that starts the group, as
  documented, and the join by which the only member of a group leaves it, although that is a leave
  (`ServerUpdates.RecordsAnnounced`).
* The comment on `sha1base64` (BotWebsocket.h:741) promises that up to 64 bytes are appended; it
  is up to 72, and more than 64 exactly when at least 56 bytes of the last block are taken. The
  60-byte handshake input fills exactly 128 bytes, so the only caller is safe.
* The record `GroupInfo` survives its round trip exactly when no id or name contains `;`. A name
  with `;` cannot log in, because the login frame is cut at the same character.

## Model

| member | source | states |
|---|---|---|
| Receiver.DrainInTwo | BotWebsocket.h:456-469 | draining a stream in two parts either ends the connection in the first part or continues with what was left over, which is at most half the buffer |
| Receiver.ReadIsDrain | BotWebsocket.h:148-204 | a transport read of a fitting stream dispatches what draining it dispatches, keeps the bytes left over, never fills the buffer, and moves them without overlap |
| Receiver.ClosePayload | BotWebsocket.h:504-511 | a close payload is read as its big-endian status and the first 127 octets of its reason, 1005 without a status (RFC 6455, section 5.5.1) |
| Receiver.CloseReported | BotWebsocket.h:502-513 | a close frame ends the connection and is reported with its status and reason; nothing behind it is read |
| Receiver.TooBigReported | BotWebsocket.h:496-497 | a frame larger than the buffer closes the connection with 1009 as soon as its header is there |
| Receiver.ChunkingIndependence | BotWebsocket.h:148-204 | however a fitting stream is cut into reads, the events are those of draining it at once, up to the first close frame |
| BufferBound.CutAtFrame | BotWebsocket.h:148-204 | a stream of complete small frames and one large one, cut between them, is delivered by two reads that fit |
| BufferBound.LargerFrameOverflows | BotWebsocket.h:186-202 | for every frame larger than RecvBufSize / 2 + 1 that fits the buffer, another cut of that stream into two reads ends with a full buffer and loses the frame; no single read can hold the stream |
| BufferBound.PingsHandled | BotWebsocket.h:456-469 | complete control frames in front of any bytes are dispatched, and the rest is handled as if it were alone |
| BufferBound.PrefixWaits | BotWebsocket.h:471-493 | a proper prefix of a frame that fits is left in the buffer untouched |
| Frames.FrameRoundTrip | BotWebsocket.h:471-507 | an encoded frame followed by anything is recognised as that frame, for every header form, masked with any key or not |
| Frames.ScanExtends | BotWebsocket.h:471-493 | what has been recognised does not change when more bytes arrive |
| Frames.MaskTwice | BotWebsocket.h:494-496 | unmasking undoes masking for every key (RFC 6455, section 5.3) |
| Frames.MaskOfZeros | BotWebsocket.h:499-501 | masking four zero octets gives the key itself, in its order |
| Frames.MaskAppend | BotWebsocket.h:499-501 | the key starts over after every fourth octet |
| Frames.MaskBits | BotWebsocket.h:499-501 | every bit of payload octet i is combined with the same bit of key octet i mod 4 (RFC 6455, section 5.3) |
| Frames.ShortestForm | BotWebsocket.h:408-422 | the length takes as few octets as can hold it (RFC 6455, section 5.2) |
| Frames.LengthOctets | BotWebsocket.h:408-422 | the header octets for payloads of 125, 126, 65535 and 65536 octets |
| FrameExamples.HelloEncoded | BotWebsocket.h:400-428 | the unmasked examples of RFC 6455, section 5.7, octet for octet: one frame, two fragments, a ping |
| FrameExamples.HelloMasked | BotWebsocket.h:499-501 | its masked examples: the text message and the pong |
| FrameExamples.HelloScanned | BotWebsocket.h:471-501 | and read back: the masked octets are the frame with the text Hello |
| FrameExamples.LongHeaders | BotWebsocket.h:408-422 | its examples of the two extended length forms |
| Frames.BigEndianRoundTrip | BotWebsocket.h:411-420 | the extended length fields are read back |
| Sender.SentIsReported | BotWebsocket.h:399-429 | the bytes of any run of send calls fit and drain to exactly the messages they stand for, fragments and interleaved control frames included (RFC 6455, section 5.4) |
| Sender.EndToEnd | BotWebsocket.h:399-549 | the same for every cut of those bytes into reads |
| WSConnections.WSConnection.BuildHeader | BotWebsocket.h:400-426 | the 14-byte header buffer holds the header of the frame |
| WSConnections.WSConnection.Send | BotWebsocket.h:399-429 | writes the encoding of the frame the call means and updates the fragmentation flag |
| WSConnections.WSConnection.ReadHeader | BotWebsocket.h:472-490 | whether the header is complete, its length and the payload length |
| WSConnections.WSConnection.UnmaskFrame | BotWebsocket.h:494-496 | the payload is replaced in place by its unmasked form, later bytes stay |
| WSConnections.WSConnection.DeliverFrame | BotWebsocket.h:497-547 | dispatch, close, or append to the reassembly buffer |
| WSConnections.WSConnection.HandleOneWSMsg | BotWebsocket.h:471-549 | one frame: incomplete, too big, or unmasked and delivered, with what remains |
| WSConnections.WSConnection.HandleWSMsg | BotWebsocket.h:456-469 | drains every complete frame in the buffer and says how many bytes are left |
| WSConnections.WSConnection.Relocate | BotWebsocket.h:194-198 | the bytes left over are moved to the front of the buffer |
| WSConnections.WSConnection.Read | BotWebsocket.h:148-204 | a transport read has the effect of the value-level `Read` on head, tail, buffer and connection |
| ConnectionPool.ArrangementIsPermutation | BotWebsocket.h:694-698 | an arrangement without repeats is a permutation of all MaxConns slots |
| ConnectionPool.TurnEffect | BotWebsocket.h:718-735 | what a turn means for any slot: its own is read once and reported when due, those its handler drops are disconnected, the others stay |
| ConnectionPool.RoundServices | BotWebsocket.h:718-735 | over a round every slot that takes a turn is read exactly once, its handshake reported when accepted, its close reported exactly when the pool does not keep it |
| ConnectionPool.RoundTimely | BotWebsocket.h:719-735 | by field values: the deadline moves exactly when bytes are consumed, to now plus the timeout of the state the connection is then in, or never for a zero timeout; past it a silent connection is disconnected, leaves the prefix and is reported closed once if open; one that survives, is in time and is dropped by nobody stays |
| ConnectionPool.ConnectedAfterRound | BotWebsocket.h:718-735 | a serviced slot is connected after the round exactly when it was kept and no later turn dropped it |
| ConnectionPool.Retire | BotWebsocket.h:732-735 | the swap-remove of a connection that is gone keeps every position of the loop state right |
| ConnectionPool.RoundKeeps | BotWebsocket.h:718-735 | after a round every connected slot is in the prefix, and every accepted handshake is still held there or was reported closed once |
| ConnectionPool.ExactlyWithoutLateDrops | BotWebsocket.h:730-735 | the prefix is exactly the connected slots if and only if no kept slot was dropped by a later turn of the round |
| ConnectionPool.NobodyDropsLate | BotWebsocket.h:718-735 | which is so whenever no handler disconnects anybody |
| ConnectionPool.LateDropHappens | BotWebsocket.h:106-141 | a valid pool with two open sessions for which the prefix is left with a disconnected slot |
| ConnectionPool.StaleRetired | BotWebsocket.h:718-735 | a slot disconnected since its last turn leaves the prefix in the next round, its open session reported closed once |
| ConnectionPool.WSServer.Accept | BotWebsocket.h:711-717 | a newcomer takes the first slot behind the prefix, fresh and connected |
| ConnectionPool.WSServer.TakeTurn | BotWebsocket.h:719-734 | reading, deadline, timeout and close report of one connection, and what its handler disconnects |
| ConnectionPool.WSServer.ServicePrefix | BotWebsocket.h:718-736 | every slot of the prefix at the start takes exactly one turn, in the order of the reads; the loop ends because each turn advances or shrinks the prefix |
| ConnectionPool.WSServer.Poll | BotWebsocket.h:710-737 | a whole poll: exactly the prefix with the newcomer is serviced once each, every connected slot is in the prefix afterwards, when it holds no others, what deadlines do to each slot and where they move, and what happens to slots dropped since their last turn |
| ConnectionPool.WSServer.Drop | BotWebsocket.h:92-104 | a disconnection between polls keeps the pool valid |
| Sha1.PaddingIsMinimal | BotWebsocket.h:745-748 | the padded length is the least multiple of 64 with room for 9 more bytes, and 128 for 60 bytes |
| Sha1.PaddingAppended | BotWebsocket.h:741-748 | 9 to 72 bytes are appended, more than 64 exactly when at least 56 bytes of the last block are taken |
| Sha1.ConstantsAreRoots | BotWebsocket.h:761-772 | the round constants are the square roots of 2, 3, 5 and 10 times 2^30, rounded down |
| Sha1.InitialCounts | BotWebsocket.h:743 | the octets of the initial words count up and down |
| Sha1.RoundFunctionBits | BotWebsocket.h:761-772 | the round functions are choice, parity and majority of each bit position |
| Sha1.RotationBy1 | BotWebsocket.h:740 | rotation by one moves the high bit behind the others |
| Sha1.RotationBy5 | BotWebsocket.h:740 | likewise by five |
| Sha1.RotationBy30 | BotWebsocket.h:740 | likewise by thirty |
| Sha1InPlace.PadInPlace | BotWebsocket.h:744-748 | the buffer then holds the message, the marker bit and zeros (FIPS 180-4, section 5.1.1) |
| Sha1InPlace.SwapWords | BotWebsocket.h:748-751 | the buffer read as host words holds the big-endian words of the message |
| Sha1InPlace.Prepare | BotWebsocket.h:744-754 | the buffer read as host words is the padded message |
| Sha1InPlace.ChForm | BotWebsocket.h:763 | the code's choice expression is Ch of FIPS 180-4, section 4.1.1 |
| Sha1InPlace.MajForm | BotWebsocket.h:769 | the code's majority expression is Maj of FIPS 180-4, section 4.1.1 |
| Sha1InPlace.RingMoves | BotWebsocket.h:760 | overwriting word i - 16 with word i keeps the 16-word ring a window of the 80-word schedule |
| Sha1InPlace.ExtendRing | BotWebsocket.h:760 | the ring step computes word i of the schedule in place |
| Sha1InPlace.OneRound | BotWebsocket.h:758-775 | one round on renamed registers is one round of FIPS 180-4, section 6.1.2 on moved ones |
| Sha1InPlace.ProcessBlock | BotWebsocket.h:754-777 | 80 rounds on a block give the compression function, leaving the other blocks alone |
| Sha1InPlace.ComputeSha1 | BotWebsocket.h:742-778 | the in-place code computes the hash of the message, for any number of blocks |
| Base64.RoundTrip | BotWebsocket.h:779-793 | decoding undoes encoding for any number of bytes (RFC 4648, section 4) |
| Base64.CharIsTable | BotWebsocket.h:778 | the character table is the RFC's alphabet |
| Base64.GroupDigits | BotWebsocket.h:779-793 | the characters of a group are its digits to the base 64, the most significant first |
| Base64.RfcExamples | BotWebsocket.h:779-793 | the examples of RFC 4648, section 10, for groups of one, two and three bytes |
| Base64.TriplesAreGroups | BotWebsocket.h:780-786 | the seven shifted words agree in their low 24 bits with the groups of the 20 digest bytes |
| Base64.Base64Digest | BotWebsocket.h:779-794 | the 28 characters are the encoding of the 20 digest bytes |
| Base64.AcceptValue | BotWebsocket.h:834-836 | the accept text is the encoded hash of the buffer's first bytes |
| Base64.AcceptDecodes | BotWebsocket.h:779-794 | the 28 characters decode to the 20 digest bytes |
| Groups.LeaderIsFirst | GroupContainer.cpp:376-440 | the leader the queries report is the longest-standing member |
| Groups.EraseQueries | GroupContainer.cpp:204-238 | how removing a name changes rosters and memberships |
| Groups.InviteAccepted | GroupContainer.cpp:172-201 | an invitation is accepted exactly when the inviter heads its roster and the guest is free or alone in another group |
| Groups.AssignLeaderShape | GroupContainer.cpp:272-289 | reassigning the leader moves nobody |
| GroupContainers.GroupContainer.GetGroupInfo | GroupContainer.cpp:376-413 | the record of a name's group, or the not-a-member error |
| GroupContainers.GroupContainer.GetGroupInfoByGroupId | GroupContainer.cpp:415-440 | the record of a group id, also for an empty roster |
| GroupContainers.GroupContainer.GroupStartGroup | GroupContainer.cpp:94-120 | new vector and returned record of a start |
| GroupContainers.GroupContainer.GroupJoin | GroupContainer.cpp:122-165 | new vector and returned record of a join, in the code's order of checks |
| GroupContainers.GroupContainer.GroupInvite | GroupContainer.cpp:172-201 | the invitation check and its error codes |
| GroupContainers.GroupContainer.GroupKickMember | GroupContainer.cpp:204-238 | new vector and returned record of a kick |
| GroupContainers.GroupContainer.GroupDisband | GroupContainer.cpp:241-270 | new vector, invitations and returned record of a leave |
| GroupContainers.GroupContainer.AssignFirstAsLeader | GroupContainer.cpp:272-289 | the flags of one group after a leader has gone |
| GroupContainers.GroupContainer.AliveMsg | GroupContainer.cpp:291-305 | the refreshed entry of one member |
| GroupContainers.GroupContainer.SetMemberOnline | GroupContainer.cpp:307-318 | the presence flag, its time stamp, and whether it changed |
| GroupContainers.GroupContainer.CheckHasInvited | GroupContainer.cpp:741-751 | whether an invitation matches both names up to ASCII case |
| GroupContainers.GroupContainer.GetUniqueGroupIds | GroupContainer.cpp:457-471 | every non-empty group id, none twice |
| Rosters.StepWellFormed | GroupContainer.cpp:94-289 | every operation keeps names unique across groups, groups of 1 to 6, and the flag on exactly the first member |
| Rosters.StepRefines | GroupContainer.cpp:94-289 | every operation does to the map from group to members in join order what the abstract machine says, with the same error code |
| Rosters.RunRefines | GroupContainer.cpp:94-289 | the same for whole runs from an empty container |
| Rosters.RunLeaders | GroupContainer.cpp:272-289 | after any run: 1 to 6 members a group, none listed twice, nobody in two groups, the leader flag exactly on the longest-standing member |
| Rosters.FlagMeansFirst | GroupContainer.cpp:272-289 | a stored name has the flag exactly when it is its group's reported leader, the head of the roster |
| GroupInfoCodec.SerializeToSend | GroupContainer.cpp:37-49 | the printed record is its fields joined by ';' |
| GroupInfoCodec.Deserialize | GroupContainer.cpp:51-85 | the parsed record or the exception of a bad integer |
| GroupInfoCodec.RoundTrip | GroupContainer.cpp:37-85 | parsing recovers id, leader, flag, both 32-bit integers, names and online bits exactly when no id or name contains ';' |
| GroupInfoCodec.WireOfTwo | GroupContainer.cpp:37-49 | the text of a group of two, written out |
| GroupInfoCodec.StoiOfPrint | GroupContainer.cpp:60-66 | every 32-bit integer is read back, negative ones included |
| GroupInfoCodec.EntryRoundTrip | GroupContainer.cpp:67-83 | a member entry is split at its last comma, so names may contain commas |
| GroupInfoCodec.AllPiecesSeen | GroupContainer.cpp:52-57 | the getline loop sees every piece of a printed record |
| ChatEnvelope.ParseAfterPrint | ChatLibrary.cpp:92-94 | parsing undoes printing exactly for active types and colon-free sender and recipient |
| ChatEnvelope.PrintAfterParse | ChatLibrary.cpp:303-325 | printing undoes parsing on every accepted string |
| ChatEnvelope.Acceptance | ChatLibrary.cpp:303-325 | accepted exactly when there are three colons and a known type before the first |
| ChatEnvelope.TypeRoundTrip | ChatLibrary.cpp:38-90 | every type is read back from its name |
| ChatEnvelope.SenderCutShort | ChatLibrary.cpp:303-325 | how a message is parsed whose sender holds a colon |
| Logins.ReadFields | JwtAuth.h:30-42 | the field loop: every key once with its value, or a rejection |
| Logins.OrderIrrelevant | JwtAuth.h:30-42 | any permutation of the fields is read the same way |
| Logins.DistinctKeysRead | JwtAuth.h:36-41 | well-formed fields with distinct keys are all read |
| Logins.AnyOrderSameOutcome | JwtAuth.h:30-94 | every ordering of the same fields gives the same login outcome, rejections included |
| Logins.DuplicateRefused | JwtAuth.h:38-41 | a key given twice is always refused |
| Logins.BoundIsExact | JwtAuth.h:49-57 | the bound on the claims is exactly what keeps the tolerance inside the 64-bit nanosecond clock |
| Logins.ToleranceExact | JwtAuth.h:62-66 | with the claims in that range the clock arithmetic does not wrap |
| Logins.CheckTimes | JwtAuth.h:62-66 | the comparisons made on the clock are those on true seconds |
| Logins.VerifyLogin | JwtAuth.h:19-97 | the outcome, with the reason of the first check that fails |
| Logins.AcceptedExactly | JwtAuth.h:19-97 | a login is accepted exactly when the fields are well formed and distinct and the token is good for now and for the name |
| Logins.NamesThatLogIn | JwtAuth.h:30-90 | with a good token for that name, exactly the non-empty names without ';' can log in, under that name; others are refused |
| Logins.AcceptedMeans | JwtAuth.h:62-90 | acceptance implies exp > iat, iat-30 <= now < exp+30, a verified token, administrator exactly with the role chat_admin, the zone of the frame, and a non-empty name and a zone without ';' |
| ServerInvariant.SubscribeKeeps | uDaraChatServer.cpp:185-206 | storing a topic and subscribing keeps slots and broker subscriptions in agreement |
| ServerInvariant.UnsubscribeGroupKeeps | uDaraChatServer.cpp:147-165 | after removing the group subscription no slot holds a group topic |
| ServerInvariant.SubscribeStandardKeeps | uDaraChatServer.cpp:267-288 | the standard topics at login keep the agreement |
| ServerKeeps.CloseKeeps | uDaraChatServer.cpp:738-746 | closing keeps the invariant, superseded sockets included |
| ServerKeeps.ConnectKeeps | uDaraChatServer.cpp:459-490 | login keeps the invariant, also when it closes the old socket of the same character inside the step |
| ServerKeeps.EnsureGroupKeeps | uDaraChatServer.cpp:606-614 | the implicit group start cannot fail, moves only the inviter and keeps the invariant |
| ServerKeeps.JoinAllOrNothing | uDaraChatServer.cpp:628-681 | a join moves exactly the joiner into the inviter's group, or moves nobody; once the checks pass and the solo group is left it cannot fail |
| ServerKeeps.DisbandKeeps | uDaraChatServer.cpp:682-703 | leaving moves only the leaver and keeps the invariant |
| ServerKeeps.StepKeeps | uDaraChatServer.cpp:410-746 | every event keeps the whole invariant |
| ServerRuns.RunKeepsInvariant | uDaraChatServer.cpp:410-746 | in every reachable state the invariant holds: besides what the next row says, each socket has at most one used group slot, holding its own group id, and every broker subscription is backed by a used slot or is one of its placeholders |
| ServerRuns.SessionsAgree | uDaraChatServer.cpp:459-490 | sessions and live authenticated sockets are in bijection, cached group ids are right, and a member is shown online exactly while its name has a session |
| ServerLogins.NewestLoginWins | uDaraChatServer.cpp:459-484 | an accepted login on a socket not yet logged in gets the session with its name, zone and group; the socket that held it is gone; all other sockets and sessions stay, nobody changes groups, and exactly those with a session are shown online |
| ServerLogins.OtherLoginEnds | uDaraChatServer.cpp:459-489 | a refused login, or a second one on the same socket, ends that socket and its session and no other |
| ServerLogins.LoginSubscribes | uDaraChatServer.cpp:267-288 | after an accepted login the socket hears World, its zone, tells to its lower-cased name, and its group if it has one |
| ServerLogins.LoginDecides | uDaraChatServer.cpp:459-490 | on every run these two cases are all a login frame can do |
| ServerRuns.DeliverySafety | uDaraChatServer.cpp:147-288 | on every run a group publication reaches only current members, a tell only sockets of that lower-cased name, a zone message only sockets of that zone |
| ServerDelivery.WordForWord | uDaraChatServer.cpp:547-599 | on every run, text in and text out: what an authenticated client writes to a channel, its zone, its group or another character is published once, with its own name in the sender field and otherwise as written, on the topic that goes with it, and reaches exactly the subscribers |
| ServerDelivery.MessageDelivered | uDaraChatServer.cpp:547-599 | the same of the parsed message: receivers read it back as it is if the sender has no colon |
| ServerDelivery.UnaskedIgnored | uDaraChatServer.cpp:491-597 | on every run a text that is no login has no effect when its socket is not logged in or when it asks for nothing |
| ServerDelivery.InvitationDelivered | uDaraChatServer.cpp:601-627 | on every run an invitation is stored with its time in place of outdated ones and told to the guest, text included, exactly when the inviter has no group or heads its roster and the guest is somebody else, free or alone in another group |
| ServerDelivery.LeaveIsAnnounced | uDaraChatServer.cpp:682-703 | a leave tells the group, in this order, who has left and what is left of it; the invitations of somebody who was alone in the group, and no others, go with it |
| ServerDelivery.AliveDelivered | uDaraChatServer.cpp:704-722 | a sign of life reaches the group with zone and health, and is stored in the entry of its sender alone |
| ServerDelivery.BinaryDelivered | uDaraChatServer.cpp:434-454 | a valid binary frame of a group member is passed on as it is and stored as a sign of life; any other has no effect |
| ServerDelivery.StarterHears | uDaraChatServer.cpp:605-614 | whoever starts a group by inviting hears it exactly when its socket has a free slot |
| ServerDelivery.JoinerHears | uDaraChatServer.cpp:645-662 | whoever joins a group hears it exactly when its socket has a free slot, counting that of the group it gives up |
| ServerHearing.SubscribeRequest | uDaraChatServer.cpp:208-242 | a request to subscribe is met for words that are not the server's own while a slot is free, and has no effect for any other text |
| ServerHearing.FramesByPrefix | uDaraChatServer.cpp:459-528 | how logins and requests to hear a topic, or not to, are written |
| ServerHearing.SilencedExactly | uDaraChatServer.cpp:410-746 | a step ends the subscription of a socket to a topic exactly when the socket is closed, sends a login that is no good, loses its session to a newer login, unsubscribes from the topic, or leaves the group whose topic it is |
| ServerHearing.GoesOnHearing | uDaraChatServer.cpp:410-746 | on every run a socket goes on hearing a topic until such a step |
| ServerHearing.HearerReceives | uDaraChatServer.cpp:547-599 | on every run whoever has heard the topic of a chat message at any earlier time, with no such step since, receives it |
| ServerHearing.TellReceived | uDaraChatServer.cpp:581-599 | on every run a character that has logged in receives, until such a step, every tell to its name, whatever the case of ASCII letters |
| ServerHearing.ZoneReceived | uDaraChatServer.cpp:564-569 | and every zone message of characters logged in with the same zone |
| ServerHearing.GroupReceived | uDaraChatServer.cpp:570-580 | and, after a join with a free slot, everything said in the group |
| ServerRuns.OnlyJoinEnters | uDaraChatServer.cpp:628-681 | nothing but a character's own join command puts it into an existing group |
| ServerRuns.InvitesBacked | uDaraChatServer.cpp:616-627 | every stored invitation was accepted at an earlier step, sent by somebody leading a group |
| ServerRuns.JoinProvenance | uDaraChatServer.cpp:616-637 | every join has such an invitation at most 180 seconds old, matching both names up to ASCII case |
| ServerInvitations.JoinInvitations | uDaraChatServer.cpp:628-660 | exactly which invitations a join request leaves |
| ServerInvitations.InvitationUsedUp | uDaraChatServer.cpp:628-660 | after a join that took effect no invitation admits the joiner again exactly when every recent one that matched, other than its own, spells both names as the request did |
| ServerInvitations.InvitationSurvivesJoin | GroupContainer.cpp:729-751 | in every state where a free leader invites a name differing from a free guest in case only, the guest joins and the invitation still admits |
| ServerInvitations.SurvivingRun | GroupContainer.cpp:729-751 | a run from the empty server, with logins that the login check accepts, in which this happens |
| ServerInvitations.StepEnds | GroupContainer.cpp:241-253 | the only steps that end an invitation: pruning when outdated, the join it is for, and its leader giving up a group of one |
| ServerInvitations.InvitationLasts | GroupContainer.cpp:717-760 | on every run an invitation stays until such a step |
| ServerInvitations.AcceptedIsStored | uDaraChatServer.cpp:616-627 | an accepted invitation is stored with the time of its step |
| ServerCommands.CommandPublishes | uDaraChatServer.cpp:547-722 | whatever a command publishes goes to that command's topic, with the authenticated name in the sender field or as the server's true account of a group |
| ServerCommands.CommandAuthentic | uDaraChatServer.cpp:547-722 | on every run, what is published is a true group record, or receivers parse it with the authenticated name as its sender exactly when that name has no colon |
| ServerCommands.ReadAsAnother | uDaraChatServer.cpp:547-549 | a sender name with a colon is parsed as the part before it |
| ServerCommands.ImpersonatingLogin | JwtAuth.h:30-90 | a login under such a name that is accepted, and whom its messages are read as |
| ServerCommands.LegacySpeaksAs | uDaraChatServer.cpp:530-541 | the legacy path publishes any message as it was written, so receivers read the sender field the client chose |
| ServerCommands.CommandAudience | uDaraChatServer.cpp:560-722 | on every run, who hears a command: its zone, the addressee of a tell or an invitation up to case, the members of the group joined, left or talked to, and nobody when there is no group |
| ServerInvitations.InvitedMayJoin | uDaraChatServer.cpp:601-681 | on every run, an invitation that no step has ended admits its guest for 180 seconds: if the inviter has a group with room and the guest none or one of its own, the join moves exactly the guest into the inviter's group |
| ServerUpdates.ConnectTells | uDaraChatServer.cpp:459-490 | a login that changes the record of a group publishes the new record on the group's topic, also when it retires the old socket first |
| ServerUpdates.DisbandTells | uDaraChatServer.cpp:682-703 | so does a leave that changes the record of a group |
| ServerUpdates.InviteSilent | uDaraChatServer.cpp:601-627 | the only record an invitation changes without publishing it is that of the group it starts |
| ServerUpdates.JoinSilent | uDaraChatServer.cpp:628-681 | the only record a join changes without publishing it is that of the group of one it gives up |
| ServerUpdates.RecordsAnnounced | uDaraChatServer.cpp:410-746 | on every run, a step that changes the record of a group publishes the new record on the group's topic, exactly unless it is an invitation that starts the group or a join that gives it up |
| ChatServers.ChatServer.StoreTopicSubscription | uDaraChatServer.cpp:185-206 | the first slot that is free or already holds the topic is used, if any |
| ChatServers.ChatServer.RemoveTopicSubscription | uDaraChatServer.cpp:167-182 | the first used slot with the topic is freed and the broker told |
| ChatServers.ChatServer.RemoveGroupSubscription | uDaraChatServer.cpp:147-165 | the first used slot with a group topic is freed and the broker told |
| ChatServers.ChatServer.SubscribeGroupTopic | uDaraChatServer.cpp:245-266 | the topic of the cached group id is stored and subscribed to |
| ChatServers.ChatServer.SubscribeStandardTopics | uDaraChatServer.cpp:267-288 | World, zone, tell and group topics |
| ChatServers.ChatServer.SendGroupUpdateInfo | uDaraChatServer.cpp:290-305 | the group record is published on the group's topic |
| ChatServers.ChatServer.Open | uDaraChatServer.cpp:410-427 | 32 free slots with placeholder topics |
| ChatServers.ChatServer.OnClose | uDaraChatServer.cpp:738-746 | the close step |
| ChatServers.ChatServer.OnConnect | uDaraChatServer.cpp:459-490 | the login step |
| ChatServers.ChatServer.OnGroupInvite | uDaraChatServer.cpp:601-627 | the invitation step |
| ChatServers.ChatServer.OnGroupJoin | uDaraChatServer.cpp:628-681 | the join step |
| ChatServers.ChatServer.OnGroupDisband | uDaraChatServer.cpp:682-703 | the leave step |
| ChatServers.ChatServer.OnAlive | uDaraChatServer.cpp:704-722 | the alive step |
| ChatServers.ChatServer.OnBinary | uDaraChatServer.cpp:434-454 | the binary-frame step |
| ChatServers.ChatServer.OnText | uDaraChatServer.cpp:455-549 | the dispatch of a text frame |
| ChatServers.ChatServer.Handle | uDaraChatServer.cpp:410-746 | any event: the step of the step machine, with the invariant kept |
| AdminSnapshots.CollectAdminSnapshot | uDaraChatServer.cpp:58-76 | the snapshot describes the state: sessions per zone, sessions per listed channel (each session once), every group once |
| AdminSnapshots.CountsSum | uDaraChatServer.cpp:65-67 | counts of single marks add up to the number of those marked |
| AdminSnapshots.ZonesSumToClients | uDaraChatServer.cpp:62-67 | zone counts sum to the number of connected clients |
| AdminSnapshots.ListedGroupsPartition | uDaraChatServer.cpp:63-64 | the members of the listed groups are exactly the stored members, each once |
| AdminSnapshots.OnlineMeansLive | AdminQueries.h:40-45 | the groups counted as online are those with a live session among their members |
| AdminSnapshots.ListedIdsAreAll | uDaraChatServer.cpp:63-64 | as many groups are listed as there are group ids in use |
| AdminSnapshots.CountOnline | AdminQueries.h:42-45 | the number of groups with an online member |
| AdminSnapshots.AnswerAdminQuery | AdminQueries.h:32-71 | authorization and form are checked before any state is collected; each reply holds the true counts |
| GroupObserver.ParseRoster | tools/group_test_controller.py:109-120 | the checks on a roster line |
| GroupObserver.Controller.StoreRoster | tools/group_test_controller.py:123-129 | the cache and the greeting record after a roster |
| GroupObserver.Controller.ObserveGroup | tools/group_test_controller.py:106-151 | cache, greeting record and greeting after any line |
| GroupObserver.Controller.Collect | tools/group_test_controller.py:78-88 | cache and greeting record after a bot has printed any text, read line by line |
| GroupObserver.Controller.Start | tools/group_test_controller.py:58-59 | starting a bot resets its greeting record |
| GroupObserver.PyIntOfPrint | tools/group_test_controller.py:114 | every printed integer is read back by int() |
| GroupObserver.PrintedRosterRead | tools/group_test_controller.py:109-120 | what the observer makes of any printed record free of ';' in its fields |
| GroupObserver.CacheMatchesContainer | tools/group_test_controller.py:78-129 | after a bot has printed an update whose names have no line break, the bots cached in that group are exactly those the container has in it, empty groups included |
| CutUpdates.LaterLineListsNobody | tools/group_test_controller.py:109-120 | of the lines an update is cut into, only the first can read as a listing of anybody |
| CutUpdates.LastCutObserved | tools/group_test_controller.py:78-129 | what an update is to the controller when the last member's name alone is cut and its beginning passes for an entry |
| CutUpdates.FollowsExactly | tools/group_test_controller.py:78-151 | for bots whose names are one line, one of them in the group: the controller follows the group's updates, whatever it had cached and whichever bot prints, exactly when no member's name has a line break or the last member's alone has one and it is cut well |
| CutUpdates.BrokenLeaderMissed | tools/group_test_controller.py:109-129 | when the leader's name has a line break, an update leaves the cache wrong if a bot of the group was not cached in it, whichever bot prints |
| CutUpdates.CutLeaderMissed | tools/group_test_controller.py:109-129 | a group of the test bots that is missed: its leader is called a, line break, b |
| CutUpdates.CutMemberRead | tools/group_test_controller.py:109-129 | a group of the test bots that is followed although its last member's name has a line break |
| GroupObserver.DepartureObserved | tools/group_test_controller.py:143-151 | the line of the server's departure notice makes the named bot count as departed, and no other; for a name with a colon it is ignored |
| GroupObserver.DeparturePrinted | tools/group_test_controller.py:78-151 | so does the notice as a bot prints it, for a name without line breaks |
| GroupObserver.RecordIsLastGreeting | tools/group_test_controller.py:130-134 | on every run the greeting record of a bot is the last greeting since its last reset |
| GroupObserver.NoRepeatedGreeting | tools/group_test_controller.py:130-134 | on every run a bot that greets a group again has greeted another in between or had its record reset |
| GroupObserver.GreetsExactly | tools/group_test_controller.py:130-137 | on every run a bot greets a group exactly when, while it runs, it prints a line that lists it there, and the group is not the one it greeted last since its record was reset |
| GroupObserver.UpdateGreeted | tools/group_test_controller.py:106-137 | so a running bot that prints the server's update of a group greets it exactly when it is a member and has not just greeted it |
| ObservedRuns.RealLoginsArePlain | JwtAuth.h:30-90 | a login that passed the check carries a non-empty name without ';' |
| ObservedRuns.DispatchSessions | uDaraChatServer.cpp:470-483 | only an accepted login adds a session, under its own name |
| ObservedRuns.ReachablePlain | uDaraChatServer.cpp:410-746 | with plain logins and ids, stored names and group ids are free of ';' in every reachable state |
| ObservedRuns.ObserverFollowsServer | tools/group_test_controller.py:78-151 | in every reachable server state the controller follows the update of a group, whatever it had cached, if no member's name has a line break, and when one of its bots is in the group only then or when the last member's name alone is cut, and cut well |
| Text.SplitJoin | tools/group_test_controller.py:109 | splitting undoes joining when no piece contains the separator |
| Text.DigitsRoundTrip | GroupContainer.cpp:37-49 | decimal printing is read back |

## Left out

- DNS, TLS, sockets, file descriptors, threads and locks, logging and timestamps as text.
- The HTTP upgrade exchange (`wsConnect`, `handleHttpRequest`): only the digest it needs is modelled; the outcome of a handshake is a parameter of the pool.
- The segment mode of the library (`RecvSegment = true`): the bots use whole messages.
- Frames sent by `close`, and the truncation of its reason by snprintf: a close is an event with its status and reason.
- Write failures in the middle of a frame: a write succeeds as long as the connection is open.
- RFC 6455 section 5.5 conformance of the peer is assumed by the chunking theorem for close frames only; a new data message begun inside an unfinished fragmented one is outside the sender theorem.
- Frames of more than 2^32 bytes in the sender theorem: `send` takes a 32-bit length.
- The wrap of the pool's 64-bit deadlines: `now` plus a timeout is taken as exact.
- The frame-by-frame buffers of `conns_data_`: a pool slot is its connection state, handshake state and deadline.
- JSON, base64url and signature checking of tokens: a decoded token and the library's verdict on it are parameters; reasons of rejection are named, not spelled out.
- CollectAdminSnapshot: the uptime is not in the snapshot, because it is read from a clock of its own.
- AnswerAdminQuery: replies are modelled by their content; their JSON text, their addressing and the uptime are not, and maps of counts stand for arrays in key order.
- OnBinary: whether a binary message is valid and what health it reports are parameters, because the binary codec is not part of this model.
- FollowsExactly: gives no exact condition for a group without a bot, because a group's updates reach only sockets of its members, so no bot prints them; `CutUpdates.OneLineFollows` covers it one way.
- DeparturePrinted: only for names without line breaks; a name with one splits the notice into lines that each have the effect `Observe` gives them.
- OnText: direct replies to administrators and to refused DEBUG tells are not recorded, because they go to the asking socket alone and change no state.
- Whether a session has administrator rights: a parameter of `AnswerAdminQuery`; admin replies and the DEBUG tell change no state and are the identity in the step machine.
- `GroupKick` over the wire (no handler; it is in the container model), `Raid`, and the disabled `schedule:` branch.
- The converse of "every managed subscription has a slot": a topic can take two slots, so a used slot can outlive its subscription.
- Server sockets as objects: sockets are records in a map, reassigned in place; aliasing between handlers is not modelled.
- `remove_if` and `erase` are library calls and appear as the functions `Erase`, `DropInvite`, `DropInvitesOf` and `PruneInvites`.
- Python's `int()` and `str.strip` on non-ASCII digits and spaces; the replacement of a bot's token in its output; the text and sending of greetings.
- The time-of-day of a group's members (`storeTime`) is carried but no property about it is stated.
