# Verified models of the ToM protocol stack

Dafny models of the state machines of the ToM repository that perform no I/O: the QUIC endpoint's
bookkeeping, the window of peer-issued connection IDs, the token replay log, NAT traversal, and the
message layer (envelopes, routing, tracking). Each component has

- a *value model*: a datatype for the whole state and a function for the effect of every operation;
- an *object*, where the source updates fields in place: a class with those fields, whose methods follow
  the source statement by statement, are proved to have exactly the value model's effect, and keep an
  invariant that ties the fields to what has happened so far (ghost fields hold that history);
- *run theorems*: what holds in every reachable state, for every sequence of operations.

| file | component |
|---|---|
| `CidWindow`, `CidQueue`, `CidHistory` | connection ID window (`cid_queue.rs`), following sections 5.1.2, 19.15 and 19.16 of RFC 9000 |
| `TokenLog` | token replay log (`bloom_token_log.rs`) |
| `NatTraversal`, `NatProtocol`, `NatStates` | NAT traversal on both sides (`iroh_hp.rs`) |
| `EndpointModel`, `EndpointCids`, `EndpointIncoming`, `EndpointResets`, `EndpointRuns`, `EndpointNumbers`, `EndpointTokens`, `EndpointSpace`, `EndpointOutcomes`, `EndpointObject` | endpoint bookkeeping (`endpoint.rs`) |
| `Envelope`, `Router`, `RouterRuns`, `RouterObject`, `Journey`, `Amplification`, `Delivery` | message layer, one node and the way of one envelope (`envelope.rs`, `router.rs`) |
| `Tracker`, `TrackerObject`, `Network` | message status and retries, and a whole network of routers and trackers (`tracker.rs`) |

`dafny verify dfyconfig.toml` checks everything. `hide` statements only keep definitions out of proofs
that do not need them.

## What the proofs found

- `CidQueue::next` does not wrap the index at cid_queue.rs:114. The literal method indexes out of bounds iff
  a next ID exists and `cursor + reserved_len >= 5`; four ordinary operations reach such a state. With the
  index wrapped, as it is everywhere else, the method does what its comment says in every state.
- A retiring NEW_CONNECTION_ID frame can make `next_reserved` hand out an ID a second time. If no frame of a
  run meets the condition `ForgetsReservation`, no number is handed out twice; after any frame that does, one is
  as soon as enough IDs are reserved.
- `Endpoint::connect` reserves a connection ID at endpoint.rs:351 and does not release it if the TLS session
  cannot be started. Such IDs are never released, and the next connection that takes the same slab key
  receives the datagrams sent to them. The ID table is the inverse of the live connections iff no session
  start has failed.
- If two connections hold the same reset token for the same address, one of them can drop out of the reset
  table. What is in the table is always right; over a run nothing drops out iff no event takes, replaces or
  releases a token that somebody else holds.
- With one token lifetime the replay log rejects every replay. A token presented again at once is accepted iff
  the second lifetime is so short that `period_1_start + lifetime <= issued`. With lifetimes that only grow, a
  replay is looked up in the wrong place iff a turnover under a shorter lifetime has dropped the token.
- The server's address ids saturate after 2^62 assignments, and the client's mirror can then break even
  with in-order delivery. Up to that number it holds; beyond, it holds iff no new address is given an id that
  another one still has.
- An envelope reaches its recipient iff its relay chain is at most four deep, does not loop before the
  recipient, and has no more relays before the recipient than its TTL. Its delivery ACK gets back iff the
  reversed chain does not loop, which distinct relays exclude and others do not.
- One message with TTL `t` causes at most `max(2 * min(t, 4) + 10, 2t + 1)` calls of `route` in the whole
  network, and for every `t` some message causes that many.

## Model

| member | source | states |
|---|---|---|
| CidWindow.InsertRetires | crates/tom-quinn-proto/src/cid_queue.rs:57-106 | An insert changes nothing on error; otherwise it adds its number, and when it retires, the returned range starts at the old active number, is non-empty, ends at or before the new one, and covers whatever left the window |
| CidWindow.InsertTells | crates/tom-quinn-proto/src/cid_queue.rs:57-106 | Exactly when an insert is `Retired`, `ExceedsLimit`, stored or retiring; what is then stored; the exact range; and that the token returned is that of the number now active, not of the frame |
| CidWindow.NextRetires | crates/tom-quinn-proto/src/cid_queue.rs:110-122 | Switching returns a non-empty range from the old active number, covers whatever left the window, and lands past the whole reserved region |
| CidWindow.NextTells | crates/tom-quinn-proto/src/cid_queue.rs:110-122 | A switch goes to the first number past the reserved region and returns that number's token and the exact range; there is none iff no such number is stored |
| CidWindow.ReserveTells | crates/tom-quinn-proto/src/cid_queue.rs:128-133 | A reservation takes the first number past the reserved region and changes nothing else |
| CidWindow.InsertKeepsWellFormed | crates/tom-quinn-proto/src/cid_queue.rs:84-106 | The active number stays stored and least, and only number 0 may lack a token, so neither `expect` can fail |
| CidQueues.CidQueue.Insert | crates/tom-quinn-proto/src/cid_queue.rs:57-106 | The ring buffer's insert has exactly the effect, result and errors of the map-level window, wherever the ring stands; the token is that of the number now active |
| CidQueues.CidQueue.Next | crates/tom-quinn-proto/src/cid_queue.rs:110-122 | The literal code is out of bounds iff there is a next ID and `cursor + reserved_len >= 5`; otherwise it is the window's switch |
| CidQueues.CidQueue.NextWrapped | crates/tom-quinn-proto/src/cid_queue.rs:110-122 | With the index wrapped the method is the window's switch in every state |
| CidQueues.CidQueue.NextReserved | crates/tom-quinn-proto/src/cid_queue.rs:128-133 | Reserves and returns the first stored ID after the reserved region, or none |
| CidQueues.CidQueue.UpdateInitialCid | crates/tom-quinn-proto/src/cid_queue.rs:163-166 | Replaces the active ID and drops its token while the active number is 0 |
| CidQueues.CidQueue.FirstFromActive | crates/tom-quinn-proto/src/cid_queue.rs:136-141 | Finds the first filled slot from the cursor round the ring |
| CidQueues.CidQueue.SecondFromReserved | crates/tom-quinn-proto/src/cid_queue.rs:146-160 | Finds the first stored number after the reserved region, with its data |
| CidQueues.StepFrom | crates/tom-quinn-proto/src/cid_queue.rs:154-160 | `reserved_len` counts the steps round the ring from the cursor, also across the wrap |
| CidHistory.RetirementIsExact | crates/tom-quinn-proto/src/cid_queue.rs:66-122 | Over any run the retired ranges are non-empty, ascending and disjoint, and a number ever stored is either still stored or in exactly one of them |
| CidHistory.HandedOutOnceUntilReset | crates/tom-quinn-proto/src/cid_queue.rs:124-133 | Between retiring frames, reserved numbers are strictly increasing and none of them is the active one |
| CidHistory.ReservationRegressesIff | crates/tom-quinn-proto/src/cid_queue.rs:84-95 | The reserved position falls back iff a frame retires the active number and leaves a stored or new number before the last one handed out |
| CidHistory.HandedOutOnceUnlessForgotten | crates/tom-quinn-proto/src/cid_queue.rs:84-133 | If no frame of a run is of that kind, the numbers handed out over the whole run are strictly increasing, so none is handed out twice |
| CidHistory.ForgettingRepeats | crates/tom-quinn-proto/src/cid_queue.rs:84-133 | Conversely, after any frame of that kind the last number handed out is handed out again as soon as enough IDs are reserved |
| CidHistory.HandedOutTwice | crates/tom-quinn-proto/src/cid_queue.rs:93-93 | A run of frames that the decoder accepts, in which the same number is handed out twice |
| CidHistory.StoredIsBrought | crates/tom-quinn-proto/src/cid_queue.rs:57-166 | In every run, what is stored under a number is what the peer last sent for it in a frame that was taken, or in the handshake |
| CidHistory.TokenIsThatOfActive | crates/tom-quinn-proto/src/cid_queue.rs:84-121 | In every run a token is returned exactly when the active number changes, and is the one that the peer last sent for the number now active |
| CidHistory.ReservedIdIsBrought | crates/tom-quinn-proto/src/cid_queue.rs:128-133 | The ID handed out is the one that the peer last sent for that number |
| CidHistory.LiteralRunIff | crates/tom-quinn-proto/src/cid_queue.rs:113-115 | A run of the literal code fails iff it switches in a state whose reserved region wraps; otherwise it is the intended run |
| CidHistory.OverrunIsReachable | crates/tom-quinn-proto/src/cid_queue.rs:113-115 | Frames that the decoder accepts lead to such a state |
| TokenLogs.TokenLog.CheckAndInsert | crates/tom-quinn-proto/src/bloom_token_log.rs:57-119 | Picks and turns over the period filters and records the token exactly as the value model does, lifetime zero included |
| TokenLogs.TokenLog.FilterCheckAndInsert | crates/tom-quinn-proto/src/bloom_token_log.rs:155-188 | Rejects iff the filter reports the fingerprint, and records it, converting an outgrown set |
| TokenLogs.TokenLog.ToBloom | crates/tom-quinn-proto/src/bloom_token_log.rs:173-179 | The Bloom filter holds exactly the bits of all items of the set |
| TokenLogs.PresentByIssue | crates/tom-quinn-proto/src/bloom_token_log.rs:73-102 | The count of periods is a choice by time of issue: before the period starts, the first filter; up to a lifetime later, the second; else one or both turn over |
| TokenLogs.RunTracks | crates/tom-quinn-proto/src/bloom_token_log.rs:57-140 | In every run, under any lifetimes, each filter stands for exactly the presentations that issue times and lifetimes put there |
| TokenLogs.VerdictIsExact | crates/tom-quinn-proto/src/bloom_token_log.rs:57-119 | The verdict of every presentation in terms of the history: exact while the filter is a set, by covered bits once it is a Bloom filter |
| TokenLogs.KindIff | crates/tom-quinn-proto/src/bloom_token_log.rs:155-188 | In every run a filter is a Bloom filter iff some presentation that is there was accepted when the hash set was over its budget |
| TokenLogs.VerdictByNonce | crates/tom-quinn-proto/src/bloom_token_log.rs:104-119 | Where there is no such presentation, a token is accepted iff it is in time and no nonce with the same low 64 bits is there |
| TokenLogs.ReplayAcceptedIff | crates/tom-quinn-proto/src/bloom_token_log.rs:57-119 | A replay is accepted only if it is in time and no earlier presentation is where it is looked up; and it is, if the filter is a set and no other token shares the fingerprint |
| TokenLogs.GrowingKeepsInPlace | crates/tom-quinn-proto/src/bloom_token_log.rs:85-102 | While lifetimes never get shorter, the second filter holds what was issued since the period started, the first what was issued before and not forgotten |
| TokenLogs.GrowingReplayIff | crates/tom-quinn-proto/src/bloom_token_log.rs:73-102 | Then a replay is looked up where its token is iff no turnover has dropped it; if one has, the lifetime has grown since |
| TokenLogs.ReplayIsRejected | crates/tom-quinn-proto/src/bloom_token_log.rs:57-119 | With one lifetime, a token presented once, with either verdict, is rejected ever after |
| TokenLogs.ImmediateReplayIff | crates/tom-quinn-proto/src/bloom_token_log.rs:73-102 | Under any two lifetimes, a recorded token presented again at once is accepted iff the start plus the second lifetime is not after its time of issue; never under a longer lifetime |
| TokenLogs.ShorterLifetimeAcceptsReplay | crates/tom-quinn-proto/src/bloom_token_log.rs:73-102 | A run in which a shorter lifetime lets a replay through |
| TokenLogs.LongerLifetimeAcceptsReplay | crates/tom-quinn-proto/src/bloom_token_log.rs:73-102 | A run in which a longer one does, after a turnover |
| NatTraversal.MappingIsCanonical | crates/tom-quinn-proto/src/iroh_hp.rs:510-524 | The mapped address is of the socket's family, mapping again changes nothing, IPv4 survives the round trip, and only unmapped IPv6 is unreachable over IPv4 |
| NatTraversal.ReachableKeepsPort | crates/tom-quinn-proto/src/iroh_hp.rs:369-377 | The mapped address keeps its port |
| NatTraversal.ReachOutTells | crates/tom-quinn-proto/src/iroh_hp.rs:348-378 | A frame is refused iff its round is current, its address reachable and as many are waiting as allowed; and exactly what an accepted one changes |
| NatTraversal.AddLocalTells | crates/tom-quinn-proto/src/iroh_hp.rs:326-338 | Each of the three answers has its exact condition |
| NatStates.ServerState.AddLocalAddress | crates/tom-quinn-proto/src/iroh_hp.rs:326-338 | A new address gets an id that no frame sent so far has given to an address, unless the ids are used up; ids keep counting assignments |
| NatStates.ServerState.RemoveLocalAddress | crates/tom-quinn-proto/src/iroh_hp.rs:340-342 | The id withdrawn is one that was advertised for that very address |
| NatStates.ServerState.HandleReachOut | crates/tom-quinn-proto/src/iroh_hp.rs:348-378 | Refuses iff the round is current and full; whatever is then pending or active was asked for in the current round, the round never falls, a newer round drops the old probes, and an accepted address is pending |
| NatStates.ServerState.ProbeOne | crates/tom-quinn-proto/src/iroh_hp.rs:380-403 | Moves one pending address, if any, to the active probes, all still of the current round |
| NatStates.ClientState.AddLocalAddress | crates/tom-quinn-proto/src/iroh_hp.rs:113-124 | Succeeds iff there is room or the address is known |
| NatStates.ClientState.AddRemoteAddress | crates/tom-quinn-proto/src/iroh_hp.rs:230-253 | The table stays the last word on every id; the frame is refused iff nothing is known of its id and the table is full, and changes nothing iff it repeats the last word; a new address is not marked for continuation |
| NatStates.ClientState.RemoveRemoteAddress | crates/tom-quinn-proto/src/iroh_hp.rs:258-265 | Returns the last word on the id, after which there is none |
| NatStates.ClientState.ReportInContinuation | crates/tom-quinn-proto/src/iroh_hp.rs:174-184 | Adds the id to what a continuation can return iff the error is spurious and its last word is reachable, and touches no other entry |
| NatStates.ClientState.ClearMarks | crates/tom-quinn-proto/src/iroh_hp.rs:151-160 | Clears every mark and collects every reachable address |
| NatStates.ClientState.Initiate | crates/tom-quinn-proto/src/iroh_hp.rs:141-168 | Starts the next round iff there is a local address, clears every mark, and hands back exactly the previous round's path ids |
| NatStates.ClientState.Continue | crates/tom-quinn-proto/src/iroh_hp.rs:195-212 | Returns some marked reachable address and clears its mark, or none iff there is none |
| NatProtocol.InOrderMirror | crates/tom-quinn-proto/src/iroh_hp.rs:230-275 | In order, with up to 2^62 assignments, the client welcomes every frame and ends with exactly the inverse of the server's table |
| NatProtocol.MirrorAtEveryFrame | crates/tom-quinn-proto/src/iroh_hp.rs:230-342 | After any `k` frames the client mirrors the server as it was when frame `k` was sent |
| NatProtocol.AdvertiseKeepsMirrorIff | crates/tom-quinn-proto/src/iroh_hp.rs:326-338 | A new address keeps the mirror, and passes the client's check, iff its id is not in use |
| NatProtocol.MirrorIff | crates/tom-quinn-proto/src/iroh_hp.rs:230-342 | Over any run, the client mirrors the server after every operation iff no new address was given an id that another one still had |
| NatProtocol.SaturationBreaksMirror | crates/tom-quinn-proto/src/iroh_hp.rs:330-334 | One assignment more than the bound, and the mirror can break |
| NatProtocol.RunIsNumbered | crates/tom-quinn-proto/src/iroh_hp.rs:326-338 | Below saturation an id names one address for good |
| NatProtocol.AnyOrderIsSound | crates/tom-quinn-proto/src/iroh_hp.rs:230-275 | Under loss, reordering and repetition every client entry is the only pair the server assigned to that id, and `check_remote_address` holds |
| NatProtocol.ClientHoldsLastWord | crates/tom-quinn-proto/src/iroh_hp.rs:230-265 | Whatever is delivered, the client holds an id iff the last frame about it that it had room for was an advertisement, and then that address; never more than its limit |
| NatProtocol.ServerProbesCurrentRound | crates/tom-quinn-proto/src/iroh_hp.rs:348-403 | In every run each pending or active probe was asked for in the current round, and at most `max(1, max_remote_addresses)` are pending |
| NatProtocol.PendingIff | crates/tom-quinn-proto/src/iroh_hp.rs:348-403 | In every run an address is pending iff a frame of the current round asked for it and was not refused, and it has not been probed since |
| NatProtocol.ActiveIff | crates/tom-quinn-proto/src/iroh_hp.rs:348-403 | In every run exactly the probes begun in the current round are active, each under its latest token |
| NatProtocol.AskedIsServed | crates/tom-quinn-proto/src/iroh_hp.rs:348-403 | An address asked for in the current round while there was room is pending, or was probed from then on |
| NatProtocol.RoundNeverDecreases | crates/tom-quinn-proto/src/iroh_hp.rs:353-366 | The server's round never decreases |
| NatProtocol.ContinuationsReportOnce | crates/tom-quinn-proto/src/iroh_hp.rs:186-212 | Repeated continuations return each marked reachable address exactly once and then none, whatever the iteration order |
| NatProtocol.ContinuationsClearMarks | crates/tom-quinn-proto/src/iroh_hp.rs:195-212 | Afterwards exactly those marks are cleared |
| NatProtocol.ContinuationsExist | crates/tom-quinn-proto/src/iroh_hp.rs:195-212 | Repeated continuations come to an end, and any marked reachable address can come first |
| NatProtocol.NewRoundReportsNothing | crates/tom-quinn-proto/src/iroh_hp.rs:149-160 | A new round has nothing to continue with |
| EndpointObjects.EndpointObject.constructor | crates/tom-quinn-proto/src/endpoint.rs:64-83 | A new endpoint has empty tables |
| EndpointObjects.EndpointObject.NewCid | crates/tom-quinn-proto/src/endpoint.rs:417-430 | Reserves the first generated ID that is not in the table |
| EndpointObjects.EndpointObject.IssueNext | crates/tom-quinn-proto/src/endpoint.rs:396-406 | Issues one ID under the path's next sequence number |
| EndpointObjects.EndpointObject.SendNewIdentifiers | crates/tom-quinn-proto/src/endpoint.rs:387-414 | Issues one ID per draw, with consecutive sequence numbers, and keeps every table in agreement |
| EndpointObjects.EndpointObject.NewResetToken | crates/tom-quinn-proto/src/endpoint.rs:103-113 | Replaces the path's token in the connection and in the reset table; warns of a duplicate iff the table has the token and this path did not hold it |
| EndpointObjects.EndpointObject.DropResetToken | crates/tom-quinn-proto/src/endpoint.rs:114-118 | Forgets the path's token in both places |
| EndpointObjects.EndpointObject.RetireConnectionId | crates/tom-quinn-proto/src/endpoint.rs:119-131 | Retires a held ID and returns its replacement, if allowed, under the next number; otherwise nothing changes |
| EndpointObjects.EndpointObject.Drained | crates/tom-quinn-proto/src/endpoint.rs:132-141 | Removes a known connection from the slab and every table; the assertion on its initial ID holds |
| EndpointObjects.EndpointObject.ForgetCids | crates/tom-quinn-proto/src/endpoint.rs:1096-1102 | The loop over the paths, and over the IDs of each, removes exactly the connection's IDs |
| EndpointObjects.EndpointObject.ForgetTokens | crates/tom-quinn-proto/src/endpoint.rs:1106-1108 | The loop removes exactly the connection's reset tokens, and every address this leaves empty |
| EndpointObjects.EndpointObject.AddConnection | crates/tom-quinn-proto/src/endpoint.rs:852-871 | Enters a connection with its first one or two IDs under sequence numbers 0 and 1 |
| EndpointObjects.EndpointObject.Connect | crates/tom-quinn-proto/src/endpoint.rs:330-384 | Refused, failed or connected, connected iff every check passes and the session starts; then the connection is live and found by its ID; a failed session leaves its ID behind |
| EndpointObjects.EndpointObject.CleanUpIncoming | crates/tom-quinn-proto/src/endpoint.rs:797-801 | Forgets an undecided connection in all tables; the assertion holds and the subtraction cannot underflow |
| EndpointObjects.EndpointObject.Retry | crates/tom-quinn-proto/src/endpoint.rs:738-744 | Cleans up iff a retry is permitted |
| EndpointObjects.EndpointObject.TakeBuffer | crates/tom-quinn-proto/src/endpoint.rs:544-545 | The buffer is there; takes it out and its bytes off the total, which cannot underflow |
| EndpointObjects.EndpointObject.Accept | crates/tom-quinn-proto/src/endpoint.rs:535-688 | Accepted iff every check passes and the handshake succeeds; then the connection is live, found by its IDs, and gets exactly the datagrams that were buffered; every outcome keeps every table in agreement |
| EndpointObjects.EndpointObject.StatelessReset | crates/tom-quinn-proto/src/endpoint.rs:270-327 | Sends a reset iff the interval has passed and the datagram is large enough, of a legal size |
| EndpointObjects.EndpointObject.BufferIncoming | crates/tom-quinn-proto/src/endpoint.rs:218-237 | Keeps the datagram iff the sums over the buffered datagrams themselves, not the counters, stay within both limits; the counters stay those sums |
| EndpointObjects.EndpointObject.Get | crates/tom-quinn-proto/src/endpoint.rs:1112-1144 | Returns the holder of the ID if there is one; else, for an early packet, the connection it began; else, as long as no holder has dropped out of the reset table, the holder of its last bytes as a token; and whoever is returned has such a claim |
| EndpointObjects.EndpointObject.Handle | crates/tom-quinn-proto/src/endpoint.rs:147-267 | Routes, buffers, answers or ignores a datagram, and never follows a dangling index |
| EndpointObjects.EndpointObject.HandleFirstPacket | crates/tom-quinn-proto/src/endpoint.rs:432-531 | A new undecided connection is within the limit and is found by every later early packet to its ID; any other outcome changes no table |
| EndpointModel.ResetExchangeEnds | crates/tom-quinn-proto/src/endpoint.rs:286-318 | Resets are at least 21 bytes and smaller than their cause, so an exchange begun by `L` bytes has at most `L - 21` resets (sections 10.3 and 10.3.3 of RFC 9000) |
| EndpointRuns.ResetsAreSpaced | crates/tom-quinn-proto/src/endpoint.rs:278-303 | Any two resets of a run are at least the minimum interval apart |
| EndpointRuns.ApplyKeepsInv | crates/tom-quinn-proto/src/endpoint.rs:93-801 | Every event keeps the ID table, the initial table, the reset table and the byte total in agreement with the connections and buffers |
| EndpointRuns.CidTableIsExact | crates/tom-quinn-proto/src/endpoint.rs:1004-1109 | In every run, apart from orphans, an ID maps to a connection and path iff that connection holds it there, and no ID is held twice |
| EndpointRuns.OrphansAreFailedConnects | crates/tom-quinn-proto/src/endpoint.rs:350-362 | The orphans are exactly the IDs of `connect` calls that passed every check and could not start a session, and none is ever released |
| EndpointRuns.InverseIffNothingLeaked | crates/tom-quinn-proto/src/endpoint.rs:350-362 | The whole ID table is the inverse of what the live connections hold iff there was no such call |
| EndpointRuns.OrphanMisroutes | crates/tom-quinn-proto/src/endpoint.rs:350-383 | Datagrams for an orphan go to a free slab key, and later to whatever connection takes it |
| EndpointRuns.NoEventFails | crates/tom-quinn-proto/src/endpoint.rs:218-801 | No event of any run meets a dangling index, a missing initial entry, not even where a failed handshake drains its connection, or an underflow |
| EndpointRuns.LookupNeverDangles | crates/tom-quinn-proto/src/endpoint.rs:1112-1144 | What a lookup finds is an occupied buffer, or a live connection unless the ID is an orphan |
| EndpointRuns.LookupIsExact | crates/tom-quinn-proto/src/endpoint.rs:1112-1144 | In every run, which connection gets a datagram, a reset included, in terms of what the connections hold and not of the tables |
| EndpointRuns.ResetRoutesRight | crates/tom-quinn-proto/src/endpoint.rs:1136-1144 | A datagram that nobody claims goes to the connection that the reset table names, which holds the token, and to nobody iff there is no entry |
| EndpointOutcomes.AcceptOutcomeIff | crates/tom-quinn-proto/src/endpoint.rs:535-688 | The first check that fails names the outcome of an accept |
| EndpointOutcomes.AcceptedIsReached | crates/tom-quinn-proto/src/endpoint.rs:634-669 | An accepted connection is live, holds the drawn IDs under the numbers from 0, and is found by them and by early packets to its initial ID |
| EndpointOutcomes.ConnectTells | crates/tom-quinn-proto/src/endpoint.rs:330-384 | The exact condition and meaning of each outcome of a connect |
| EndpointOutcomes.HandleTells | crates/tom-quinn-proto/src/endpoint.rs:147-267 | The exact condition of each outcome of a datagram: routed, buffered, a new connection, closed, answered with a reset, ignored |
| EndpointOutcomes.ResetSizeTells | crates/tom-quinn-proto/src/endpoint.rs:286-318 | A reset has one byte less than its cause, or at least 41 bytes; for every cause over 21 bytes there is a size |
| EndpointOutcomes.ResetSentIff | crates/tom-quinn-proto/src/endpoint.rs:270-318 | In every run a reset is sent iff nobody is found for the datagram, it is of a kind that is answered and over 21 bytes, and every earlier reset is long enough ago |
| EndpointRuns.UndecidedAreBounded | crates/tom-quinn-proto/src/endpoint.rs:432-531 | In every run there are at most `max_incoming` undecided connections, one for each buffer |
| EndpointSpace.CountOfLength | crates/tom-quinn-proto/src/endpoint.rs:954-960 | There are at most 256^n IDs of length n |
| EndpointSpace.ExhaustedIff | crates/tom-quinn-proto/src/endpoint.rs:954-960 | If the generator keeps to its length, the subtraction never underflows, and the answer is that more than three quarters of a short ID space are used |
| EndpointRuns.TablesAndBytesAgree | crates/tom-quinn-proto/src/endpoint.rs:544-801 | In every run the initial table is a bijection, the reset table is sound, and the byte total is the sum over the buffers within both limits |
| EndpointNumbers.NumbersAreNeverReused | crates/tom-quinn-proto/src/endpoint.rs:119-131 | While a connection lives, what it holds under a number assigned before some state, it held under that number in that state: a number never names a second ID, and a retired one never comes back |
| EndpointNumbers.NumbersAreConsecutive | crates/tom-quinn-proto/src/endpoint.rs:395-407 | Each number between two values of the counter was given, by one event, to an ID that the connection then held under it |
| EndpointNumbers.HeldUntilRetired | crates/tom-quinn-proto/src/endpoint.rs:119-131 | While a connection lives, a number that it holds stays held under the same ID iff no event has retired it since |
| EndpointNumbers.LiveUntilDrained | crates/tom-quinn-proto/src/endpoint.rs:132-141 | A connection lives until it is drained |
| EndpointNumbers.IssueAllNumbers | crates/tom-quinn-proto/src/endpoint.rs:395-407 | Each issued ID is held under its own consecutive number |
| EndpointCids.DrainKeepsCidInv | crates/tom-quinn-proto/src/endpoint.rs:1092-1102 | Draining removes the IDs of that connection from the table, and no others |
| EndpointCids.RetireKeepsCidInv | crates/tom-quinn-proto/src/endpoint.rs:119-126 | Retiring a number removes its ID, and no connection loses another |
| EndpointIncoming.FailedAcceptLeavesNoTrace | crates/tom-quinn-proto/src/endpoint.rs:557-687 | However an accept fails, the tables end as after a refusal |
| EndpointIncoming.PromoteKeepsInitialInv | crates/tom-quinn-proto/src/endpoint.rs:635-652 | Accepting turns the undecided entry into the connection's entry and keeps the bijection |
| EndpointIncoming.DrainKeepsInitialInv | crates/tom-quinn-proto/src/endpoint.rs:1092-1095 | Draining keeps the bijection, and the entry it removes is there |
| EndpointIncoming.BufferKeepsBytesInv | crates/tom-quinn-proto/src/endpoint.rs:222-234 | Buffering keeps the total equal to the sum and both limits |
| EndpointIncoming.SumBytesRemove | crates/tom-quinn-proto/src/endpoint.rs:544-545 | The total splits off any one buffer, so what is subtracted was counted |
| EndpointResets.SetKeepsResetInv | crates/tom-quinn-proto/src/endpoint.rs:103-113 | Every entry still names a live holder after a token change, duplicates included |
| EndpointResets.SetStaysCompleteIff | crates/tom-quinn-proto/src/endpoint.rs:103-113 | No holder drops out of the table iff no other connection holds the new token and nobody else the replaced one |
| EndpointResets.RetireStaysCompleteIff | crates/tom-quinn-proto/src/endpoint.rs:114-118 | No holder drops out iff nobody else holds the retired token |
| EndpointResets.DrainStaysCompleteIff | crates/tom-quinn-proto/src/endpoint.rs:1106-1108 | No holder drops out iff no other connection holds one of the drained tokens |
| EndpointTokens.CompleteIffNothingLost | crates/tom-quinn-proto/src/endpoint.rs:103-141 | Over a run, every holder has been in the table in every state iff no event took, replaced or released a token that somebody else held |
| EndpointTokens.TokenDropsOut | crates/tom-quinn-proto/src/endpoint.rs:103-113 | For every configuration, token and pair of IDs of the announced length there is a run in which a holder drops out |
| EndpointTokens.ResetIsRecognised | crates/tom-quinn-proto/src/endpoint.rs:1136-1144 | In every run that has lost no holder, a datagram that nobody claims and that ends in a connection's token, from the expected address, is routed to that connection |
| EndpointResets.RemovePoints | crates/tom-quinn-proto/src/endpoint.rs:1356-1367 | Removing an entry removes only that entry, and leaves no address empty |
| EndpointResets.InsertPoints | crates/tom-quinn-proto/src/endpoint.rs:1348-1354 | Inserting an entry replaces only that entry |
| Envelopes.SealedEnvelopeSurvivesRelays | crates/tom-protocol/src/envelope.rs:86-186 | However many relays counted its TTL down, a sealed envelope verifies and opens to what was sent |
| Envelopes.SigningCovers | crates/tom-protocol/src/envelope.rs:86-130 | The signing bytes are those of another envelope iff it differs at most in TTL and signature |
| Envelopes.VerifiesIffUntouched | crates/tom-protocol/src/envelope.rs:86-186 | With a signature scheme that binds, an envelope under another's signature verifies iff only its TTL was changed |
| Routing.Clamped | crates/tom-protocol/src/router.rs:280-282 | A read time is never in the future nor more than a week old, and unchanged if it was neither |
| Routing.Reversed | crates/tom-protocol/src/router.rs:341-341 | The relay chain backwards |
| RouterObjects.RouterObject.Route | crates/tom-protocol/src/router.rs:151-175 | One call is one event of a run: the engine and the books of what it has delivered, acknowledged and accepted advance together and stay sound |
| RouterObjects.RouterObject.Retain | crates/tom-protocol/src/router.rs:178-184 | The loop keeps exactly the entries younger than the lifetime |
| RouterObjects.RouterObject.CleanUpCaches | crates/tom-protocol/src/router.rs:178-184 | Keeps exactly the deliveries of the last 600 s and the ACKs of the last 300 s, so that what it forgets can no longer be a repeat |
| RouterObjects.RouterObject.RouteContent | crates/tom-protocol/src/router.rs:201-228 | Delivers only what was not delivered in the last ten minutes and, if encrypted, whose nonce is not recent; drops only what was delivered, or what is encrypted and has a recent nonce |
| RouterObjects.RouterObject.RouteAck | crates/tom-protocol/src/router.rs:230-258 | Rejects iff malformed; reports an ACK only if none like it was reported in the last five minutes; drops only what was reported |
| RouterObjects.RouterObject.RouteReceipt | crates/tom-protocol/src/router.rs:260-289 | The same for read receipts, reported with their own time unless it is in the future or more than a week old |
| RouterObjects.RouterObject.ForwardInChain | crates/tom-protocol/src/router.rs:291-314 | Passes to the next relay or the recipient, with one hop less and a relay ACK |
| RouterObjects.RouterObject.ForwardDirect | crates/tom-protocol/src/router.rs:316-331 | A node outside the chain passes to the recipient |
| RouterRuns.KeysInjective | crates/tom-protocol/src/router.rs:203-271 | Two cache keys are equal iff they stand for the same event, as long as node ids contain no colon |
| RouterRuns.KeysCollideWithColons | crates/tom-protocol/src/router.rs:203-203 | With a colon in a node id two different messages share a key |
| RouterRuns.RepeatsAreFarApart | crates/tom-protocol/src/router.rs:201-289 | Equal deliveries are at least 600 s apart, equal ACKs and receipts at least 300 s, over any run |
| RouterRuns.DropsOnlyRepeats | crates/tom-protocol/src/router.rs:201-216 | A message is dropped only if it was delivered before, or it is encrypted and its nonce is among the last 50,000 accepted |
| RouterRuns.AckDropsOnlyRepeats | crates/tom-protocol/src/router.rs:230-289 | An ACK or read receipt is dropped only if that very one was reported before |
| RouterRuns.NonceRecursLate | crates/tom-protocol/src/router.rs:208-216 | A nonce is accepted again only after 50,000 others |
| RouterRuns.StepAcceptsNonce | crates/tom-protocol/src/router.rs:208-216 | A nonce is accepted exactly when an encrypted message is delivered, and was not among the last 50,000 |
| RouterRuns.EncryptedReplaysAreFarApart | crates/tom-protocol/src/router.rs:208-216 | In every run, two encrypted messages with one nonce are delivered only with 50,000 other encrypted deliveries in between |
| RouterRuns.FreshIsDelivered | crates/tom-protocol/src/router.rs:178-228 | After housekeeping, a message that was not delivered in the last ten minutes and has no recent nonce is delivered |
| RouterRuns.FullCachesAreYoung | crates/tom-protocol/src/router.rs:218-250 | Beyond 10,000 entries a cache holds only entries within their lifetime |
| RouterRuns.RejectTells | crates/tom-protocol/src/router.rs:151-310 | Exactly when an envelope is rejected, and for what reason |
| RouterRuns.ReceiptTime | crates/tom-protocol/src/router.rs:280-282 | A receipt is reported with its own time, or with the nearest bound if it is in the future or more than a week old |
| RouterRuns.PushKeepsLast | crates/tom-protocol/src/router.rs:208-216 | As used here the least-recently-used cache is a queue of the last nonces accepted |
| Journeys.FollowsRoute | crates/tom-protocol/src/router.rs:151-331 | A forward is one hop of the journey, with unchanged signing bytes |
| Journeys.ReachesIff | crates/tom-protocol/src/router.rs:151-331 | For every envelope: exactly when it reaches its recipient, through which relays, and with what TTL |
| Journeys.DistinctRelaysReachIff | crates/tom-protocol/src/router.rs:291-314 | Through distinct relays it arrives iff the TTL is at least their number, visiting them in order |
| Journeys.DeliveryAckReturnsIff | crates/tom-protocol/src/router.rs:334-343 | For every chain that is not too deep, the delivery ACK gets back iff the reversed chain does not loop |
| Journeys.DeliveryAckReturns | crates/tom-protocol/src/router.rs:334-343 | Over distinct relays the delivery ACK always gets back over the reversed chain |
| Journeys.RelayAckIsDirect | crates/tom-protocol/src/router.rs:346-354 | A relay ACK reaches the original sender in one call |
| Journeys.AckCanLoop | crates/tom-protocol/src/router.rs:334-343 | With a repeated relay the message can arrive and its ACK be lost |
| Journeys.SealedDelivery | crates/tom-protocol/src/envelope.rs:255-284 | Sealed, signed, relayed over distinct relays: it arrives, verifies and opens |
| Amplification.RouteUsesWeight | crates/tom-protocol/src/router.rs:151-354 | Every call of `route` uses up weight, in any cache state; exactly one unit unless it drops a message |
| Amplification.CallsAreBounded | crates/tom-protocol/src/router.rs:151-354 | The calls of any run are at most the weight of what was in flight |
| Amplification.OneMessageIsBounded | crates/tom-protocol/src/router.rs:151-354 | One message causes at most `CallsFor` calls of `route` in the whole network, under any schedule, losses and caches |
| Amplification.OneMessageAttains | crates/tom-protocol/src/router.rs:151-354 | In every network that has its nodes and has not seen it, some run makes that many, loses nothing and ends with nothing in flight |
| Amplification.CallsWithinMost | crates/tom-protocol/src/router.rs:151-354 | For TTL `t` that is at most `max(2 * min(t, 4) + 10, 2t + 1)` |
| Amplification.MostCallsIsAttained | crates/tom-protocol/src/router.rs:151-354 | For every TTL some message causes exactly that many |
| Deliveries.LosslessDeliveryIff | crates/tom-protocol/src/router.rs:151-354 | In every run that loses nothing and ends with nothing in flight, whatever the order, the recipient's router has delivered the message iff its chain and TTL carry it there, and the sender's has reported the delivery ACK iff, besides, the reversed chain does not loop |
| Deliveries.DistinctRelaysDeliver | crates/tom-protocol/src/router.rs:151-354 | Over distinct relays that the TTL covers, every such run delivers the message and tells its sender |
| Tracking.StepProgresses | crates/tom-protocol/src/tracker.rs:94-192 | A status only rises, `Failed` is terminal and reached only from below `Delivered`, and retries never rise |
| Tracking.RunProgresses | crates/tom-protocol/src/tracker.rs:66-219 | The same over any run that does not track the id anew; a settled message is never due again |
| Tracking.RetrackingRegressesIff | crates/tom-protocol/src/tracker.rs:66-91 | Tracking a live id again lowers its status iff there is room and it had moved on |
| Tracking.RestoreAfterSnapshot | crates/tom-protocol/src/tracker.rs:236-274 | Restoring a snapshot keeps exactly the unsettled messages with recipient, status and retries, and a second snapshot records the same |
| Tracking.ReportsTellStatuses | crates/tom-protocol/src/tracker.rs:66-219 | Over any run, an application that follows the reported changes knows the status of every tracked message |
| Tracking.RetriesAreExact | crates/tom-protocol/src/runtime/state.rs:313-347 | Retries left plus retries made are the retries at the start; unless marked failed from outside, a message fails only when all are used up |
| Tracking.UnacknowledgedFailsIff | crates/tom-protocol/src/runtime/state.rs:313-347 | A message that nobody acknowledges, checked at any times: it is resent at each check that finds its deadline passed while retries are left, and has failed iff one more such check was made |
| Tracking.TrackedAnew | crates/tom-protocol/src/tracker.rs:66-91 | A new message is pending with two retries, due after 30 s and evicted after a day |
| Tracking.NewMessageIsTriedThrice | crates/tom-protocol/src/runtime/state.rs:313-347 | A new message that nobody acknowledges is resent at the first two checks that find it overdue and fails at the third |
| Tracking.StepMarks | crates/tom-protocol/src/tracker.rs:94-219 | Exactly when a step fails a message; otherwise its status is the higher of what it was and what it is marked with |
| Tracking.StatusIsHighestMark | crates/tom-protocol/src/tracker.rs:94-219 | Over any run, a message that has not failed has the highest status that it was ever marked with |
| Tracking.SnapshotKeepsAge | crates/tom-protocol/src/tracker.rs:236-274 | A saved record keeps the age of its message; a restored one is as new, and due after 30 s |
| TrackerObjects.MessageTracker.EvictExpired | crates/tom-protocol/src/tracker.rs:187-192 | The loop keeps exactly the messages younger than a day |
| TrackerObjects.MessageTracker.Track | crates/tom-protocol/src/tracker.rs:66-91 | Refuses iff there is no room even without the messages a day old; loses only such; the new one is due exactly from its deadline on |
| TrackerObjects.MessageTracker.Advance | crates/tom-protocol/src/tracker.rs:198-219 | The status becomes the higher of the two, no other entry changes, and the report is exactly the change |
| TrackerObjects.MessageTracker.MarkDelivered | crates/tom-protocol/src/tracker.rs:105-113 | Every entry makes progress or stays, the deadline is cleared, and the message is never due again |
| TrackerObjects.MessageTracker.MarkFailed | crates/tom-protocol/src/tracker.rs:124-141 | Fails a message iff it is unsettled; it is then never due again |
| TrackerObjects.MessageTracker.ResetDeadline | crates/tom-protocol/src/tracker.rs:145-150 | An unsettled message is next due exactly when the new deadline has passed |
| TrackerObjects.MessageTracker.DeliveryDeadlines | crates/tom-protocol/src/runtime/state.rs:313-347 | The loop handles each overdue message once: resent with its attempt number, given up, or left for lack of its envelope |
| TrackerObjects.MessageTracker.Restore | crates/tom-protocol/src/tracker.rs:260-274 | Every record is entered with a fresh deadline, over what is there; everything else stays |
| Networks.StepKeepsInv | crates/tom-protocol/src/runtime/state.rs:611-735 | Every honest event keeps the wire backed and the trackers truthful |
| Networks.SnapshotIsTruthful | crates/tom-protocol/src/runtime/state.rs:174-178 | What a node saves of a truthful tracker is truthful whenever it is restored |
| Networks.AckNamesRecipient | crates/tom-protocol/src/router.rs:334-343 | A delivery ACK that reaches the sender comes from the recipient on record |
| Networks.ReportsAreMarked | crates/tom-protocol/src/runtime/state.rs:611-735 | Whatever a router reports reaches the tracker: the status rises to what was told |
| Networks.TrackersTellTheTruth | crates/tom-protocol/src/tracker.rs:94-219 | In every run, restarts from a saved state included, `Delivered` or `Read` in a tracker means that the recipient's router has returned `Deliver` for that message, and `Relayed` that some router has forwarded it |

## Left out

- Zero-length connection IDs: `cid_len > 0` throughout, so the two maps by address stay empty and are not modelled.
- `set_server_config`: the server configuration is fixed for a run, as the buffer limits presuppose.
- Packet decoding, TLS, header protection, tokens and qlog: their answers are parameters of the operations.
- Slab keys and generated IDs are parameters too: a free key, and the generator's results up to the first free ID. That the retry loop of `new_cid` ends depends on randomness.
- Machine integers are unbounded, except VarInt ids and rounds, which saturate as in the source; the buffer limits make a `checked_add` overflow a refusal either way, and the subtraction in `cids_exhausted` is proved not to underflow if generated IDs have the announced length.
- Bloom filter size, hash quality and false-positive rates: the bits of an item are a parameter, and when the hash set outgrows its budget is an answer of each presentation.
- MessagePack encoding: a payload is what it decodes to. Ed25519 and the AEAD are functions with their round-trip laws as hypotheses.
- Envelopes and the reset, ID and message tables are values; sharing or aliasing inside the standard collections is not modelled.
- The network model lets the transport lose, delay, repeat and misdeliver, but nodes are honest: they send under their own name, with fresh ids, what `route` returns or what the application asks for. Where an envelope is handed over first follows runtime/executor.rs:42 and runtime/state.rs:668-676.
- One clock reading per call of `route`; the source reads the clock once for the clean-up and once for the entry. Readings never go back, as `Instant` promises.
- Group messages, backup, discovery, relay selection, HyParView, PlumTree, the gateway, FFI and user interfaces: other modules.
- The cache of nonces is the sequence that a least-recently-used cache stands for; the linked structure of the library is not modelled.
- `DeliveryDeadlines` takes the ids with a cached envelope as a parameter; the envelope cache itself, and the resending, are not modelled.
