# LAN multiplayer shim: a verified model

This project models the protocol core of a LAN replacement for two game services, the Party transport
(`party-shim`) and the PlayFab lobby service (`playfab-mp-shim`), together with the JSON accessors both use
(`common`) and the broker they talk to (`lan-server`). It proves what those parts promise over whole runs:
ordered and lossless delivery over a network that drops, repeats and reorders, state-change pumps that lose
and reorder nothing, a handshake that never hands a change out too early, mirrors and rosters that stay in
agreement, and parsers that give back what was printed.

`dafny verify dfyconfig.toml` checks everything.

## How the model is built

* Code that works in place is a class with the same fields, or a method with the same loop. Every such
  method is proved equal to a step function on values: `Reliable.Sender` and `Reliable.Receiver`,
  `Party.Handle`, `JsonScan.Scan`, `PeerPollTick.BrokerQueue` and `Networks`, `LobbyRefresh.LobbyHandle`,
  `LobbyPump.LobbyQueue`, `Roster.Announcer`, `FilterScan.Scanner`, `PartyRegistry.Broker`, and
  `Wire.BuildPacket` on a byte array.
* Runs are lists of events folded over those step functions (`Seqs.Fold`); an event that is not enabled
  changes nothing, so a theorem over all lists is a theorem over all interleavings. Threads are steps taken
  under the mutex the code holds. Clocks, HTTP answers, hash-map order and the network are event arguments.
* History that the program does not keep (what was sent, released, queued, handed out) is recorded beside
  the state and is only read by the statements.

| files | what they hold |
|---|---|
| `Common`, `SerialNumbers`, `Seqs` | optional values and numerals; 32-bit serial numbers (section 3.2 of RFC 1982); selection, subsequences and folding |
| `Reliable`, `Delivery`, `NoLoss`, `Progress`, `Bounds`, `Spaces`, `Timers` | one sender and one receiver joined by an arbitrary network |
| `Pump`, `Party`, `Handshake`, `Conservation`, `HandshakeProgress` | the Party state-change pump and the type 10 / 12 / 21 handshake |
| `PeerPoll`, `PeerPollRuns`, `PeerPollGuard`, `PeerPollTick`, `PeerPollAnswers` | the peer-poll protocol and its broker thread |
| `Json`, `JsonText`, `JsonLookup`, `JsonScan` | the JSON scanner, every JSON text, and the accessors |
| `LobbyMirror`, `LobbyRefresh`, `LobbyPump`, `Roster`, `RosterRuns`, `RosterMembers` | lobby deltas, the lobby pump, instances and rosters |
| `LobbyFilter`, `FilterPrint`, `FilterScan`, `LobbySort`, `PartyRegistry` | the broker's filter, sort and party registry |
| `Wire` | the datagram format |

## Findings

* The delivery laws have exact horizons, each shown by a run one send longer that breaks it: nothing is
  lost up to 2^31 guaranteed sends (`Bounds.NoLossExact`), out-of-order messages are released once up to
  2^31 + 1 (`Bounds.ReleasedOnceExact`), order holds up to 2^32 - 1 (`Bounds.InOrderExact`), and best-effort
  sequential delivery moves only forward up to 2^31 + 1 such sends (`Bounds.ForwardExact`) and takes every
  later arrival up to 2^31 (`Bounds.SequentialExact`).
* party-shim/src/lib.rs:1819-1820 says that the test for an outdated poll result cannot trigger. It cannot as long as the title
  calls from one thread. If the broker thread has died and a call creating a network runs queued work inline
  while the tick polls, an older answer can arrive last, and the test is what refuses it (`PeerPollGuard.RefusalExact`).
* playfab-mp-shim/src/lib.rs:2261-2262 says that after a failed post the next poll corrects the title's view.
  It does for a field exactly when the poll brings something other than the local value, or what the title
  already had (`LobbyMirror.NextPollCorrects`); after a post that the service applied although its answer was
  lost, the title stays behind through any refreshes, posts and reading until somebody gives the field another
  value (`LobbyMirror.LostEchoStays`).
* A post made through a lobby handle kept from a previous instance is answered in the new one
  (`RosterRuns.StaleHandleCrosses`). A title can tell beforehand: the answer crosses exactly when the handle was
  not made under the live instance (`RosterRuns.PostCrossesExact`), and nothing else ever crosses
  (`RosterRuns.CrossingExact`, `RosterRuns.NoCrossing`).

## Model

| member | source | states |
|---|---|---|
| `SerialNumbers.SeqAfterAgrees` | party-shim/src/reliable.rs:65-73 | `seq_after` on two counters taken modulo 2^32 agrees with `>` exactly in the half-open window of section 3.2 of RFC 1982 |
| `Reliable.Sender.Send` | party-shim/src/reliable.rs:182-228 | numbering in the two spaces, the pending copy, eviction of the lowest number at the cap and its report |
| `Reliable.Sender.OnAck` | party-shim/src/reliable.rs:232-245 | exactly the covered numbers leave `pending`, and are returned with their option words |
| `Reliable.Sender.NextRtoMs` | party-shim/src/reliable.rs:251-257 | the least deadline of the messages not given up, none if there are none |
| `Reliable.Sender.Due` | party-shim/src/reliable.rs:262-299 | every due message is served and reported once, and no other |
| `Reliable.Sender.DropAll` | party-shim/src/reliable.rs:302-308 | empties `pending`, restarts the numbering and returns how many messages were pending |
| `Reliable.Receiver.DrainRun` | party-shim/src/reliable.rs:411-419 | the run of buffered messages from the next number on, in order, markers releasing nothing |
| `Reliable.Receiver.OnMessage` | party-shim/src/reliable.rs:382-470 | the whole receive step in all four modes, duplicates, buffering and eviction included |
| `Reliable.Receiver.PiggybackAck` | party-shim/src/reliable.rs:474-477 | returns the cumulative ack and clears the debt |
| `Reliable.Receiver.NextAckDueMs` | party-shim/src/reliable.rs:481-483 | when the owed ack must be forced, if one is owed |
| `Reliable.Receiver.ForcedAck` | party-shim/src/reliable.rs:486-494 | an ack exactly when one is owed for at least 30 ms, clearing the debt |
| `Delivery.DrainReleases` | party-shim/src/reliable.rs:411-419 | what a drain releases is the sequential messages among the numbers it passes |
| `Delivery.AcceptAdvances` | party-shim/src/reliable.rs:394-455 | accepting a message advances the released prefix of the sends and releases exactly the sequential ones in between |
| `Delivery.InOrderDelivery` | party-shim/src/reliable.rs:182-228 | over every run with loss, duplication and reordering, in any mix of modes, the guaranteed sequential payloads released are the sequential ones among the first `g_next - 1` guaranteed sends, each once and in order, even when the buffer evicts |
| `NoLoss.NoGuaranteedMessageLost` | party-shim/src/reliable.rs:232-245 | in every reachable state each guaranteed message is released, pending or was reported evicted, and every ack in flight covers released messages only |
| `Progress.UnorderedDelivery` | party-shim/src/reliable.rs:421-455 | every acked message was accepted; each accepted nonsequential message was released, exactly once while no duplicate marker was evicted |
| `Progress.MarkerForgotten` | party-shim/src/reliable.rs:432-455 | a later copy of a nonsequential message is refused exactly while its marker is buffered, and released again once another arrival evicted it |
| `Progress.GivesWay` | party-shim/src/reliable.rs:182-228 | a full sender gives up its lowest pending number and reports it with its option word, a full receiver forgets its highest buffered number; neither gives up anything while there is room |
| `Progress.AnswerNames` | party-shim/src/reliable.rs:389-470 | a message buffered or dropped as out of order is reported with its own number and the one it was compared with |
| `Progress.Quiescence` | party-shim/src/reliable.rs:373-375 | nothing pending and nothing evicted by the sender: all messages released and the out-of-order buffer empty |
| `Progress.LowestIsNext` | party-shim/src/reliable.rs:394-455 | without sender eviction the lowest pending number is at or below what the receiver expects next |
| `Progress.RoundShrinks` | party-shim/src/reliable.rs:474-477 | delivering one copy of the lowest pending message and the resulting ack makes `pending` strictly smaller, whatever the buffer holds |
| `Progress.BacklogDrains` | party-shim/src/reliable.rs:232-245 | from every reachable state without sender eviction a schedule drains a backlog of any size, after which everything is released |
| `Bounds.NoLossExact` | party-shim/src/reliable.rs:65-73 | the no-loss law holds over all runs of at most n guaranteed sends iff n <= 2^31 |
| `Bounds.ReleasedOnceExact` | party-shim/src/reliable.rs:389-399 | the release-once law holds over all runs of at most n guaranteed sends iff n <= 2^31 + 1 |
| `Bounds.InOrderExact` | party-shim/src/reliable.rs:157 | the order law holds over all runs of at most n guaranteed sends iff n <= 2^32 - 1, because number 0 is not guarded |
| `Spaces.GuaranteedAlone` | party-shim/src/reliable.rs:389-470 | interleaved traffic gives the same guaranteed state and output as the guaranteed messages alone |
| `Spaces.BestEffortAlone` | party-shim/src/reliable.rs:456-470 | and the same best-effort state and output as the best-effort messages alone |
| `Spaces.BestEffortForward` | party-shim/src/reliable.rs:456-470 | best-effort sequential deliveries come from strictly later and later sends |
| `Spaces.SendReachesWire` | party-shim/src/reliable.rs:182-228 | every send in any of the four modes puts its message on the wire: numbered in its own space, or 0 for the plain best-effort ones |
| `Spaces.PlainReleased` | party-shim/src/reliable.rs:390-393 | in any state whatever, a plain best-effort arrival is handed out at once and leaves the guaranteed space alone |
| `Spaces.SequentialReleased` | party-shim/src/reliable.rs:456-470 | over every run of at most 2^31 best-effort sequential sends, an arrival is handed out exactly when its number is later than that of every one handed out before, and otherwise nothing is |
| `Bounds.ForwardExact` | party-shim/src/reliable.rs:456-470 | the forward law holds over all runs of at most n best-effort sequential sends iff n <= 2^31 + 1 |
| `Bounds.SequentialExact` | party-shim/src/reliable.rs:456-470 | arrivals are handed out exactly when they are later, over all runs of at most n best-effort sequential sends, iff n <= 2^31 |
| `Timers.RunOnBackoff` | party-shim/src/reliable.rs:262-299 | in every reachable state the timeout after r retries is min(60 * 2^r, 500) |
| `Timers.RetryBudget` | party-shim/src/reliable.rs:262-299 | at any service times a message is retransmitted at most 8 times, numbered in order, then reported given up at most once |
| `Timers.OffsetTable` | party-shim/src/reliable.rs:262-299 | the deadlines are at 60, 180, 420, 900, 1400, 1900, 2400, 2900 and 3400 ms |
| `Timers.DeadlineSchedule` | party-shim/src/reliable.rs:262-299 | a message served on its deadlines follows that table and gives up at the last one |
| `Timers.DueExactlyAtDeadline` | party-shim/src/reliable.rs:251-299 | without saturation `due` reports something iff the next deadline has passed |
| `Timers.DueMovesDeadline` | party-shim/src/reliable.rs:251-299 | after `due(now)` the next deadline is later than `now` |
| `Timers.ForcedAckDeadline` | party-shim/src/reliable.rs:486-494 | an owed non-lazy ack is sent by the first service at or after arrival + 30 ms unless piggybacked |
| `Pump.BatchShape` | party-shim/src/lib.rs:5308-5407 | a batch has at most 32 changes and a type 12 only in last place |
| `Pump.DrainKeepsOrder` | party-shim/src/lib.rs:5308-5407 | batch followed by what is left keeps the type-21s in order and the other changes in order |
| `Pump.DrainKeepsTypes` | party-shim/src/lib.rs:5308-5407 | batch and what is left hold the same number of changes of each type as before |
| `Pump.DrainGated` | party-shim/src/lib.rs:5308-5407 | no type 21 leaves with or before the type 12 it waits for |
| `Pump.DrainPlain` | party-shim/src/lib.rs:5308-5407 | without a hold a batch is the front of the queue up to the first type 12 or the room, and the rest stays in place |
| `Pump.DrainHeld` | party-shim/src/lib.rs:5308-5407 | with a hold it is the front of the other changes, cut in the same way |
| `Party.Handle.PendingCapDrop` | party-shim/src/lib.rs:1472-1485 | at 128 queued type-21s a further one is dropped and counted |
| `Party.Handle.QueueSc` | party-shim/src/lib.rs:1544-1562 | the change is appended and counted, or dropped and counted |
| `Party.Handle.DeliverReliable` | party-shim/src/lib.rs:1930-1983 | a datagram goes through the receiver and every released payload is queued in order |
| `Party.Handle.FlushPendingRx` | party-shim/src/lib.rs:1883-1912 | parked datagrams are delivered in order as soon as their remote and type 12 are there |
| `Party.Handle.RecvMessage` | party-shim/src/lib.rs:2143-2178 | the receive gates: deliver, park or drop |
| `Party.Handle.EnsureRemote` | party-shim/src/lib.rs:1666-1763 | a remote is created, and its type 12 queued, only past all gates; a known one moves to any address with a real port |
| `Party.Handle.NoteType12Hold` | party-shim/src/lib.rs:1494-1529 | each hold is stamped, and the answer says whether one stands, whether one timed out and how long the oldest has lasted |
| `Party.Handle.StartProcessing` | party-shim/src/lib.rs:5308-5407 | hands out the next batch, or the outstanding one unchanged |
| `Party.Handle.FinishProcessing` | party-shim/src/lib.rs:5467-5548 | reclaims at most 64 changes, sets the delivered flags they carry and frees the batch |
| `Handshake.HandshakeSafety` | party-shim/src/lib.rs:1682-1689 | over every run, a type 12 is handed out only after its network's type 10 was returned through Finish, and a type 21 only after its remote's type 12 was returned |
| `HandshakeProgress.FlagsExact` | party-shim/src/lib.rs:5532-5548 | over every run, `type10` of a network is set exactly when its type 10 came back through Finish, and `type12` exactly when a type 12 of one of its remotes did |
| `HandshakeProgress.ReceivedFrame` | party-shim/src/lib.rs:2143-2178 | over every run: with a local endpoint, a type 12 returned and a known remote, the frame and all parked ones before the first of an unknown remote go through their receivers, and everything released is queued or counted as dropped; otherwise the frame is parked last of at most 128 |
| `HandshakeProgress.FlushExact` | party-shim/src/lib.rs:1883-1912 | a flush of an open network delivers, in order, everything before the first frame of an unknown remote, and leaves the rest parked |
| `HandshakeProgress.EndpointFlushes` | party-shim/src/lib.rs:3518-3578 | creating the endpoint after a type 12 is back delivers what was parked, up to the first frame of an unknown remote |
| `HandshakeProgress.CallsSettle` | party-shim/src/lib.rs:3401-3516 | a fresh network is listed, blank and not connected; connecting and authenticating set their flags and nothing else |
| `HandshakeProgress.StepControls` | party-shim/src/lib.rs:1544-1562 | each operation queues exactly its own control changes, whatever the length of the queue |
| `HandshakeProgress.AnnouncedExact` | party-shim/src/lib.rs:1666-1763 | over every run, each remote a network knows has had its type 12 queued exactly once and no other remote has; a type 10 has been queued for exactly the networks with a local endpoint |
| `HandshakeProgress.AddressExact` | party-shim/src/lib.rs:1666-1763 | exactly when a remote may be heard, it is known afterwards, at the address it announced; nobody else moves |
| `HandshakeProgress.StartPlain` | party-shim/src/lib.rs:5308-5407 | a Start without a hold hands out the front of the queue |
| `HandshakeProgress.StartHeld` | party-shim/src/lib.rs:5308-5407 | a Start with a hold hands out the front of the other changes, and every type 21 stays in order |
| `HandshakeProgress.HoldRunsOut` | party-shim/src/lib.rs:1494-1529 | over every sequence of events in which a network waits for its type 12 from one Start to another ten seconds later, the second one hands out type-21s in their places |
| `HandshakeProgress.HoldHolds` | party-shim/src/lib.rs:1494-1529 | while a network waits and no hold is overdue, no type 21 is handed out |
| `HandshakeProgress.HoldForgotten` | party-shim/src/lib.rs:1494-1505 | a hold that is over when a batch is built is forgotten |
| `HandshakeProgress.LeaveStartsOver` | party-shim/src/lib.rs:5589-5649 | after a leave, in every reachable state, each known remote's pairing starts over: message 1 is the one expected and is handed out |
| `Conservation.BooksBalance` | party-shim/src/lib.rs:1544-1562 | over every run: handed plus pending is what was queued, per type and in order for type 21 and for the rest; at most 128 type-21s pending; the type-21s queued are the payloads released, in order, with exactly the dropped ones left out |
| `Conservation.QueuedAsReleased` | party-shim/src/lib.rs:1930-1983 | per remote, over every run: the type-21s queued carry, payload by payload and with the guaranteed and sequential bits, an in-order part of the messages its receiver released, and all of them while nothing was dropped |
| `Conservation.ReclaimedExact` | party-shim/src/lib.rs:5467-5548 | over every run, per type: what was handed out is what came back through Finish and the batch still outstanding |
| `Conservation.BatchesWellFormed` | party-shim/src/lib.rs:5308-5407 | every batch ever handed out is well formed, and one is outstanding exactly when there is one |
| `PeerPollTick.BrokerQueue.Coalesce` | party-shim/src/lib.rs:2852-2875 | overwrites the first queued registration of the same member, if any |
| `PeerPollTick.BrokerQueue.Push` | party-shim/src/lib.rs:2848-2895 | one registration per member, the oldest registration dropped at the cap, anything else appended |
| `PeerPollTick.Networks.PollPeersRequest` | party-shim/src/lib.rs:1767-1801 | the keep-alive registration when it is due, then one poll in flight unless the watchdog elapsed, numbered by the global counter and tagged with the box's epoch |
| `PeerPollTick.Networks.StorePoll` | party-shim/src/lib.rs:2965-2992 | a poll carried out leaves its answer under the epoch that asked |
| `PeerPollTick.Networks.PollPeersApply` | party-shim/src/lib.rs:1807-1829 | takes the box's own result, refuses one that is not newer, applies the rest |
| `PeerPollTick.Networks.ApplyResults` | party-shim/src/lib.rs:5241-5258 | the tick drops results of boxes that are gone and applies the others box by box |
| `PeerPollTick.TickIsRun` | party-shim/src/lib.rs:5241-5258 | that visit is a run of the protocol's apply steps |
| `PeerPollRuns.BrokerFifo` | party-shim/src/lib.rs:2825-2928 | over every run leaves and polls start in dispatch order, across the hand-over to inline mode, and the queue holds one registration per member |
| `PeerPollAnswers.EnqueuedHas` | party-shim/src/lib.rs:2848-2895 | the newest registration of a member is queued; of what was queued only its older one goes and, at the cap, the oldest registration |
| `PeerPollAnswers.RegistrationsBounded` | party-shim/src/lib.rs:2848-2895 | over every run, no more registrations wait for the broker than the cap of its queue |
| `PeerPollAnswers.LeaveTold` | party-shim/src/lib.rs:5589-5649 | a leave tells the broker the network and entity, and the box is neither listed nor connected |
| `PeerPollAnswers.KeepAliveTold` | party-shim/src/lib.rs:1767-1801 | a keep-alive registers the entity with its network and port |
| `PeerPollRuns.OnlyOwnResultsApplied` | party-shim/src/lib.rs:1807-1829 | over every run a box applies only answers to the one request with that number, which it made itself, and the numbers applied to a box strictly increase |
| `PeerPollAnswers.AnsweredExact` | party-shim/src/lib.rs:2965-2992 | over every run of either kind, the answers recorded are exactly those some step brought back for the poll it carried out, with that poll's epoch and number and the peers of that step |
| `PeerPollAnswers.AppliedAsAnswered` | party-shim/src/lib.rs:1807-1829 | whatever is applied to a box is such an answer, peers included |
| `PeerPollAnswers.VisitApplies` | party-shim/src/lib.rs:1807-1829 | with the title on one thread, a visit of a live connected box applies the answer waiting for it, exactly if there is one, and lets it ask again |
| `PeerPollAnswers.VisitTakes` | party-shim/src/lib.rs:1807-1829 | with any threads, a visit of a live connected box takes the answer waiting for it, newer or not, and lets it ask again |
| `PeerPollAnswers.RequestExact` | party-shim/src/lib.rs:1767-1801 | a request dispatches a poll exactly if none is in flight or the watchdog has elapsed |
| `PeerPollAnswers.PollComesBack` | party-shim/src/lib.rs:1767-1829 | from every reachable state in which no call runs inline, whatever is queued, in hand or in flight and whether the broker thread lives, a live connected box can ask and have the peers of its answer applied |
| `PeerPollAnswers.SweepExact` | party-shim/src/lib.rs:3009-3017 | the sweep drops exactly the answers of boxes that are gone |
| `PeerPollGuard.SerialNeverRefuses` | party-shim/src/lib.rs:1819-1823 | with the title on one thread no result is ever outdated, under every interleaving of tick, broker thread, its death, watchdog, leave and re-join |
| `PeerPollGuard.OvertakenAnswerRefused` | party-shim/src/lib.rs:1819-1823 | a run with a second title thread in which an outdated result arrives |
| `PeerPollGuard.RefusalExact` | party-shim/src/lib.rs:1819-1823 | the refusal is never taken over all runs iff the title calls from one thread |
| `JsonText.InsideRead` | common/json.rs:85-146 | every legal spelling of every string (plain, short escape, `\uXXXX`, surrogate pair; section 7 of RFC 8259) decodes to that string and stops right after it |
| `JsonText.EscapeRoundTrip` | common/json.rs:422-436 | a `json_escape`d string between quotes decodes to the original |
| `JsonText.UnclosedFails` | common/json.rs:85-146 | without a closing quote there is no string |
| `JsonText.LoneSurrogateFails` | common/json.rs:85-146 | half a surrogate pair, or a low half first, is refused |
| `JsonText.SkipPrint` | common/json.rs:149-207 | for every document in every layout, `skip_value` consumes exactly the printed value |
| `JsonLookup.FindPrint` | common/json.rs:221-239 | the key scan stops at the first member with that key in pre-order, never inside a string, and otherwise passes the whole value |
| `JsonLookup.SpanPrint` | common/json.rs:253-273 | kind, exact text and start of the value found |
| `JsonLookup.JsonStrPrint` | common/json.rs:277-290 | `json_str` gives the decoded string or the scalar's text of the first such member, nothing for null and containers |
| `JsonLookup.JsonObjPrint` | common/json.rs:319-381 | `json_obj` gives the flat members of the object found, later ones winning, until 64 keys are there |
| `JsonLookup.JsonObjFirst64` | common/json.rs:319-381 | with distinct keys it holds exactly the first 64 flat members |
| `JsonLookup.LaterEntryWins` | common/json.rs:373-375 | while there is room a later entry of a key replaces it and touches no other; a full map takes nothing more |
| `JsonLookup.JsonArrPrint` | common/json.rs:386-419 | `json_arr_objects` gives the exact text of the first 32 elements |
| `JsonScan.Scan.SkipWs` | common/json.rs:58-62 | the cursor moves past blanks |
| `JsonScan.Scan.Hex4` | common/json.rs:64-81 | four hex digits, or nothing |
| `JsonScan.Scan.String` | common/json.rs:85-146 | the decoding loop computes the string function on any input, malformed included |
| `JsonScan.Scan.SkipValue` | common/json.rs:149-207 | the recursive skip computes the skip function on any input |
| `JsonScan.FindValueStart` | common/json.rs:221-239 | the scan loop computes the lookup function on any input |
| `JsonScan.ReadStr` | common/json.rs:277-290 | `json_str` in place computes its function |
| `JsonScan.ReadObj` | common/json.rs:319-381 | `json_obj` in place computes its function |
| `JsonScan.ReadArr` | common/json.rs:386-419 | `json_arr_objects` in place computes its function |
| `JsonScan.JsonEscape` | common/json.rs:422-436 | the escape loop computes the escaping function |
| `LobbyMirror.ChangedExact` | playfab-mp-shim/src/lib.rs:1584-1603 | a key is reported iff its reading differs, added and removed keys included |
| `LobbyMirror.DiffExact` | playfab-mp-shim/src/lib.rs:1615-1652 | a delta covers exactly the fields that differ iff no member row was removed |
| `LobbyMirror.EmptyExact` | playfab-mp-shim/src/lib.rs:1612-1652 | nothing is announced iff nothing differs |
| `LobbyMirror.EnsureRowTwice` | playfab-mp-shim/src/lib.rs:529-562 | completing a member row is idempotent |
| `LobbyMirror.EnsureRowReads` | playfab-mp-shim/src/lib.rs:529-562 | completing a row touches its three entries only, keeps a usable one, and fills the others with the platform name, the account number and the default user name |
| `LobbyMirror.AccountOfA` | playfab-mp-shim/src/lib.rs:514-527 | a made-up account number is the decimal of a 64-bit hash with wrap-around |
| `LobbyMirror.RefreshKeepsRows` | playfab-mp-shim/src/lib.rs:1676-1706 | a refresh never removes a member row or a key of one |
| `LobbyMirror.RefreshReads` | playfab-mp-shim/src/lib.rs:1657-1727 | after a fresh answer the owner, the counts, the policies, the lobby and the search properties read as the broker's answer does |
| `LobbyMirror.RefreshReadsRows` | playfab-mp-shim/src/lib.rs:1676-1706 | a member entry reads as in the answer where it has one, else as before, the three completed entries apart; nothing changes when an empty roster is not believed |
| `LobbyMirror.PostReads` | playfab-mp-shim/src/lib.rs:3148-3290 | after a local post each field reads as the edit says, and as before where it says nothing |
| `LobbyMirror.PostReadsRows` | playfab-mp-shim/src/lib.rs:3148-3290 | likewise each member entry, the three completed ones apart |
| `LobbyMirror.MirrorAgrees` | playfab-mp-shim/src/lib.rs:1657-1727 | over every interleaving of refreshes, local posts, their answers and the title's reading, a field the title has wrong is announced by a change still to come or lost its echo with a refused post |
| `LobbyMirror.MirrorEqualsLobby` | playfab-mp-shim/src/lib.rs:1657-1727 | once everything announced has been read and no post was refused, the mirror equals the lobby |
| `LobbyMirror.MirrorEqualsBroker` | playfab-mp-shim/src/lib.rs:1657-1727 | over every history: after a fresh refresh, with everything announced read, no refused post and no post or other fresh answer since, the title reads what the broker answered |
| `LobbyMirror.LockToldFirst` | playfab-mp-shim/src/lib.rs:1341-1393 | over every history, the first change announced tells the membership lock, changed or not |
| `LobbyMirror.NextPollCorrects` | playfab-mp-shim/src/lib.rs:2259-2265 | after a refused post the next refresh puts a field right iff it brings something other than the local value, or what the title had |
| `LobbyMirror.LostEchoStays` | playfab-mp-shim/src/lib.rs:2259-2265 | after a post applied by the service whose answer was lost, the title's view of that field stays wrong over every list of further events that give the field no other value |
| `LobbyRefresh.ChangedKeyList` | playfab-mp-shim/src/lib.rs:1584-1603 | every differing key, once and in order |
| `LobbyRefresh.AscendingUnique` | playfab-mp-shim/src/lib.rs:1600-1602 | a set of keys has one ascending list, so the order above fixes the result |
| `LobbyRefresh.DiffLobby` | playfab-mp-shim/src/lib.rs:1615-1652 | the loops compute the delta |
| `LobbyRefresh.MergeRows` | playfab-mp-shim/src/lib.rs:1676-1690 | broker rows win, local rows and keys fill gaps, every row is completed |
| `LobbyRefresh.LobbyHandle.ApplyRefresh` | playfab-mp-shim/src/lib.rs:1657-1727 | new lobby, delta, departed members and the terminal case |
| `LobbyPump.LobbyQueue.Start` | playfab-mp-shim/src/lib.rs:2717-2760 | hands out everything queued, or the outstanding batch unchanged, with and without the cap |
| `LobbyPump.LobbyQueue.Finish` | playfab-mp-shim/src/lib.rs:2829-2880 | frees the batch iff count and array are the ones handed out |
| `LobbyPump.BatchesAreTheQueue` | playfab-mp-shim/src/lib.rs:2717-2782 | for any calls of any title, the distinct batches followed by `pending` are everything queued, in order |
| `LobbyPump.OutstandingFrozen` | playfab-mp-shim/src/lib.rs:2717-2782 | an outstanding batch stays unchanged until the Finish that names it |
| `LobbyPump.FinishExact` | playfab-mp-shim/src/lib.rs:2829-2880 | a Finish changes anything iff it is the matching one, and never `pending` |
| `LobbyPump.StartHandsAll` | playfab-mp-shim/src/lib.rs:2717-2760 | a Start with nothing outstanding hands out everything queued, or the first 32 with the cap |
| `Roster.Announcer.EmitMemberAdded` | playfab-mp-shim/src/lib.rs:1301-1318 | announces an entity once |
| `Roster.Announcer.AnnounceLobbyMembers` | playfab-mp-shim/src/lib.rs:1320-1327 | owner, then every member |
| `Roster.Announcer.RemoveDeparted` | playfab-mp-shim/src/lib.rs:1863-1882 | a MemberRemoved for each departed entity, which may then be announced again |
| `RosterRuns.RosterAlternates` | playfab-mp-shim/src/lib.rs:1861-1914 | over every history, per lobby and entity MemberAdded and MemberRemoved strictly alternate starting with Added, and `announced` holds exactly those whose last change is Added |
| `RosterMembers.RosterAnnounced` | playfab-mp-shim/src/lib.rs:1861-1914 | over every history, after a roster answer with no join of that lobby parked the title has been told of exactly the owner and the members listed |
| `RosterMembers.ParkedSilent` | playfab-mp-shim/src/lib.rs:1861-1914 | while a join of the lobby is parked an answer announces nobody; departed members still go |
| `RosterMembers.CreateSettles` | playfab-mp-shim/src/lib.rs:1976-2021 | an answered create announces its owner and completes, or drops the lobby; a lobby left meanwhile stays as it is |
| `RosterMembers.JoinSettles` | playfab-mp-shim/src/lib.rs:2023-2097 | an answered join takes the roster it was given, the joiner included, and completes or is parked; a failed one drops the lobby |
| `RosterMembers.BeginSettles` | playfab-mp-shim/src/lib.rs:2388-2610 | a create or join call makes a fresh pending lobby, which the live instance tracks once registered |
| `RosterMembers.LeaveSettles` | playfab-mp-shim/src/lib.rs:3330-3368 | a leave drops the lobby at once and queues its job; a lobby that is left takes no posts |
| `RosterMembers.JoinAnnounces` | playfab-mp-shim/src/lib.rs:1395-1432 | a completed join has announced the owner, every member and the joiner |
| `RosterMembers.JobAnswered` | playfab-mp-shim/src/lib.rs:1976-2270 | a job of the live instance ends with its own completion, an accepted post with its echo after it; the exceptions are a lobby left meanwhile and a join that is parked |
| `RosterMembers.ParkedAnswered` | playfab-mp-shim/src/lib.rs:1917-1931 | a parked join is answered when the host is ready |
| `RosterMembers.GoneDisconnects` | playfab-mp-shim/src/lib.rs:1861-1914 | a lobby the broker no longer knows is disconnected once, left and no longer tracked |
| `RosterMembers.PollIgnored` | playfab-mp-shim/src/lib.rs:1861-1914 | an answer for a lobby that is left, not tracked or not yet created is ignored; any other one ends with an Updated |
| `RosterRuns.NoCrossing` | playfab-mp-shim/src/lib.rs:1976-2097 | over every interleaving of calls, HTTP, Uninitialize and Initialize, a change queued in an instance comes from a job of that instance; a change about a lobby of another instance has been queued iff some post completed under its own instance through such a lobby, and none has if the title posts only through lobbies of the live instance |
| `RosterRuns.CrossingExact` | playfab-mp-shim/src/lib.rs:2228-2269 | one event from any reachable state queues a change about a lobby of another instance iff it completes a post of the live instance through such a lobby |
| `RosterRuns.PostCrossesExact` | playfab-mp-shim/src/lib.rs:3128-3146 | before it posts a title can tell: the answer crosses iff the handle was not made under the live instance |
| `RosterRuns.StaleHandleCrosses` | playfab-mp-shim/src/lib.rs:3318-3326 | a run in which the handle of a returned create is kept over Uninitialize and Initialize, and a post through it is answered in the new instance |
| `FilterPrint.ParsePrint` | lan-server/src/lobby_filter.rs:237-293 | supported clauses printed with quoted values and joined by `and` parse back to themselves |
| `FilterPrint.NormalForm` | lan-server/src/lobby_filter.rs:237-293 | for every text, printing the parsed clauses and parsing again gives the same clauses with nothing unsupported |
| `FilterPrint.KeyRead` | lan-server/src/lobby_filter.rs:171-197 | every key is read back from its text |
| `FilterPrint.QuotedRead` | lan-server/src/lobby_filter.rs:147-168 | a quoted value with doubled quotes is read back whatever it contains |
| `FilterPrint.SupportedExact` | lan-server/src/lobby_filter.rs:221-235 | a clause is kept iff it evaluates without error on every lobby |
| `FilterPrint.ClauseMeaning` | lan-server/src/lobby_filter.rs:396-477 | a printed clause matches exactly the lobbies it is true of: each operator on numbers, strings, the lock, the flags and the id, a missing value never |
| `FilterPrint.FailsClosed` | lan-server/src/lobby_filter.rs:75-82 | a filter with an unsupported part matches nothing, an empty one everything |
| `FilterPrint.OrIsReported` | lan-server/src/lobby_filter.rs:250-255 | a disjunction is reported as unsupported |
| `FilterPrint.KeyAliases` | lan-server/src/lobby_filter.rs:171-197 | the other names of the member count and the lobby id |
| `FilterPrint.PlusSign` | lan-server/src/lobby_filter.rs:171-197 | a key number may carry a plus sign |
| `FilterPrint.Conjunction` | lan-server/src/lobby_filter.rs:75-82 | two printed filters joined by `and` match a lobby iff both do |
| `FilterScan.Scanner.TakeBare` | lan-server/src/lobby_filter.rs:132-143 | the word loop computes the token function |
| `FilterScan.Scanner.TakeValue` | lan-server/src/lobby_filter.rs:147-168 | the quoted-value loop computes the value function |
| `FilterScan.ParseFilter` | lan-server/src/lobby_filter.rs:237-293 | the parse loop computes the parse function on any text |
| `LobbySort.LobbyLaws` | lan-server/src/lobby_filter.rs:491-517 | `cmp_lobbies` is a total preorder for every list of specs, missing values last in both directions, distances included |
| `LobbySort.SortedUpToTies` | lan-server/src/main.rs:1122-1153 | two sorted arrangements of the same rows differ only by exchanging ties |
| `LobbySort.Find` | lan-server/src/main.rs:1086-1158 | the first rows of a sorted arrangement of the matching ones, as many as asked for, at most 1000 |
| `LobbySort.AnswerIsTop` | lan-server/src/main.rs:1086-1158 | an answer is sorted, has the number of matching rows asked for, and no matching row it leaves out comes before one it has |
| `LobbySort.AnswerDirection` | lan-server/src/lobby_filter.rs:491-517 | in an answer no row stands behind one it precedes: the smaller or nearer value first, the larger or farther one if descending, missing values last, then the newest |
| `LobbySort.CountMeans` | lan-server/src/main.rs:1122-1158 | a positive count is the most that is returned, never more than 1000; otherwise everything found is |
| `LobbySort.FriendsFindNothing` | lan-server/src/main.rs:1076-1092 | a request with a friends filter finds nothing |
| `LobbySort.TopRows` | lan-server/src/main.rs:1086-1158 | the answer does not depend on the order the map gives the rows in, except for ties |
| `PartyRegistry.Broker.Join` | lan-server/src/main.rs:1432-1488 | sweep, cap, new member, newer join and older join |
| `PartyRegistry.Broker.Leave` | lan-server/src/main.rs:1517-1535 | removes the member unless the leave is older than its registration |
| `PartyRegistry.Broker.Peers` | lan-server/src/main.rs:1538-1575 | refreshes the caller, then sweeps |
| `PartyRegistry.JoinExact` | lan-server/src/main.rs:1456-1495 | a join registers its member iff it is known or there is room, at the newest address; everybody else is kept or swept by age |
| `PartyRegistry.LeaveExact` | lan-server/src/main.rs:1517-1535 | a leave removes its member unless it is tagged and older than the registration, and nobody else |
| `PartyRegistry.PeersExact` | lan-server/src/main.rs:1547-1565 | a poll keeps its caller whatever its age, and sweeps the others |
| `PartyRegistry.OtherNets` | lan-server/src/main.rs:1432-1575 | a request leaves every other network alone |
| `PartyRegistry.CapHolds` | lan-server/src/main.rs:1456-1468 | every network stays within the cap, which is read once at start, over every run |
| `PartyRegistry.LiveMemberStays` | lan-server/src/main.rs:1547-1565 | a member whose joins and polls are at most 30 s apart is never swept by any interleaving of other requests, nor removed by a leave older than its registration |
| `PartyRegistry.SweepExact` | lan-server/src/main.rs:1457 | another member's request removes a silent one iff more than 30 s have passed |
| `PartyRegistry.NewestJoinWins` | lan-server/src/main.rs:1469-1495 | after any tagged joins every member is at the address of its newest join |
| `PartyRegistry.OrderDoesNotMatter` | lan-server/src/main.rs:1469-1495 | the same tagged joins in any order leave every member at the same address |
| `Wire.ParsePacket` | party-shim/src/wire.rs:89-150 | a datagram of either build reads back field by field up to the payload cap and is refused beyond it, and its payload is the tail |
| `Wire.PacketStarts` | party-shim/src/wire.rs:89-118 | magic, kind, version and two zero bytes start every datagram |
| `Wire.IdsRoundTrip` | party-shim/src/wire.rs:153-167 | the ids come back cut to 20 and 16 bytes and at their first NUL |
| `Wire.OneVersion` | party-shim/src/wire.rs:129-138 | no buffer is accepted by both builds |
| `Wire.Parse` | party-shim/src/wire.rs:127-150 | an accepted buffer contains its whole declared payload |
| `Wire.AcceptedReads` | party-shim/src/wire.rs:127-150 | every field of an accepted buffer is read from its place in the format |
| `Wire.RefusedFor` | party-shim/src/wire.rs:127-150 | every refusal has its reason, looked for in order |
| `Wire.BuildPacket` | party-shim/src/wire.rs:89-118 | filling the buffer in place gives the datagram, padding included |

## Left out

- steam-http-shim: vtable and import hooking, foreign calls.
- The game-memory probes and all diagnostics of party-shim/src/lib.rs; `member_list_has_entity` is a boolean argument of the announce event.
- Sockets, threads, condition variables, HTTP, the WebSocket pump, files and configuration: their results are event arguments.
- Pointer layouts and byte offsets of state changes; allocation is taken to succeed.
- Boot crypto, SHA-1, base64, login tokens.
- The `PARTY_RELIABLE = false` paths of the transport; the wire format covers both builds.
- One side of a pairing restarting alone: the peer's counters go on while the new receiver starts at 1. A run is one lifetime of a pairing.
- Party.Handle.EnsureRemote: the HELLO datagram a new remote causes is not modelled; the hand-off list of peers seen on the wire is subsumed by announce events at any time.
- `next_transport_wait_ms` and `json_num` / `json_u32` / `json_i64`: they only combine functions that are modelled.
- Delivery.InOrderDelivery: speaks of non-empty payloads, as the export enforces; an empty sequential payload would be taken for a duplicate marker.
- JsonScan.Scan.String: works on code points; the UTF-8 lengths of multi-byte sequences are not modelled.
- PeerPollRuns.OnlyOwnResultsApplied: epochs and request numbers do not wrap at 2^64.
- Semantic equivalence of coalescing a registration across a queued leave: only the order of leaves and polls and one registration per member are stated.
- `lobby_from_json` (the lobby an answer describes is an argument) and the request bodies.
- LobbyMirror.EnsureRowReads: the account number of a non-numeric entity id hashes characters, not UTF-8 bytes; the two agree on ASCII ids.
- LobbyMirror.MirrorAgrees: the mirror's life starts with the full read at completion; deltas withheld while a join is pending precede it.
- LobbyFilter: numbers are reals given by a partial parser, so NaN and rounding are not modelled; unsupported texts are kept untrimmed; case folding is ASCII.
- LobbySort.Find: sorts by insertion in place of the library's merge sort, which it is only required to agree with up to ties.
- `parse_sort` and `parse_lan1`: splitting of short texts.
- The lobby handlers of the broker other than find (create, join, leave, update).
- Wire.IdsRoundTrip: returns bytes; the lossy UTF-8 decoding of an id is not modelled.
