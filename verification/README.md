# qstream verification

qstream replicates HLS segments between peers over UDP. This project models its protocol
logic in Dafny and proves what that logic is for: a segment arrives byte for byte whatever the
network does, every transfer can be finished and every timer-driven retry ends, the download
scheduler loses and duplicates no work, and inventories, leases, messages, dates and playlists
mean what they are meant to mean.

`dafny verify dfyconfig.toml` checks everything.

## How it is organised

| modules | part of qstream |
|---|---|
| `WindowSchedule`, `Segments`, `Assembly` | windows 5, 10, 20, 40, 64, ..., packets of a file, reassembly in any map order |
| `SenderMachine`, `ReceiverMachine`, `ReceiverLaws`, `ReceiverTimers` | the two transfer machines, as step functions and as classes that take exactly those steps; what a receiver does in silence and how it ends |
| `Network`, `Recovery`, `Lossless` | one transfer over a network that loses, repeats, reorders and delays; progress from any state, a lost final ACK included; the exact cost when nothing is lost |
| `Registry`, `RegistryWalks`, `ManyTransfers`, `Fetching`, `Wire` | all transfers of a node and one tick of them, two nodes with all their transfers at once, what can be fetched and what is recorded, and the datagrams as encoded messages |
| `FaultChannel`, `FaultFates` | the fault injector, which is the actual channel, and what becomes of each datagram under given rolls |
| `PeerChoice`, `Scheduler`, `SchedulerSteps`, `SchedulerLaws`, `Evictions` | `pick_peer`, `sync_queue`, `schedule_jobs`, what each step does to each container, what every run keeps, and when a peer is evicted |
| `Inventory`, `SeedLeases` | the 16-bit inventory and its cache, the origin's lease policy |
| `Codec`, `CodecLayout`, `Text` | the wire format as a round trip and byte by byte, numbers and names as text |
| `Calendar`, `Playlist`, `PlaylistParts`, `PlaylistLaws` | civil dates from day numbers, the player's playlist part by part and as a whole |

Code that updates an object is a class whose methods are proved equal to a step function on
values; the step function is what the lemmas are about. Whole runs are sequences of steps.

The transfer is joined by a log of every datagram ever sent. Any of them may be delivered at any
later time, any number of times, in any order, or never, and the serving node may answer each
delivered request afresh. Timers are enabled steps: a tick carries the information which
deadlines have passed. Rolls, the iteration order of maps, fresh transfer ids and the success of
file writes and socket sends are arbitrary.

## Findings

These hold of the code as it is, and differ from what one might expect.

- A file longer than 65535 packets of 1400 bytes is truncated silently; `Network.EndToEnd` says
  that the written bytes are the file exactly up to that size and not beyond it.
- NOT_FOUND overwrites an outcome that was a success: a saved receiver stays saved exactly until the
  first one arrives (`ReceiverLaws.SavedUntilRefused`), and a duplicate request that is refused is
  enough to send one (`Network.LateRefusalOverwritesSaved`).
- After an ACK that names no packet, or a range of no packets, the sender does not give up but sits
  still for ever, with one exception: an ACK outside the file that comes when all 30 retries are
  spent. `SenderMachine.GivesUpExactly` says so for every ACK. An honest run never gets there
  (`Network.AckNeedsNoClamp`).
- `next_deadline` can come after the time at which a held datagram is due. It is the first release
  time in every run exactly for the configurations named by `FaultChannel.WakeUpIsFirstRelease`;
  half of the datagrams held and a latency of one second is not among them
  (`FaultChannel.SlowLatencyOverlooks`).
- A name that leaves the manifest while it is pulled and comes back is queued beside its own pull
  (`SchedulerLaws.ReturningNameIsDuplicated`), and a failed pull of a name that has left is queued
  without being in `queued` (`SchedulerLaws.QueueStaysWithinQueued`). `ReturningNameIsReached` and
  `UnlistedNameIsReached` are runs from the start that end so.
- A peer is evicted by its third silence in a row, where "not ready" answers in between do not count
  as answers (`Evictions.EvictionTakesThreeSilences`); `Evictions.NotReadyDoesNotHelp` is a run in
  which a peer is silent, not ready, silent and silent, and evicted.
- No job is ever lost if and only if turns of the event loop are shorter than the grace period of
  4 s (`SchedulerLaws.TurnLengthDecides`); a lost job keeps its slot until its id is drawn again
  (`SchedulerLaws.LostJobKeepsSlot`).
- An advertising peer yields to the bootstrap exactly if the bootstrap is an advertising parent and
  no other parent advertises (`PeerChoice.PeersComeBeforeBootstrap`; `PeerChoice.OriginBeatsPeer` has
  such a case).
- An inventory from the wire can revoke a negative answer for segment 0 that it does not
  contradict, through the saturating subtraction; `Inventory.OnlyHarmlessInventoriesAgree` says for
  which inventories, and `Inventory.BelowZeroIsHarmful` names one. Those a store produces are never
  among them.
- A name that looks like a tag after trimming is listed by the playlist but is not parsed from it
  again (`PlaylistLaws.ReparsedPlaylist`, `PlaylistLaws.NoTagsToDrop`, and `PlaylistLaws.TagLikeNameIsNotParsed`
  with a playlist of one segment).
- The codec would cut a request for a name of more than 65535 bytes (`Wire.EverythingSentArrives`). It
  is a limit of the codec only: the scheduler asks for valid names, and those fit (`Wire.ValidNamesFit`).

## Model

| member | source | states |
|---|---|---|
| WindowSchedule.WindowsTile | src/transfer.rs:480-498 | the windows that start within 1..N are exactly the first W(N); each begins where the one before ends, and the last ends at N |
| WindowSchedule.NextWindow | src/transfer.rs:488-493 | doubling the count, capped at 64 and clipped to what remains, leads from window k to window k+1 |
| WindowSchedule.FirstWindow | src/transfer.rs:137-144 | the initial range of a new transfer is window 0 |
| Segments.CarriedIsWholeFile | src/transfer.rs:101-103 | a file is carried completely if and only if it has at most 65535 packets |
| Segments.PacketsAreInFile | src/transfer.rs:225-234 | every packet number in range has an in-bounds slice of the file |
| Assembly.AnyOrderJoins | src/transfer.rs:505-526 | whatever the iteration order of the packet map, the copying loop yields the payloads joined in number order |
| Assembly.SlicesJoin | src/transfer.rs:218-237 | the slices of a file, joined, are the carried part of the file |
| SenderMachine.SenderTransfer.constructor | src/transfer.rs:136-152 | a new sender stands at the first window with nothing sent |
| SenderMachine.SenderTransfer.SendPackets | src/transfer.rs:218-237 | sends exactly the given run of consecutive packets with their slices of the file |
| SenderMachine.SenderTransfer.TickOnce | src/transfer.rs:168-216 | one tick is the step `Tick`: a chunk, an ACK timeout, a failure or nothing |
| SenderMachine.SenderTransfer.OnAckProgress | src/transfer.rs:240-269 | a Progress ACK moves the sender to the named range, clamped, or to the empty one |
| SenderMachine.TickStaysInRange | src/transfer.rs:168-237 | a tick sends at most 8 consecutive packets of the current range, starting with the first unsent one |
| SenderMachine.TickNeedsItsDeadline | src/transfer.rs:168-216 | a tick does something only for its deadline: the pacing one in a pass, which sends the next 8 packets or the rest, the ACK timer after it, which starts one pass more or, with 30 retries spent, fails |
| SenderMachine.AckAsksExactly | src/transfer.rs:240-269 | a Progress ACK inside the file asks for exactly those packets it names that the file has, with the retries renewed; one outside it asks for none |
| SenderMachine.SilentPasses | src/transfer.rs:174-214 | without ACKs the packets sent are whole in-order passes over the range and a part of one more; failure comes exactly after pass 31 |
| SenderMachine.GivesUpExactly | src/transfer.rs:189-265 | after any Progress ACK and enough expired timers the sender has failed if and only if the ACK named a packet and at least one of them, or named none and came with all retries spent; otherwise it has sent nothing |
| SenderMachine.NewSenderGivesUp | src/transfer.rs:136-214 | a new sender that hears nothing fails after enough expired timers |
| SenderMachine.EmptyRangeTimesOutOnce | src/transfer.rs:189-213 | on an empty range with its timer armed a sender has one ACK timeout and nothing else |
| SenderMachine.EmptyRangeStalls | src/transfer.rs:174-188 | on an empty range without a timer it never sends or fails again |
| ReceiverMachine.AssembleFile | src/transfer.rs:505-526 | the in-place copying loop computes `Assembled` for the order in which it met the packets; with all packets of a file held that is the payloads joined in number order |
| ReceiverMachine.CopyInto | src/transfer.rs:510-513 | copies one payload into its slot of the buffer, or nothing if it does not fit |
| ReceiverMachine.ReceiverTransfer.CompleteTransfer | src/transfer.rs:505-556 | writes the assembled file and sends COMPLETE, or fails without sending when the write fails |
| ReceiverMachine.ReceiverTransfer.HandleContent | src/transfer.rs:409-478 | one content packet is the step `OnContent` in every branch |
| ReceiverMachine.ReceiverTransfer.AdvanceWindow | src/transfer.rs:480-503 | the step to the next window, with the truncations and the wrapping subtraction of the code |
| ReceiverMachine.ReceiverTransfer.HandleTick | src/transfer.rs:558-618 | one tick is the step `OnTick`: request resent, silence reported, range asked for again, or failure |
| ReceiverMachine.ReceiverTransfer.HandleNotFound | src/transfer.rs:354-357 | records the refusal and fails whatever the outcome was |
| ReceiverLaws.AdvanceIsNextWindow | src/transfer.rs:488-498 | in a window that is not the last nothing underflows, nothing is truncated, the `remaining == 0` branch is dead, and the result is the next window |
| ReceiverLaws.ReceiveInWindow | src/transfer.rs:426-477 | any packet in a window leaves the receiver in that window, in the next one, or finished |
| ReceiverLaws.ContentKeepsCoherent | src/transfer.rs:409-478 | under arbitrary packets a running receiver holds exactly what is below its window and a strict part of it |
| ReceiverLaws.TickKeepsCoherent | src/transfer.rs:558-618 | timers keep that invariant |
| ReceiverLaws.EveryRun | src/transfer.rs:409-618 | over every run of packets, timers and refusals the invariant holds, at most one file is written, and re-requests are at most 8 for each window passed plus the current retry count |
| ReceiverLaws.QuietPeriodsAreBounded | src/transfer.rs:592-613 | at most 8 W(N) re-requests and 8 W(N) + 1 quiet expiries, whatever packets arrive |
| ReceiverLaws.OutcomeIsFinal | src/transfer.rs:415-422 | content and timers never change an outcome and never write again |
| ReceiverLaws.SavedUntilRefused | src/transfer.rs:866-875 | over every run and continuation a saved receiver stays saved if and only if no NOT_FOUND arrives, and is failed after one |
| ReceiverTimers.SilentSource | src/transfer.rs:558-591 | what a receiver does whose source never answers, for every sequence of ticks: one more request exactly at the first tick past half the time, and the verdict "silent" exactly at the first expiry in a tick that does not send it |
| ReceiverTimers.SilentSourceIsReported | src/transfer.rs:583-590 | over every run a running receiver without a packet or a window is finished as silent after at most two expired ticks, with no window ever asked for |
| ReceiverTimers.EmptyWindowIsReported | src/transfer.rs:583-590 | the same if a packet it could not use has fixed its window already |
| ReceiverTimers.FallsSilent | src/transfer.rs:592-613 | when a source falls silent in the middle the window is asked for again at each quiet deadline until the retry count is 8, and the next one fails the pull |
| ReceiverTimers.FinishedReceiverReplies | src/transfer.rs:415-422 | a saved receiver answers every content packet with COMPLETE and nothing else, a failed one with nothing |
| ReceiverTimers.RefusalDecides | src/transfer.rs:354-357 | after a refusal the verdict is "not ready" or "missing" as the refusal said, whatever arrives later but another refusal, unless the pull had been given up as silent before |
| ReceiverTimers.LastPacketEnds | src/transfer.rs:505-556 | the last packet missing ends the pull: with a file written and COMPLETE, or, if the write fails, as broken and without an answer |
| ReceiverTimers.SavedBytesAreWritten | src/transfer.rs:528-556 | over every run the size recorded is that of the file written |
| Network.StepHolds | src/transfer.rs:409-478 | every step of the joined machines keeps the cross-machine invariant, and the receiver's window never goes back |
| Network.AckNeedsNoClamp | src/transfer.rs:243-265 | an honest ACK never reaches the bogus-range branch and never needs the count clamp |
| Network.StraysComeFromBelow | src/transfer.rs:445-456 | a packet outside the window comes from below it |
| Network.EndToEnd | src/transfer.rs:505-556 | for every file and every run: at most one write, of the file's carried bytes, equal to the file if and only if it has at most 65535 packets; COMPLETE in flight or `Served` implies the write |
| Network.OneSchedule | src/transfer.rs:243-258 | receiver range, sender range and every Progress ACK ever sent are windows of one schedule, none beyond the receiver's |
| Network.LateRefusalOverwritesSaved | src/transfer.rs:860-882 | a run in which a saved file's receiver is turned into a failed one by the refusal of a duplicate request |
| Recovery.Realign | src/transfer.rs:445-456 | a stray nudges the sender to the receiver's window, at the cost of at most one pass over the sender's range |
| Recovery.MoreWithinTwoPasses | src/transfer.rs:177-258 | from every reachable state with a live sender and a running receiver, with everything in flight lost, at most 128 content packets, one pass over each side's window, finish the transfer or leave the receiver strictly more packets |
| Recovery.CanAlwaysFinish | src/transfer.rs:177-213 | from every such state some continuation saves the file and frees the sender, with at most 64 content packets more than the file has |
| Recovery.LostCompleteIsRepeated | src/transfer.rs:415-423 | from every reachable state with a saved receiver and a live sender with a retry left, with everything in flight lost, one pass over the sender's range at most frees the sender and records one more `Served` |
| Lossless.MoveHolds | src/transfer.rs:168-258 | a loss-free step keeps the invariant of the joined machines and uses up work |
| Lossless.NeverStuck | src/transfer.rs:168-258 | until the transfer is over a loss-free step is possible |
| Lossless.ExactCost | src/transfer.rs:470-498 | a loss-free transfer ends after N content packets, W(N) - 1 Progress ACKs and one COMPLETE, the file saved |
| Registry.TransferRegistry.constructor | src/transfer.rs:648-655 | a new registry has no transfers and no events |
| Registry.TransferRegistry.FreshId | src/transfer.rs:682-689 | an id that is not 0 and in use by no sender and no receiver exists and is returned |
| Registry.TransferRegistry.ServeRequest | src/transfer.rs:707-751 | a request creates a sender for the file, or is refused for its name, a full registry or a missing file |
| Registry.TransferRegistry.BeginPull | src/transfer.rs:773-795 | a pull starts under a fresh id and sends its request, unless the registry is full |
| Registry.TransferRegistry.HandleContent | src/transfer.rs:797-815 | content reaches the receiver of its id and nothing else |
| Registry.TransferRegistry.HandleAck | src/transfer.rs:817-840 | an ACK reaches the sender of its id; COMPLETE removes it with a `Served` event |
| Registry.TransferRegistry.HandleNotFound | src/transfer.rs:860-882 | a refusal reaches the receiver of its id and names its file |
| Registry.TransferRegistry.TickAllSenders | src/transfer.rs:930-946 | the walk with deferred removal equals ticking each sender once, in some order, with immediate removal |
| Registry.TransferRegistry.TickAllReceivers | src/transfer.rs:948-961 | likewise for receivers: running ones tick, finished ones go when their grace period is over |
| Registry.SilentMeansNoPacket | src/transfer.rs:563-590 | in every run a source is counted as silent only if the receiver holds no packet of it |
| Registry.ServesExactly | src/transfer.rs:707-751 | a request leaves a sender for that file and peer under its id, silently, if and only if the name is valid, fewer than 32 transfers are active and the file exists; otherwise it is answered NOT_FOUND and no transfer changes |
| Registry.RejectionIsAnswered | src/transfer.rs:756-771 | a refusal by policy is answered and recorded like a missing file and says whether to come back |
| Registry.AckEndsOrMoves | src/transfer.rs:817-840 | COMPLETE frees the sender of its id and records its peer and the size of its file; Progress moves it and records nothing |
| RegistryWalks.SendersWalk | src/transfer.rs:930-946 | one tick of all senders: each ticks once by its own timers, and goes exactly if it failed |
| RegistryWalks.FailuresAreReported | src/transfer.rs:930-946 | events and senders together stay as many: each sender that goes is one failure event with its peer |
| RegistryWalks.SenderOrderIsFree | src/transfer.rs:930-946 | the order in which the map is walked makes no difference to the senders nor to the number of events |
| RegistryWalks.ReceiversWalk | src/transfer.rs:948-961 | one tick of all receivers: running ones tick, finished ones stay as they are and go exactly when their grace period is over |
| RegistryWalks.ReceiverOrderIsFree | src/transfer.rs:948-961 | the order in which the map is walked makes no difference |
| ManyTransfers.StepIsSingle | src/transfer.rs:797-840 | through its own id a step of two whole nodes is a step of the single transfer, through every other id it is none |
| ManyTransfers.StepHolds | src/transfer.rs:624-629 | every step of two whole nodes keeps the invariant of every transfer started |
| ManyTransfers.EveryWriteIsTheServedFile | src/transfer.rs:505-556 | over every run of two nodes each file written is the served file of that name, each id writes at most once, and a `Served` event or a pull reported as saved means that its pull has written |
| Fetching.EveryFileCanBeFetched | src/transfer.rs:707-751 | for every valid name of a served file some run of two nodes from the start writes that file under that name |
| Fetching.EventsMatchAnswers | src/transfer.rs:817-840 | over every run the `Served` events are, one for one and in order, the acknowledged transfers with the sizes of their files, and there is one NOT_FOUND event for each NOT_FOUND sent |
| Wire.EverythingSentArrives | src/protocol.rs:227-437 | every datagram in every such run decodes to exactly what was encoded, if and only if it is no request for a name of more than 65535 bytes; content datagrams have at most 1414 bytes |
| Wire.ReadAsSent | src/protocol.rs:227-437 | in every such run whatever is sent and fits is read at the other node as the very transfer packet that was sent, and as no other |
| Wire.ValidNamesFit | src/transfer.rs:106-113 | a valid file name always fits |
| Wire.NamesDiffer | src/protocol.rs:518-520 | different names have different encodings |
| Wire.Utf8Exactly | src/protocol.rs:518-520 | a byte string is accepted as a name if and only if it is the encoding of some text |
| FaultChannel.FaultInjector.Roll | src/fault.rs:43-51 | a roll is true from 100 percent on, false at 0, and either in between |
| FaultChannel.FaultInjector.SendDatagram | src/fault.rs:156-175 | one send is the step `Send` for the rolls it made |
| FaultChannel.FaultInjector.RunPipeline | src/fault.rs:130-153 | one pass of the pipeline is the step `Pipeline`: copies, drops, delays, socket errors |
| FaultChannel.FaultInjector.DrainDue | src/fault.rs:178-197 | one drain is the step `Drain` |
| FaultChannel.SendConserves | src/fault.rs:156-175 | no send loses track of a datagram or makes one up |
| FaultChannel.DrainConserves | src/fault.rs:178-197 | nor does a drain |
| FaultChannel.ChannelLaw | src/fault.rs:130-197 | over any run offered plus extra copies equals dropped, emitted, delayed, held and failed; what comes out was offered and comes out at most twice |
| FaultChannel.ReorderingOnlySwapsNeighbours | src/fault.rs:160-172 | with reordering alone the output is the input up to disjoint swaps of neighbours |
| FaultChannel.NothingDueSurvives | src/fault.rs:178-197 | after a drain nothing that is due is left, neither in the queue nor in the reorder slot |
| FaultChannel.WakeUpIsFirstRelease | src/fault.rs:200-213 | the wake-up time is the first release in every run if and only if nothing is held, or the latency is no longer than a hold, or nothing enters the delay queue |
| FaultChannel.SlowLatencyOverlooks | src/fault.rs:200-213 | a configuration and a run in which a held datagram is overlooked |
| FaultFates.SilenceIsBurst | src/fault.rs:122-128 | the silences are exactly the first `burstDur` milliseconds of each period |
| FaultFates.SurvivorsPassInOrder | src/fault.rs:130-197 | without reordering, over every run and for every roll, the copies lost are exactly those whose roll or time says so, and the others go out in the order of the offers, none before its latency is over |
| FaultFates.LatencyExactly | src/fault.rs:178-197 | after a release, with a working socket, exactly the copies whose latency is over are out |
| FaultFates.HeldGoesAfterTheNext | src/fault.rs:160-172 | with reordering alone a datagram is held when the roll says so, and goes right behind the next one |
| FaultFates.DrainLetsGoExactly | src/fault.rs:178-197 | a drain lets a held datagram go exactly if it has been held for 50 ms, and a delayed one exactly if it is due |
| FaultFates.SilenceLosesAll | src/fault.rs:156-159 | in a silence everything offered is lost, whatever the rolls, and what is waiting stays |
| PeerChoice.SumOfWeights | src/peer.rs:605-621 | the sum over the candidates is the total weight |
| PeerChoice.WeightedPick | src/peer.rs:622-629 | the roll falls to the candidate on whose interval of running totals it lies |
| PeerChoice.PickPeer | src/peer.rs:532-630 | a source is found if and only if the last tier is not empty, and it is the one of that tier to which the roll falls, or the last resort |
| PeerChoice.TiersExactly | src/peer.rs:532-661 | who is in the last tier, in terms of addresses, answers, parents and loads: an advertising parent first, then an advertising peer, then an advertising origin, then any eligible peer, then the bootstrap as the last resort |
| PeerChoice.PickedIsSensible | src/peer.rs:548-577 | whoever is picked is the bootstrap or has not answered that it lacks the segment, and is the last resort or not this node itself |
| PeerChoice.EveryoneCanBePicked | src/peer.rs:605-629 | for everyone in the last tier there is a roll that picks it |
| PeerChoice.RollIsShared | src/peer.rs:622-629 | each candidate has an interval of the roll as long as its weight, and no roll falls to two |
| PeerChoice.WeightTable | src/peer.rs:605-620 | the weight of a candidate by its answer, its role and its path |
| PeerChoice.WeightsRank | src/peer.rs:605-620 | a better score, a fresh path, fewer pulls and a positive answer never count against a peer |
| PeerChoice.ChosenIsUsable | src/peer.rs:557-577 | whoever is chosen is untried, not cooling down and has fewer than two pulls in flight |
| PeerChoice.ParentsComeFirst | src/peer.rs:568-580 | while an assigned parent advertises the segment, such a parent is chosen |
| PeerChoice.PeersComeBeforeBootstrap | src/peer.rs:632-661 | while a peer other than the bootstrap advertises, such a peer is chosen, unless the bootstrap is the only advertising parent |
| PeerChoice.OriginBeatsPeer | src/peer.rs:568-580 | a case in which a peer advertises and the bootstrap is chosen all the same |
| PeerChoice.BootstrapKeepsPullAlive | src/peer.rs:585-604 | with a known, untried, not cooling bootstrap with room somebody is always chosen |
| PeerChoice.NobodyChosen | src/peer.rs:585-604 | nobody is chosen exactly if the bootstrap is not left as a last resort and every known peer is ruled out: as this node itself, by its answer, as tried, cooling down or busy, or by an origin that has the segment while it does not say so |
| Scheduler.DownloadScheduler.constructor | src/peer.rs:117-124 | the scheduler starts with nothing queued, tried or in flight |
| Scheduler.DownloadScheduler.SyncQueue | src/peer.rs:712-751 | the loop computes `Sync`: names of the manifest kept, new ones put in front |
| Scheduler.DownloadScheduler.ReapJob | src/peer.rs:398-481 | collecting one finished pull is the step `Reap` for each of the five results |
| Scheduler.DownloadScheduler.BlamePeer | src/peer.rs:451-464 | a silent peer is evicted at its third silence, an answering one forgiven |
| Scheduler.DownloadScheduler.RetryName | src/peer.rs:465-479 | a failed segment goes to the front of the queue if some peer is untried, and is given up for now otherwise |
| Scheduler.DownloadScheduler.CollectFinished | src/peer.rs:367-482 | whatever the order, every finished pull is collected and nothing else is done |
| Scheduler.DownloadScheduler.FillSlots | src/peer.rs:484-525 | pulls are started until all slots are taken, the queue is empty, the registry is full or the head has no source at the time of the round |
| Scheduler.DownloadScheduler.ScheduleJobs | src/peer.rs:350-526 | one round is a sequence of such steps, ends with nothing finished uncollected, and stops only for one of those reasons |
| SchedulerSteps.SyncAddsExactly | src/peer.rs:730-750 | a sync adds a name if and only if it is in the manifest, not in `queued`, not in the store, valid, and did not fail less than 5 s ago |
| SchedulerSteps.ValidNamesExactly | src/transfer.rs:106-113 | a name is valid exactly if it has 1 to 255 printable ASCII characters, no separator among them, and does not start with a dot |
| SchedulerSteps.RetainGoesByName | src/peer.rs:725-727 | what stays in the queue is decided name by name and keeps its order |
| SchedulerSteps.FailedGoesFirst | src/peer.rs:446-480 | after a silence, a refusal or a failure with a source untried the segment is the head of the queue and the rest is unchanged behind it; otherwise it is given up as of now |
| SchedulerSteps.NotReadyGoesLast | src/peer.rs:434-444 | after "not ready" the segment is the last of the queue, and its source counts as untried and cools down for 5 s |
| SchedulerSteps.SavedIsForgotten | src/peer.rs:416-433 | after a save everything kept about the segment is forgotten and its receiver stays |
| SchedulerSteps.StartTakesHead | src/peer.rs:484-518 | a pull takes the head of the queue, and its source counts as tried |
| SchedulerSteps.FailedIsPulledNext | src/peer.rs:465-518 | the next pull after a failure with a source left is for the same segment, unless another failure is collected first |
| SchedulerSteps.SourceIsAskable | src/peer.rs:532-604 | a pull starts only from a known, eligible source or from the bootstrap as the last resort, with fewer than 4 pulls and 32 transfers, under a fresh id |
| SchedulerSteps.ParentsAreAskedFirst | src/peer.rs:568-580 | while an eligible parent other than the bootstrap advertises the segment, the source is such a parent |
| SchedulerSteps.RoundEndsFor | src/peer.rs:484-525 | a round leaves a slot unused if and only if nothing is queued, 32 transfers are active, or nobody may be asked for the head of the queue, spelled out by address |
| SchedulerLaws.SyncedQueue | src/peer.rs:725-750 | the queue holds exactly the queued or newly needed names of the manifest |
| SchedulerLaws.NewestFirst | src/peer.rs:744-749 | the new names come first, the newest of them foremost, and what was queued keeps its order behind them |
| SchedulerLaws.StepKeepsSound | src/peer.rs:398-525 | every step of scheduler, registry and manifest keeps the invariant of the containers |
| SchedulerLaws.EveryRunIsSound | src/peer.rs:350-526 | in every run with turns shorter than the grace period each name in `queued` is in the queue or in flight, each job has its receiver, at most 4 pulls run and at most 2 from one peer |
| SchedulerLaws.RoundExtendsRun | src/peer.rs:328-346 | what one call of `schedule_jobs` does is a stretch of a run |
| SchedulerLaws.TurnLengthDecides | src/transfer.rs:948-961 | all runs with turns of a given length are sound if and only if that is shorter than the grace period |
| SchedulerLaws.LongTurnLosesJob | src/transfer.rs:948-961 | for every longer turn a run from the start that loses a job |
| SchedulerLaws.LostJobKeepsSlot | src/peer.rs:379-396 | a lost job keeps its slot in every continuation until its id is drawn again |
| SchedulerLaws.SyncDuplicates | src/peer.rs:730-750 | `sync_queue` duplicates a name if and only if it adds one that is still queued or in flight |
| SchedulerLaws.EveryRunIsFreeOfDuplicates | src/peer.rs:350-526 | if no name returns to the manifest, none is ever queued twice, pulled twice at a time, or both |
| SchedulerLaws.ReturningNameIsDuplicated | src/peer.rs:722-749 | a name that returns while it is pulled is queued beside its pull |
| SchedulerLaws.QueueStaysWithinQueued | src/peer.rs:434-480 | collecting a pull keeps the queue within `queued` exactly if the name is in `queued` or is not queued again |
| SchedulerLaws.UnlistedNameIsReached | src/peer.rs:434-480 | a run from the start that ends with a name queued and not in `queued` |
| SchedulerLaws.ReturningNameIsReached | src/peer.rs:722-749 | a run from the start that ends with a name queued beside its pull |
| SchedulerLaws.NobodyIsAskedTwice | src/peer.rs:484-518 | while the search for a segment goes on, no source is asked twice nor one tried before |
| SchedulerLaws.GivenUpNameWaits | src/peer.rs:476-480 | a segment that was given up, and is not queued or pulled a second time at that moment, is neither queued nor pulled within 5 s, whatever happens |
| SchedulerLaws.PutOffSourceWaits | src/peer.rs:434-444 | a source that was not ready counts as untried at once, and whatever happens it is not chosen for the segment within 5 s, unless the segment is saved in between |
| Evictions.EvictionTakesThreeSilences | src/peer.rs:451-464 | over every run a step of work takes a peer out exactly if it collects its third, sixth, ... silence in a row, "not ready" answers not counted, and the scheduler's counter is that number modulo 3 |
| Evictions.NotReadyDoesNotHelp | src/peer.rs:434-464 | a run from the start in which a peer that answered "not ready" in between is evicted |
| Inventory.SegmentAvailability | src/transfer.rs:843-858 | the loop over the directory computes the inventory of the set of segments, whatever the order |
| Inventory.MaskIsExact | src/protocol.rs:90-99 | within 16 of the newest the inventory answers membership, elsewhere nothing |
| Inventory.InventoryIsUnique | src/transfer.rs:843-858 | the inventory depends on the set of segments only |
| Inventory.InventorySurvivesTheWire | src/protocol.rs:439-458 | sent in a PONG or a NOT_FOUND it arrives unchanged and answers membership there |
| Inventory.InventoryCache.NoteAvailability | src/node.rs:260-273 | a new inventory replaces the old one and revokes the negative answers of its bits |
| Inventory.InventoryCache.NoteMissing | src/node.rs:276-282 | a refusal is remembered for a numbered segment and ignored for other names |
| Inventory.InventoryCache.Query | src/node.rs:376-394 | the answer of the cache: an unexpired refusal, else the inventory of the last 15 s, else unknown |
| Inventory.StoreInventoryIsHarmless | src/transfer.rs:843-858 | in an inventory a store produces the saturating subtraction never bites |
| Inventory.RevokesContradicted | src/node.rs:260-273 | a harmless inventory revokes exactly the refusals it contradicts |
| Inventory.CacheRefinesHistory | src/node.rs:376-394 | after any log of events the cache answers what the full history says |
| Inventory.OnlyHarmlessInventoriesAgree | src/node.rs:260-273 | for an inventory off the wire cache and history agree on a probing log if and only if it is harmless |
| Inventory.BelowZeroIsHarmful | src/node.rs:266-272 | an inventory that revokes a refusal it does not contradict |
| SeedLeases.OriginSeeders.Decide | src/node.rs:286-349 | one decision is `OriginSeedAllowed` in every branch, counters included |
| SeedLeases.OriginSeeders.PruneUnknown | src/node.rs:352-358 | leases of unknown peers and empty entries go |
| SeedLeases.DecisionLaw | src/node.rs:286-349 | allowed if and only if a lease is held afterwards; denied if and only if the budget is spent and another peer of the class can serve; the counters say how the set has changed |
| SeedLeases.DecisionExactly | src/node.rs:286-349 | a request is denied if and only if the requester holds no lease, as many of its class hold one as the limit allows, and someone else of its class serves the segment; everybody else holds a lease from then on |
| SeedLeases.OnlyTheMasterLeases | src/node.rs:286-290 | elsewhere, and for segments not held, nothing is refused or leased |
| SeedLeases.PublicExactly | src/node.rs:1355-1360 | the two classes of addresses by their octets |
| SeedLeases.LastSourceIsServed | src/node.rs:320-345 | a requester without any other source is never denied |
| SeedLeases.LeasesAreBounded | src/node.rs:286-358 | over any run the leases of one class never exceed the limit plus the recovery admissions |
| SeedLeases.SweepForgetsUnknown | src/node.rs:352-358 | after a sweep exactly the leases of known peers are left |
| Codec.EncodePeers | src/protocol.rs:490-500 | the loop writes the peers' bytes in order, IPv6 peers skipped |
| Codec.DecodePeers | src/protocol.rs:503-516 | the loop reads the chunks in order, port 0 skipped, any other length refused |
| Codec.EncodeMessage | src/protocol.rs:227-328 | the buffer grown in place is `Encode` |
| Codec.PeersRoundTrip | src/protocol.rs:490-516 | a peer list read back is its normal form |
| Codec.RoundTrip | src/protocol.rs:227-437 | every message whose payload fits is decoded to its normal form |
| Codec.NormIsIdempotent | src/protocol.rs:462-516 | normalising twice is normalising once, and changes nothing exactly on well-formed messages |
| Codec.TooLongIsCut | src/protocol.rs:318-326 | a message whose payload does not fit the length field is not read back |
| Codec.ExactRoundTrip | src/protocol.rs:227-437 | the trip is exact if and only if the message is well-formed and its payload fits |
| Codec.DecodeReadsOneFrame | src/protocol.rs:331-360 | decoding depends on the first 14 + length bytes only |
| Codec.DecodedIsNoLonger | src/protocol.rs:331-437 | a decoded message has no longer a payload than the one it was read from |
| Codec.DecodedCanBeResent | src/protocol.rs:227-437 | whatever decodes can be sent again and arrives in its normal form |
| CodecLayout.HeaderLayout | src/protocol.rs:318-328 | the 14 header bytes of every frame, by position |
| CodecLayout.TransferLayout | src/protocol.rs:227-328 | code, numbers and payload of request, contents and refusal |
| CodecLayout.AckLayout | src/protocol.rs:227-328 | code, flags and payload of the two ACKs |
| CodecLayout.NodeLayout | src/protocol.rs:227-328 | code and payload of handshakes, manifests, pings and peer list requests |
| CodecLayout.InventoryLayout | src/protocol.rs:439-458 | an inventory is its newest number in eight bytes and its mask in two, most significant first |
| CodecLayout.PeersLayout | src/protocol.rs:490-500 | a peer takes seven bytes, in the order of the list |
| CodecLayout.DecodesExactly | src/protocol.rs:331-437 | exactly which byte strings are messages |
| CodecLayout.FirstErrorIsReported | src/protocol.rs:331-437 | which error any other byte string gives |
| CodecLayout.DecodedSaysTheFrame | src/protocol.rs:362-437 | what the message says, by the bytes of its frame |
| CodecLayout.PeersAreReadInOrder | src/protocol.rs:503-516 | the chunks with a port are kept, in order |
| Text.SegmentNameRoundTrip | src/transfer.rs:965-967 | the name of segment n is parsed to n |
| Text.SegmentNumberExactly | src/transfer.rs:965-967 | exactly the names `seg_<number>.ts` have a number |
| Text.ParsesExactly | src/transfer.rs:965-967 | a number is one or more digits after an optional plus sign, within 64 bits |
| Calendar.CivilIsValid | src/log.rs:53-70 | for every day number, negative ones included, the result is a valid date with that day number |
| Calendar.CivilIsOnto | src/log.rs:53-70 | every valid date is the result for its day number |
| Calendar.NextDateIsNextDay | src/log.rs:53-70 | the next date in the calendar has the next day number |
| Calendar.CivilFollowsCalendar | src/log.rs:53-70 | day 0 is 1 January 1970 and successive days give successive dates |
| Calendar.TimestampRoundTrip | src/log.rs:37-50 | a timestamp is a valid date and time of day from which the seconds can be recovered |
| Playlist.FindSequence | src/http.rs:212-217 | the last media sequence tag counts, 0 without one |
| Playlist.ScanAll | src/http.rs:219-254 | the line loop computes `ScanLines` |
| Playlist.PlaybackPlaylist | src/http.rs:206-288 | the whole function computes `Playback`, `None` included |
| Playlist.InsertSequence | src/http.rs:273-287 | the tag goes after the first line that takes it, or to the end |
| PlaylistParts.ScanFindsParts | src/http.rs:219-254 | the header is the tag lines before the first segment tag, and each local segment has the tags between it and the segment before and its place in the whole list |
| PlaylistParts.InsertPlace | src/http.rs:273-287 | the sequence tag stands behind the first line that takes it, or at the end |
| PlaylistParts.PlaybackParts | src/http.rs:206-288 | the playlist is the header and the blocks of the first local segments, as many as there are less those held back, with the sequence tag put in |
| PlaylistParts.TrimExactly | src/http.rs:240-243 | trimming takes white space off both ends, and all of it |
| PlaylistLaws.ScanKeepsLocal | src/http.rs:240-254 | the scan keeps the local segments in order, the first one numbered by the segments before it |
| PlaylistLaws.LinesOfJoin | src/http.rs:261-275 | lines written out and split again lose at most a carriage return |
| PlaylistLaws.InsertsOnce | src/http.rs:273-287 | the output is the lines with the tag put in at one place |
| PlaylistLaws.ReparsedPlaylist | src/http.rs:206-288 | a playlist exists exactly if there is an M3U line and more local segments than held back; parsed again it gives the first of them but for names that look like tags |
| PlaylistLaws.NoTagsToDrop | src/transfer.rs:89-98 | nothing is lost in parsing again if and only if no name looks like a tag |
| PlaylistLaws.MediaSequence | src/http.rs:256-287 | there is one media sequence line exactly if no listed name starts like one, and it says the original number plus the index of the first local segment |
| PlaylistLaws.PlaybackIsIdempotent | src/http.rs:206-288 | deriving the playlist again with nothing held back changes nothing, if no listed name looks like a tag |
| PlaylistLaws.TagLikeNameIsNotParsed | src/http.rs:240-254 | a local segment whose name starts with `#` is listed and not parsed again |
| PlaylistLaws.ExampleIsPlayable | src/http.rs:206-288 | a playlist of one segment with its own tag meets the conditions of idempotence |

Names on the wire are UTF-8 as in section 4 of RFC 3629. The conditions of
`PlaybackIsIdempotent` are those of a media playlist in RFC 8216: it starts with `#EXTM3U`, every
segment has its own `EXTINF` (section 4.3.2.1), and no line has a carriage return before its end.

## Left out

- Timers: which deadline has passed is an input of a tick. The EWMAs, the adaptive periods and the
  values of the deadlines are not computed, so no statement is about how long anything takes.
- Several requesters under one transfer id, and an id that is used again: the registry keys senders
  by id alone, and the joined models assume that ids are not reused.
- Files that change while they are served, forged datagrams in the joined models, and the moment
  between writing and renaming a file.
- Registry: it holds the transfers as values of the two machines, not as objects; the machines' own
  updates in place are modelled in `SenderTransfer` and `ReceiverTransfer`.
- Registry.TransferRegistry.HandleContent: the order in which the packet map is walked comes with the call instead of being chosen in it.
- The inventory attached to a NOT_FOUND is a parameter of `Wire.MessageOf`; the transfer models do not compute it.
- PeerChoice.WeightedPick: weights are reals instead of 64-bit floating-point numbers, so the case that rounding leaves no candidate does not occur.
- Quality of the random generator and of the ids drawn from it.
- `effective_addr`: an arbitrary function from known to reachable addresses.
- Scheduler.DownloadScheduler.ScheduleJobs: the peer statistics, the availability broadcast and the playlist refresh that accompany a saved segment are not modelled; neither is the time that passes between two picks of one round.
- Retention: which segments are present is an input of `sync_queue` and of the playlist.
- FaultChannel: positions in the history of offered datagrams stand for their identity; they are not part of the injector.
- Overflow of the injector's and the leases' 64-bit counters, and of `i64` day numbers.
- Playlist.PlaybackPlaylist: text is already decoded; the replacement of malformed UTF-8, and that `parse_manifest` yields nothing for it, are not modelled.
- PeerChoice: the choice is made for the peers and inventories of one moment.
- Sockets, threads, the HTTP server, logging, statistics, UPnP, NAT paths, PING, configuration and the command line.
