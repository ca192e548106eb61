# kachery-p2p: a verified model

kachery-p2p shares files and append-only feeds between nodes. This project models its daemon and client library in
Dafny and proves what their protocols keep over whole runs.

A component that changes state is modelled as pure functions over values, about whose runs the theorems speak, and as
classes with the program's own fields and loops, each of whose methods is proved to compute exactly those functions.
The modules that put components together (`FeedSystem`, `UdpTransport`, `ManifestRuns`) are step systems over the same
functions. Where the program waits, a step ends: the model interleaves at the awaits, and timers are steps that may
fire at any time at or after their deadline. Clock readings, random identifiers, rates and what the network delivers
are parameters of the steps.

## What is modelled

- **Replicated signed logs.** `SignedChain` (signatures, the checking and signing loops), `LocalFeedsDatabase` (table,
  transactions, lock), `Subfeeds` (one instance), `FeedSystem` (all nodes and instances together), `MessageDownloader`
  (the follower's loop), `FeedCursor` (waiting, fetching, the message iterator), `FeedReads` (clients of a running system).
  `FeedProgress` and `DownloaderProgress` prove what undisturbed exchanges achieve.
- **Transport.** `UdpParts` (framing, cutting, reassembly), `UdpTransport` (packets, confirmations, fallback, duplicates),
  `DataStreamies` (reordering and subscribers), `StreamOverUdp` (numbering at the sender, a stream over that network),
  `CongestionManager`. `UdpProgress` and `CongestionResponse` prove that messages get through and how the rate responds.
- **Files.** `FileChunks` (the two chunkers), `RangeRead`, `ManifestLoad` (store, concatenation, chunk loop),
  `ManifestRuns` (a whole load, with the concatenation running beside it), `LoadProgress` (what each event does to it). `Blocks` holds the lemmas on cutting and joining sequences.
- **Downloads.** `DownloadJobs` (one job) and `DownloadScheduler` (the table of jobs); `TaskLifecycle` follows one task.
- **Supporting state.** `GarbageMaps`, `Subscriptions`, `GossipTable`.

## Where the code does less than one might expect

Each of these is a lemma with a case that can happen, next to the exact condition under which the code does meet the
expectation.

- The follower's download loop need not end: an answer that repeats messages already held is trimmed to nothing and
  asked for again (`StaleAnswersLoopForever`, `StaleStateIsReached`). Apart from such answers it ends, with a bound
  (`LoopEndsUnlessStale`, `MovesAfterReport`).
- An append that fails leaves its instance refusing every further one (`RefusedCommitSticks`, `StuckStays`), and an
  exception in the follower's loop leaves that marked active, so that no report starts it again (`AbandonedForGood`,
  `FalseAnswerAbandons`, `BusyAnswerAbandons`).
- The message iterator skips messages if the same subfeed object is read beside it (`SharedPositionSkips`,
  `LoadContinuesIff`).
- The loop over a manifest's chunks is called with a limit of five but runs one chunk at a time
  (`LoopRunsEveryChunkOnce`), and it resolves before the file is stored (`ResolvesBeforeItStores`); what tells that the
  file is there is the end of the stream (`EndedMeansStored`). A load whose manifest has no chunks, or whose
  concatenation throws, never settles (`LoadHangsIff`, `LoadHangsIffOtherBytes`).
- A range read through a manifest clamps bounds that a read of the file itself refuses (`OutOfRangeIsClamped`,
  `ManifestAgreesWithFileIff`).
- A packet header survives its padding only if it fits and does not end in white space (`FrameRoundTripIff`).
- Subscriptions are looked up under the wrong code, so each renewal makes a new one, and a removal timer that fires
  exactly on time removes nothing (`RenewalMakesNewSubscription`, `TimelyTimerEndsNothing`, `TimerRemovesIffLapsed`).
- Nodes that hear two different announcements of the same time may keep different ones (`ContentConvergesIff`).
- A cancelled download leaves the table but keeps running: any number may run in all (`AnyNumberMayRun`), and exactly
  the abandoned ones run outside the table (`OutsideIffAbandoned`, `AtMostFiveInAll`).

## Model

| member | source | states |
|---|---|---|
| FeedSystem.StoredLogIsChained | daemon/src/feeds/Subfeed.ts:185-271 | Any number of nodes and instances, interleaved at their awaits and with crashes: in every run every stored table is gapless and a valid signature chain, and every memory is made of whole committed batches and is a prefix of the stored log |
| FeedSystem.FollowerIsPrefixOfWriter | daemon/src/feeds/Subfeed.ts:223-260 | In every run, whatever stretches, repetitions, orders or unverifiable messages its downloads return, a follower stores a prefix of what the writer has committed |
| FeedSystem.ReloadAcceptsCommitted | daemon/src/feeds/LocalSubfeedSignedMessagesManager.ts:11-37 | After every run, reading and checking a table accepts exactly the concatenation of the batches committed so far |
| FeedSystem.CommitCases | daemon/src/feeds/LocalSubfeedSignedMessagesManager.ts:58-81 | The transaction of a waiting instance succeeds if and only if that instance holds the whole stored log: of several stale instances the primary key lets one through |
| FeedSystem.CommittedMessagesStay | daemon/src/external/real/LocalFeedsDatabase.ts:258-289 | No step of any node from any state, crashes included, removes or changes a stored row |
| FeedSystem.LogOnlyGrows | daemon/src/feeds/FeedManager.ts:269-308 | Along every run every stored row of every node stays as it is, and what the table reads as is only extended at its end, across evicted and reloaded instances |
| FeedProgress.UndisturbedAppend | daemon/src/feeds/Subfeed.ts:185-222 | From every reachable state, an up-to-date instance of the writer that appends, commits and pushes stores exactly its drafts, signed, after everything stored before |
| FeedProgress.UndisturbedFollow | daemon/src/feeds/Subfeed.ts:223-260 | From every reachable state, an idle up-to-date instance of any node that receives a served stretch of the writer's log, commits and pushes it, has its table and its memory up to the end of the stretch |
| FeedProgress.OneExchangeCatchesUp | daemon/src/feeds/LocalSubfeedSignedMessagesManager.ts:58-81 | From every reachable state one exchange is enough: when the writer's instance serves a stretch that continues what a follower holds and the follower appends it, the follower stores the writer's log up to its end |
| FeedProgress.ReloadHoldsStoredLog | daemon/src/feeds/LocalSubfeedSignedMessagesManager.ts:11-37 | From every reachable state a new instance that reads the table and finishes its load holds the whole stored log and is ready |
| FeedProgress.UnknownFeedStartsEmpty | daemon/src/feeds/LocalSubfeedSignedMessagesManager.ts:38-40 | An instance of a feed that is not known locally starts with no messages |
| FeedProgress.ServeHandsOut | daemon/src/feeds/Subfeed.ts:167-184 | Serving hands out exactly the messages of a range inside memory, and nothing otherwise |
| FeedProgress.CrashDropsInstances | daemon/src/feeds/FeedManager.ts:269-308 | A crash drops every instance of its node and leaves its table and all other nodes as they are |
| FeedProgress.RefusedCommitSticks | daemon/src/feeds/LocalSubfeedSignedMessagesManager.ts:58-81 | In every reachable state a batch of an instance that is no longer up to date leaves the table as it is, and the instance's appending flag set |
| FeedProgress.StuckStays | daemon/src/feeds/LocalSubfeedSignedMessagesManager.ts:58-81 | Nothing but a crash of its node frees such an instance: it refuses every further append |
| FeedReads.ClientsReadTheWritersLog | kachery_p2p/_feeds.py:164-187 | A client that fetches with any waits and limits from any instances of any nodes while the system runs gets the writer's committed messages from its first to its last position, each once and in order |
| FeedReads.IteratorsReadTheWritersLog | kachery_p2p/_feeds.py:197-225 | An iterator used by nobody else, whose loads are answered by any instances of any nodes while the system runs, yields the writer's committed messages from its start to its position, each once and in order |
| FeedReads.MemoryIsPrefixOfWriter | daemon/src/feeds/FeedManager.ts:269-308 | A memory an instance held at any time of a run is a prefix of what the writer has committed at the end of it |
| SignedChain.CheckBatchIffChained | daemon/src/feeds/Subfeed.ts:242-258 | The checking loop accepts a batch if and only if the log continued by it is a valid chain |
| SignedChain.PrepareAppendIffChained | daemon/src/feeds/Subfeed.ts:223-260 | An append submits exactly the trimmed batch, and if and only if something is left of it and memory stays a valid chain |
| SignedChain.FirstViolationDecides | daemon/src/feeds/Subfeed.ts:242-258 | A refused batch is refused for the first message that breaks the chain: for its signature, then for the signature it continues from, then for its number |
| SignedChain.OverlapIsTrimmed | daemon/src/feeds/Subfeed.ts:230-233 | Re-sending any stretch of the log that starts inside memory leaves exactly what memory lacks |
| SignedChain.SignAllExtends | daemon/src/feeds/Subfeed.ts:195-219 | Signing drafts one after the other continues the chain with exactly the given payloads and times |
| SignedChain.SignedBatchIsSubmitted | daemon/src/feeds/Subfeed.ts:200-221 | A freshly signed batch is never trimmed or refused by the instance that signed it |
| SignedChain.LastSignatureFixesLog | daemon/src/feeds/Subfeed.ts:242-258 | Two valid chains with the same last signature are the same log |
| Subfeeds.StartAppendOverChain | daemon/src/feeds/LocalSubfeedSignedMessagesManager.ts:58-74 | Over a valid memory the first-number check never fires and an append is handed on if and only if it continues the chain and none is in progress |
| Subfeeds.AppendRefusals | daemon/src/feeds/Subfeed.ts:223-260 | Being not loaded is reported first, then the first violation of the chain, then an append in progress |
| Subfeeds.OwnAppendRefusals | daemon/src/feeds/Subfeed.ts:185-222 | Own drafts are refused for not being loaded, then for the missing secret, then for a secret of another key; no drafts are no error |
| Subfeeds.LocalMessagesAre | daemon/src/feeds/Subfeed.ts:167-184 | A range is served if and only if memory has all of it, and then message by message |
| Subfeeds.OwnDraftsAreSubmitted | daemon/src/feeds/Subfeed.ts:185-222 | The holder of the key can always append its drafts, unless an append is in progress |
| Subfeeds.Subfeed.InitializeFromLocal | daemon/src/feeds/LocalSubfeedSignedMessagesManager.ts:11-37 | The loading loop keeps the stored messages if and only if they pass the chain check, and otherwise reports the first violation |
| Subfeeds.Subfeed.AppendSignedMessages | daemon/src/feeds/Subfeed.ts:223-260 | Trimming, check and the manager's checks give the specified outcome, error by error; only a submitted append sets the flag |
| Subfeeds.Subfeed.Check | daemon/src/feeds/Subfeed.ts:236-258 | The checking loop computes the chain check from the messages held |
| Subfeeds.Subfeed.AppendMessages | daemon/src/feeds/Subfeed.ts:185-222 | Own drafts are signed and handed to the append, or refused for the first reason that applies |
| Subfeeds.Subfeed.Sign | daemon/src/feeds/Subfeed.ts:195-219 | The signing loop yields the specified signed batch, and verifies if and only if the key is the feed's |
| Subfeeds.Subfeed.HandToDatabase | daemon/src/feeds/LocalSubfeedSignedMessagesManager.ts:58-75 | The manager's own checks: a first number that does not fit is refused before a busy flag, and only a batch handed on sets the flag |
| Subfeeds.Subfeed.FinishAppend | daemon/src/feeds/LocalSubfeedSignedMessagesManager.ts:76-81 | After the commit memory grows by exactly the batch and the flag is cleared |
| Subfeeds.Subfeed.GetLocalSignedMessages | daemon/src/feeds/Subfeed.ts:167-184 | A range inside memory is returned exactly, any other is refused |
| LocalFeedsDatabase.CommitAppendsOrRefuses | daemon/src/external/real/LocalFeedsDatabase.ts:258-289 | A consecutive batch numbered from inside or at the end of a readable table is appended whole if it starts at the end, and refused without a trace otherwise |
| LocalFeedsDatabase.InsertAllMeaning | daemon/src/external/real/LocalFeedsDatabase.ts:271-283 | On any table a transaction fails if and only if some position is taken or repeated, and one that succeeds adds exactly its batch |
| LocalFeedsDatabase.ReadableIsGapless | daemon/src/external/real/LocalFeedsDatabase.ts:171-194 | A table that can be read has exactly the positions 0 to n-1, each with its own message |
| LocalFeedsDatabase.AscendingListing | daemon/src/external/real/LocalFeedsDatabase.ts:162-178 | Comparing the ascending positions with their indices finds a gap if and only if there is one |
| LocalFeedsDatabase.Database.AppendSignedMessagesToSubfeed | daemon/src/external/real/LocalFeedsDatabase.ts:258-289 | The insert loop inside a transaction stores the whole batch or nothing |
| LocalFeedsDatabase.Database.GetSignedSubfeedMessages | daemon/src/external/real/LocalFeedsDatabase.ts:158-199 | The reading loop returns the rows in order, or refuses a gap or a misnumbered message |
| LocalFeedsDatabase.DatabaseLock.Acquire | daemon/src/external/real/LocalFeedsDatabase.ts:67-78 | A caller enters at once if the lock is free and otherwise queues; at most one caller is inside and callers enter in the order they asked |
| LocalFeedsDatabase.DatabaseLock.Release | daemon/src/external/real/LocalFeedsDatabase.ts:79-89 | Leaving passes the lock to the caller that has waited longest; a lock that is not held cannot be released |
| MessageDownloader.NoReportIsLost | daemon/src/feeds/RemoteSubfeedMessageDownloader.ts:13-48 | In every run, whenever no download is active and none failed since the last report, the local count is at least the count last reported |
| MessageDownloader.LoopEndsUnlessStale | daemon/src/feeds/RemoteSubfeedMessageDownloader.ts:20-48 | For a fixed report: from every state the loop makes at most as many moves as its potential plus the stale answers it gets, over every run |
| MessageDownloader.MovesAfterReport | daemon/src/feeds/RemoteSubfeedMessageDownloader.ts:13-48 | After any history, a last report of n messages allows at most 2n+3 further moves that are not stale, so the loop ends unless stale answers come for ever |
| MessageDownloader.PassRaisesCountIff | daemon/src/feeds/RemoteSubfeedMessageDownloader.ts:23-46 | A pass whose append does not throw leaves more than it started from if and only if its answer is not stale: wholly among what was held when it was asked for, with nothing else arriving meanwhile |
| MessageDownloader.StaleAnswersLoopForever | daemon/src/feeds/RemoteSubfeedMessageDownloader.ts:23-46 | The converse, for any state: a stale answer to a pass for the current report leaves the state as it is, through any number of passes, each of them a move |
| MessageDownloader.StaleStateIsReached | daemon/src/feeds/RemoteSubfeedMessageDownloader.ts:13-46 | Counterexample to termination: whatever valid messages are held, a report of one more leads to such a state, and the first message held, sent again, is a stale answer |
| MessageDownloader.TruthfulAnswerCompletes | daemon/src/feeds/RemoteSubfeedMessageDownloader.ts:33-45 | A truthful answer brings the local log up to the count the pass was started for, whatever arrived meanwhile |
| DownloaderProgress.ReportStartsIff | daemon/src/feeds/RemoteSubfeedMessageDownloader.ts:13-19 | In every run a report is remembered, and starts a download of exactly what is missing if and only if something is and none goes on |
| DownloaderProgress.AnswerIsAppended | daemon/src/feeds/RemoteSubfeedMessageDownloader.ts:23-47 | In every run a truthful answer and its append bring memory to the end of the pass, and the loop goes on exactly for what was reported meanwhile |
| DownloaderProgress.ReportIsDownloaded | daemon/src/feeds/RemoteSubfeedMessageDownloader.ts:13-47 | From every run at rest, a report of a longer log, a truthful answer and its append leave exactly that log in memory and the loop at rest |
| DownloaderProgress.FailedPassEnds | daemon/src/feeds/RemoteSubfeedMessageDownloader.ts:35-41 | A download that fails or brings another number of messages ends the loop without touching memory, and the next report starts over |
| DownloaderProgress.AbandonedForGood | daemon/src/feeds/RemoteSubfeedMessageDownloader.ts:15-47 | An exception of the append leaves the loop marked active, so that no later report starts a download again |
| DownloaderProgress.FalseAnswerAbandons | daemon/src/feeds/RemoteSubfeedMessageDownloader.ts:42-47 | A full-length answer that does not continue the chain is refused and the loop abandoned |
| DownloaderProgress.BusyAnswerAbandons | daemon/src/feeds/RemoteSubfeedMessageDownloader.ts:42-47 | An answer that comes while another append is in progress abandons the loop, however truthful it is |
| DownloaderProgress.OthersAppend | daemon/src/feeds/LocalSubfeedSignedMessagesManager.ts:58-81 | Another append marks the subfeed busy, and adds its batch when it ends |
| MessageDownloader.RemoteSubfeedMessageDownloader.ReportNumRemoteMessages | daemon/src/feeds/RemoteSubfeedMessageDownloader.ts:13-19 | A report starts a download if and only if something is missing and none is active |
| MessageDownloader.RemoteSubfeedMessageDownloader.OnDownloaded | daemon/src/feeds/RemoteSubfeedMessageDownloader.ts:39-45 | The second half of a pass: wrong counts end the loop, what arrived meanwhile is dropped, the rest goes through the append |
| MessageDownloader.RemoteSubfeedMessageDownloader.OnAppended | daemon/src/feeds/RemoteSubfeedMessageDownloader.ts:45-47 | After a successful append the loop goes on from its head |
| MessageDownloader.RemoteSubfeedMessageDownloader.OnDownloadFailed | daemon/src/feeds/RemoteSubfeedMessageDownloader.ts:35-38 | A failed download ends the loop and frees it for the next report |
| FeedCursor.FetchesReadTheLog | kachery_p2p/_feeds.py:164-187 | Successive fetches with any waits and limits concatenate to exactly the log from the first to the last position |
| FeedCursor.FetchReturns | kachery_p2p/_feeds.py:164-187 | One fetch returns what comes from the position on, as much as there is or the limit allows, or nothing on a timeout, and only an advancing one moves the position |
| FeedCursor.UnlimitedFetchReadsTheRest | kachery_p2p/_feeds.py:164-187 | A fetch without a limit, answered from the whole log, returns all the rest of it |
| FeedCursor.FetchesReachTheEnd | kachery_p2p/_feeds.py:164-187 | Fetches with any limit get to the end of the log, a limit at a time |
| FeedCursor.FirstDecidingEventSettles | daemon/src/feeds/Subfeed.ts:136-165 | A wait is settled by the first notification with something new or by the timeout, and by nothing later |
| FeedCursor.SnapshotAnswersLikeLog | kachery_p2p/_feeds.py:178-187 | The slices of a snapshot are the answers of a live feed that holds its messages, so the laws of fetching cover both branches |
| FeedCursor.StreamYieldsTheLog | kachery_p2p/_feeds.py:197-225 | Used alone, the message iterator yields every log entry from its start exactly once and in order |
| FeedCursor.StreamReachesTheEnd | kachery_p2p/_feeds.py:197-225 | An iterator that has loaded the log hands out all of it from its start |
| FeedCursor.LoadContinuesIff | kachery_p2p/_feeds.py:205-223 | A load continues the iterator without gap or repetition if and only if nobody else moved the shared position |
| FeedCursor.SharedPositionSkips | kachery_p2p/_feeds.py:197-225 | Counterexample: a fetch beside a running iterator makes the iterator skip a message |
| FeedCursor.MessageWaiter.OnNewMessages | daemon/src/feeds/Subfeed.ts:146-154 | The listener settles the wait exactly as specified |
| FeedCursor.SubfeedReader.GetNextMessages | kachery_p2p/_feeds.py:164-187 | Both branches, live feed and snapshot, answer as specified, and the position advances by exactly what was given |
| UdpTransport.CompletedOnceAndExact | daemon/src/services/PublicUdpSocketServer.ts:227-269 | Under loss, duplication, reordering, lost confirmations and fallback resends, every message is completed at most once and with exactly the bytes sent |
| UdpTransport.ResolvedIsCompleted | daemon/src/udp/UdpPacketSender.ts:58-87 | When the send call has returned, the receiver has completed the message |
| UdpProgress.SendGetsThrough | daemon/src/udp/UdpPacketSender.ts:58-87 | From every state of every run: a message that may be sent and each of whose packets gets through, directly or by the fallback, ends with its send call returned and the message completed |
| UdpProgress.ConfirmationSettles | daemon/src/udp/UdpPacketSender.ts:78-87 | A confirmation settles a packet still being tried |
| UdpProgress.ResponseSettles | daemon/src/udp/UdpPacketSender.ts:130-138 | The answer of the fallback settles a packet given to it |
| UdpProgress.StatusMovesIff | daemon/src/udp/UdpPacketSender.ts:125-206 | A packet moves on by exactly these events, and one that is settled or has failed never again |
| UdpProgress.NothingElseTravels | daemon/src/services/PublicUdpSocketServer.ts:227-269 | A packet is transmitted or requested only while it is tried, and confirmed or answered only when it has been delivered |
| UdpTransport.CompletedIffAllArrived | daemon/src/udp/UdpMessagePartManager.ts:10-38 | A message is completed if and only if each of its packets has arrived by one way or the other |
| UdpTransport.PacketReceiver.ReceiveUdpPacket | daemon/src/services/PublicUdpSocketServer.ts:227-269 | A packet seen before changes nothing; a new one reaches the part manager, which may complete a message |
| UdpTransport.OutgoingPacket.Settle | daemon/src/udp/UdpPacketSender.ts:143-206 | The first outcome of an attempt counts and later ones change nothing; any but a confirmation hands the packet to the fallback |
| UdpTransport.UdpPacketSender.SendPackets | daemon/src/udp/UdpPacketSender.ts:58-67 | Sending begins every packet, as the send step of the model does |
| UdpTransport.UdpPacketSender.ReceivePacketConfirmation | daemon/src/udp/UdpPacketSender.ts:78-87 | A confirmation, repeated, late or foreign, moves on only a packet still being tried, as the model's step does |
| UdpTransport.UdpPacketSender.AttemptFails | daemon/src/udp/UdpPacketSender.ts:125-139 | A failed, cancelled or timed-out attempt moves the packet to the fallback, once |
| UdpTransport.UdpPacketSender.FallbackReturns | daemon/src/udp/UdpPacketSender.ts:136-138 | The fallback settles the packet for good |
| UdpParts.FrameRoundTripIff | daemon/src/services/PublicUdpSocketServer.ts:237-238 | Header and data come back from a padded packet if and only if the header fits its field and does not end in white space |
| UdpParts.PartsCarryMessage | daemon/src/services/PublicUdpSocketServer.ts:401-413 | The parts join to the message, each fits a packet, and all but the last are full |
| UdpParts.CreateParts | daemon/src/services/PublicUdpSocketServer.ts:401-413 | The slicing loop produces those parts, one empty part for an empty message |
| UdpParts.UdpMessagePartManager.AddMessagePart | daemon/src/udp/UdpMessagePartManager.ts:10-38 | A message is completed when its last part arrives, from its buffers in index order, and its parts are then forgotten |
| StreamOverUdp.StreamIsNeverWrong | daemon/src/services/PublicUdpSocketServer.ts:356-399 | At any time, also while the sender is still sending: what the completed messages feed to the reorder buffer makes it pass on a prefix of the sender's chunks, and end at most once, after all of them, and only if the sender's stream did |
| StreamOverUdp.ResolvedStreamIsComplete | daemon/src/services/PublicUdpSocketServer.ts:189-219 | When the sender's stream has ended and the send calls of all its messages have returned, the receiver's stream has ended with exactly its chunks in order |
| StreamOverUdp.SentErrorArrives | daemon/src/services/PublicUdpSocketServer.ts:200-208 | When the sender's stream has failed and the send calls of its messages have returned, the receiver's has failed with a prefix of the chunks, and its end is never signalled |
| StreamOverUdp.ReceivedIsRun | daemon/src/services/PublicUdpSocketServer.ts:356-399 | Handling completed messages by the indices and counts they carry feeds the buffer exactly as a stream of the sender's chunks |
| StreamOverUdp.OutgoingDataStream.OnData | daemon/src/services/PublicUdpSocketServer.ts:209-218 | After any number of chunks the messages sent are exactly those chunks, numbered from zero in order |
| StreamOverUdp.OutgoingDataStream.OnFinished | daemon/src/services/PublicUdpSocketServer.ts:191-199 | The end marker carries the number of chunks sent |
| DataStreamies.OutputIsPrefix | daemon/src/common/DataStreamy.ts:44-70 | For every order and repetition of arrivals the output is a prefix of the chunks sent, the end comes at most once, only after all of them, and the loop never throws |
| DataStreamies.FinishedIffAllArrived | daemon/src/common/DataStreamy.ts:44-70 | Without an error the stream has finished if and only if every chunk and the end marker have arrived |
| DataStreamies.ErrorCutsOff | daemon/src/common/DataStreamy.ts:179-184 | In every run an error before completion ends the stream for good with what was passed on; after completion it changes nothing |
| DataStreamies.SubscribersAreGiven | daemon/src/common/DataStreamy.ts:209-224 | In every run whatever the arrival of a chunk makes the stream pass on is given to every subscriber in that order |
| DataStreamies.SubscribeIff | daemon/src/common/DataStreamy.ts:119-128 | A subscriber is accepted if and only if it is the first or no byte was passed on, and is handed the pending chunks once |
| DataStreamies.DiscardIff | daemon/src/common/DataStreamy.ts:200-208 | The timer throws the pending chunks away if and only if the stream is completed |
| DataStreamies.SubscribersSeeEverything | daemon/src/common/DataStreamy.ts:119-128 | The first subscriber has been given everything passed on, however late it came, unless pending chunks were discarded before; any other accepted one the same bytes |
| DataStreamies.DataStreamy.OnData | daemon/src/common/DataStreamy.ts:119-128 | Subscribing replays the pending chunks once and is refused to a second subscriber after data |
| DataStreamies.DataStreamy.ProducerData | daemon/src/common/DataStreamy.ts:209-224 | Data reaches every subscriber, or waits if there is none, and is ignored after completion |
| DataStreamies.DataStreamy.DiscardTimer | daemon/src/common/DataStreamy.ts:200-208 | Pending chunks are thrown away some time after completion |
| DataStreamies.DataStreamyProducer.UnorderedData | daemon/src/common/DataStreamy.ts:44-62 | The reorder loop passes on the chunks in line and ends the stream after the last |
| DataStreamies.DataStreamyProducer.UnorderedEnd | daemon/src/common/DataStreamy.ts:63-70 | The end marker ends the stream at once if all chunks were passed on, and otherwise waits |
| CongestionManager.UnconfirmedIsInFlight | daemon/src/udp/UdpCongestionManager.ts:90-155 | In every reachable state sent minus confirmed, timed-out and failed bytes is the size of the current trial's packets in flight, never negative, and below the window plus one packet, although trials reset with packets outstanding |
| CongestionManager.QueueNeverStalls | daemon/src/udp/UdpCongestionManager.ts:128-154 | The latency stays in its range and the rate positive; after every event the queue is empty or a packet of the current trial is in flight |
| CongestionManager.FirstInFirstOut | daemon/src/udp/UdpCongestionManager.ts:75-127 | Packets are sent in the order handed in, once each, and each caller is answered at most once and only after its packet was sent |
| CongestionManager.EstimateStaysInRange | daemon/src/udp/UdpCongestionManager.ts:223-238 | The latency estimate never leaves a range that holds the old estimate and all samples |
| CongestionManager.RateStaysPositive | daemon/src/udp/UdpCongestionManager.ts:239-277 | The rate stays positive, falls only after a loss of the target fraction, and below a megabyte a second only after the loss of a fifth |
| CongestionResponse.RateFallsIff | daemon/src/udp/UdpCongestionManager.ts:239-277 | A trial lowers the rate if and only if it sent enough and lost at least the target fraction, and at a megabyte a second or less a fifth |
| CongestionResponse.RateRisesIff | daemon/src/udp/UdpCongestionManager.ts:239-277 | A trial raises the rate if and only if it sent enough and either lost little near the full load or lost less than a fifth below a megabyte a second |
| CongestionResponse.RateChangesGently | daemon/src/udp/UdpCongestionManager.ts:239-277 | From a megabyte a second on a change is by a factor of at most 1.2, and by exactly that on a rise or after the loss of a fifth |
| CongestionResponse.EstimateMovesToMedian | daemon/src/udp/UdpCongestionManager.ts:223-238 | With five samples the latency estimate moves three tenths of the way to their median, with fewer it stays |
| CongestionResponse.EstimateStopsAtEnds | daemon/src/udp/UdpCongestionManager.ts:223-238 | The estimate stops at the ends of its range |
| CongestionResponse.WindowIsUsed | daemon/src/udp/UdpCongestionManager.ts:134-154 | In every run, after every event, the bytes in flight stay below the window plus a packet, and fill it if packets wait |
| CongestionResponse.EndIsCounted | daemon/src/udp/UdpCongestionManager.ts:93-114 | A packet of the current trial is counted under the way it ended, with its round trip if confirmed, and one of an earlier trial is not |
| CongestionResponse.EnqueueTakes | daemon/src/udp/UdpCongestionManager.ts:75-89 | A new packet is queued behind those handed in before |
| CongestionResponse.EndSettles | daemon/src/udp/UdpCongestionManager.ts:93-114 | The end of a packet in flight answers its caller |
| CongestionResponse.TrialEndsAfterFiveSeconds | daemon/src/udp/UdpCongestionManager.ts:128-135 | A trial is judged, and its counters start afresh, if and only if an event comes more than five seconds after its start |
| CongestionResponse.PeakCoversFlight | daemon/src/udp/UdpCongestionManager.ts:157-222 | In every run the peak of a trial is at least what it has in flight |
| CongestionManager.MedianSplits | daemon/src/udp/UdpCongestionManager.ts:301-308 | At least half of the samples lie on each side of the median |
| CongestionManager.SortSorts | daemon/src/udp/UdpCongestionManager.ts:301-303 | The sorted samples are the samples in ascending order |
| CongestionManager.MedianBetween | daemon/src/udp/UdpCongestionManager.ts:223-238 | The median lies between any bounds of the samples, which keeps the estimate in its range |
| CongestionManager.UdpCongestionManager.SendPacket | daemon/src/udp/UdpCongestionManager.ts:75-89 | Handing in a packet queues it and sends what the window allows |
| CongestionManager.UdpCongestionManager.OnEnd | daemon/src/udp/UdpCongestionManager.ts:93-114 | The end of a packet is counted in its own trial only, answers its caller once and sends what the window then allows |
| FileChunks.StoreFileFromStream | daemon/src/external/real/kacheryStorage/KacheryStorageManager.ts:53-151 | However the bytes are cut into buffers, the streaming chunker produces the manifest of the simple loop, and stores one if and only if the file is larger than a chunk |
| FileChunks.ComputeManifest | kachery_p2p/_local_kachery_storage.py:213-253 | The simple loop produces the manifest of the file |
| FileChunks.ManifestPartitionsFile | kachery_p2p/_local_kachery_storage.py:226-252 | The chunks partition the file, all but the last hold exactly 20000000 bytes, and each hash is that of its own slice |
| FileChunks.ManyChunksIff | kachery_p2p/_local_kachery_storage.py:62-70 | A manifest has more than one chunk if and only if the file is larger than 20000000 bytes, so the two store paths agree on when one is kept |
| FileChunks.StreamingChunker.OnData | daemon/src/external/real/kacheryStorage/KacheryStorageManager.ts:93-100 | After any buffer the chunks listed and the bytes buffered are together exactly the bytes seen, with less than a chunk buffered |
| FileChunks.StreamingChunker.OnFinished | daemon/src/external/real/kacheryStorage/KacheryStorageManager.ts:107-129 | At the end the list is the manifest of everything seen |
| RangeRead.ManifestRangeIsSlice | kachery_p2p/_load_file.py:161-192 | For every partitioning manifest and every range inside the file, the trimmed chunks joined are exactly the slice, and no chunk read is out of range |
| RangeRead.AssembledIffAllThere | kachery_p2p/_load_file.py:161-192 | The assembly succeeds if and only if every chunk that overlaps the range is in the store, with the clamped slice, and otherwise reports a missing chunk |
| RangeRead.NoBoundsMeanWholeFile | kachery_p2p/_load_file.py:200-221 | An absent bound of a local read is the beginning or the end of the file |
| RangeRead.ManifestAgreesWithFileIff | kachery_p2p/_load_file.py:161-221 | Reading through the manifest agrees with reading the file if and only if the range is valid or is reversed inside one chunk |
| RangeRead.OutOfRangeIsClamped | kachery_p2p/_load_file.py:161-221 | Counterexample: for every non-empty file, a range that starts one byte before it is refused by the file and clamped to the whole file by its manifest |
| RangeRead.LoadBytes | kachery_p2p/_load_file.py:168-192 | The two loading loops compute that assembly, and nothing if a chunk is missing |
| RangeRead.LoadBytesFromLocalFile | kachery_p2p/_load_file.py:200-221 | Returning the range and writing it out in blocks deliver the same bytes, or the same refusal |
| ManifestRuns.EndedMeansStored | daemon/src/loadFile.ts:118-122 | In every run, whatever is downloaded and stored meanwhile: a stream that has ended has its file in the store, and, unless a false entry was there from the start, with exactly the file's bytes if and only if nobody stored others under its hash |
| ManifestRuns.BegunLoadStoresTheFile | daemon/src/loadFile.ts:133-187 | Store and load are inverse: in every honest run in which the concatenation of n chunks has begun, whatever comes between its steps, after 2n+3 of them the store holds exactly the file and the stream is no longer open |
| ManifestRuns.ResolvedLoadHasBegun | daemon/src/loadFile.ts:133-187 | In every honest run over a non-empty file a resolved loop has begun the concatenation, and that never throws |
| ManifestRuns.ResolvesBeforeItStores | daemon/src/loadFile.ts:164-179 | A resolved loop does not mean a stored file: in the plain honest run for every non-empty file the file is missing when the loop has resolved if and only if it has more than one chunk |
| ManifestRuns.LoadHangsIff | daemon/src/loadFile.ts:168-187 | A load at rest, neither failed nor cancelled, leaves its caller waiting for ever if and only if the manifest has no chunks or the concatenation threw |
| LoadProgress.ChunkEndMovesOn | daemon/src/loadFile.ts:133-179 | In every run a chunk that is downloaded, or found by itself or inside its file, leaves the loop after one update at the next chunk, or resolved after the last, which begins the concatenation |
| LoadProgress.MissingChunkGoesOn | daemon/src/loadFile.ts:133-163 | A chunk that is neither in the store nor inside a stored file is not found |
| LoadProgress.FailedChunkEndsLoad | daemon/src/loadFile.ts:33-64 | In every run a chunk that fails rejects the loop for good: nothing is started or concatenated afterwards, and a caller still waiting is told |
| LoadProgress.CancelSettlesStream | daemon/src/loadFile.ts:123-132 | Cancelling tells a caller still waiting and leaves loop and concatenation to their own events; what settles the stream settles it for good |
| LoadProgress.UnfailedLoadEnds | daemon/src/loadFile.ts:118-122 | In every honest run in which nothing fails or is cancelled, 2n+3 concatenation steps after it has begun the caller's stream has ended |
| LoadProgress.UnfailedIsNoError | daemon/src/loadFile.ts:156-187 | Only a failed chunk or cancelling makes the caller's stream an error |
| ManifestRuns.ThrowsIff | daemon/src/external/real/kacheryStorage/KacheryStorageManager.ts:204-269 | In every run, whatever is downloaded and stored meanwhile: a concatenation throws if and only if the store held other bytes than the file's when the last chunk ended, and never for a missing chunk |
| ManifestRuns.LoadHangsIffOtherBytes | daemon/src/loadFile.ts:164-187 | So a load at rest whose last chunk has ended, neither failed nor cancelled, hangs if and only if the store held other bytes at that moment |
| ManifestRuns.AloneReturnsIff | daemon/src/external/real/kacheryStorage/KacheryStorageManager.ts:204-269 | An undisturbed concatenation returns if and only if the file is there or all chunk entries are and hold its bytes in order |
| ManifestRuns.NothingFalseIsConcatenated | daemon/src/loadFile.ts:118-188 | In every run, whatever the downloads deliver, no entry is changed or lost, and a new one that is neither a chunk's nor somebody else's has the hash it is stored under |
| ManifestLoad.StoreThenLoadRoundTrip | daemon/src/external/real/kacheryStorage/KacheryStorageManager.ts:204-269 | Once every entry holds its chunk, the original bytes are stored under the file's hash |
| ManifestLoad.ChunkReadsFromParent | daemon/src/external/real/kacheryStorage/KacheryStorageManager.ts:285-304 | A chunk of a stored file reads the same from its own entry and out of the whole file, also by range |
| ManifestLoad.AbsentIsNotRead | daemon/src/external/real/kacheryStorage/KacheryStorageManager.ts:285-304 | What is neither in the store nor a stretch of a file in it is not found and not read |
| ManifestLoad.LoopRunsEveryChunkOnce | daemon/src/loadFile.ts:33-64 | In every run chunks start in order, once each and one at a time, and a resolved loop has finished them all |
| ManifestLoad.LoopNeverHangs | daemon/src/loadFile.ts:33-64 | Until the loop is settled, a chunk is running or an update is scheduled |
| ManifestLoad.ConcatenatesOnceIffNotEmpty | daemon/src/loadFile.ts:133-187 | The concatenation is begun at most once, only after all chunks, and a resolved loop has begun it if and only if there was a chunk |
| ManifestLoad.EmptyManifestNeverConcatenates | daemon/src/loadFile.ts:41-44 | Over a manifest without chunks the loop resolves at once and never begins a concatenation |
| ManifestLoad.AloneIsConcatenate | daemon/src/external/real/kacheryStorage/KacheryStorageManager.ts:204-269 | Undisturbed, the concatenation with its waits does exactly what the uninterrupted one does, error by error |
| ManifestLoad.Concatenation.Continue | daemon/src/external/real/kacheryStorage/KacheryStorageManager.ts:214-268 | From one wait to the next: verifying, reading, checking the hash, and storing unless the file has appeared meanwhile |
| ManifestLoad.KacheryStorage.ConcatenateChunksAndStoreResult | daemon/src/external/real/kacheryStorage/KacheryStorageManager.ts:204-269 | The verifying and the copying loop compute that concatenation |
| ManifestLoad.AsyncLoop.OnFinished | daemon/src/loadFile.ts:164-179 | The end of a chunk is counted by the load and by the loop, and schedules one update |
| DownloadJobs.JobTerminates | daemon/src/downloadOptimizer/DownloadOptimizerJob.ts:41-163 | Every run in which a round hears at most u reports has fewer than (numRetries+1)(3u+2) productive steps |
| DownloadJobs.NeverStuck | daemon/src/downloadOptimizer/DownloadOptimizerJob.ts:93-159 | Until the outcome is known the search, a timer, a download or a retry is pending |
| DownloadJobs.RoundsAndTriesAreBounded | daemon/src/downloadOptimizer/DownloadOptimizerJob.ts:46-79 | There are at most numRetries further rounds, and a provider is tried in a round at most as often as it was reported in it |
| DownloadJobs.FailsOnlyAfterTryingAll | daemon/src/downloadOptimizer/DownloadOptimizerJob.ts:64-79 | A round gives up only after every provider reported was tried; the job then fails if and only if no retry is left or nothing was found, and says why truthfully |
| DownloadJobs.SucceedsIffADownloadEnds | daemon/src/downloadOptimizer/DownloadOptimizerJob.ts:80-86 | The job succeeds if and only if one of its downloads ended well |
| DownloadJobs.OutcomeIsFinal | daemon/src/downloadOptimizer/DownloadOptimizerJob.ts:64-86 | The terminal signal is given at most once and nothing follows it |
| DownloadJobs.FastestFreeProviderStarts | daemon/src/downloadOptimizer/DownloadOptimizerJob.ts:93-136 | A download starts only when none is going on, from a free candidate no slower than any free candidate |
| DownloadJobs.TimerStartsFreeCandidate | daemon/src/downloadOptimizer/DownloadOptimizerJob.ts:98-121 | Once the search has finished or half a second has passed, the pending timer starts a download as soon as a candidate is free |
| DownloadJobs.StartsIff | daemon/src/downloadOptimizer/DownloadOptimizerJob.ts:98-121 | A report, timer or failure that finds no download going on starts one if and only if a candidate is free and the search is over or half a second has passed, sets a timer if there are candidates otherwise, and gives up if and only if there are none and the search is over |
| DownloadJobs.ArgMax | daemon/src/downloadOptimizer/DownloadOptimizerJob.ts:208-210 | The index of the first of the greatest |
| DownloadJobs.Fastest | daemon/src/downloadOptimizer/DownloadOptimizerJob.ts:198-205 | A provider no slower than any other |
| DownloadJobs.DownloadOptimizerJob.CallUpdate | daemon/src/downloadOptimizer/DownloadOptimizerJob.ts:93-159 | The closure over the round's variables makes the specified decision |
| DownloadJobs.DownloadOptimizerJob.OnFound | daemon/src/downloadOptimizer/DownloadOptimizerJob.ts:53-58 | A report is recorded and decided on in its own round and ignored once that round is complete |
| DownloadJobs.DownloadOptimizerJob.OnFindFinished | daemon/src/downloadOptimizer/DownloadOptimizerJob.ts:59-63 | The end of the search counts in its own round and is ignored once that round is complete |
| DownloadJobs.DownloadOptimizerJob.HandleErrorInCurrentDownloader | daemon/src/downloadOptimizer/DownloadOptimizerJob.ts:87-92 | An error frees the round for the next candidate and is kept as the last one |
| DownloadJobs.DownloadOptimizerJob.ReturnFinished | daemon/src/downloadOptimizer/DownloadOptimizerJob.ts:80-86 | A download that ends well completes the round and the job |
| DownloadJobs.DownloadOptimizerJob.NextTry | daemon/src/downloadOptimizer/DownloadOptimizerJob.ts:46-52 | A retry starts a round with variables of its own |
| DownloadJobs.DownloadOptimizerJob.ReturnError | daemon/src/downloadOptimizer/DownloadOptimizerJob.ts:64-79 | A failed round ends the job or sets the retry timer |
| DownloadScheduler.AtMostFiveRun | daemon/src/downloadOptimizer/DownloadOptimizer.ts:153-182 | In every reachable state at most five jobs of the table run, and none runs before an older one |
| DownloadScheduler.JobIffTask | daemon/src/downloadOptimizer/DownloadOptimizer.ts:44-120 | A file has a job in the table if and only if it has a task, then exactly one, and that one has not ended |
| DownloadScheduler.NoLostWakeup | daemon/src/downloadOptimizer/DownloadOptimizer.ts:142-182 | A job waits only while an update is scheduled or five others run |
| DownloadScheduler.UpdateFillsSlots | daemon/src/downloadOptimizer/DownloadOptimizer.ts:153-182 | After a scheduled update five jobs run or none waits |
| TaskLifecycle.NewTaskIsNew | daemon/src/downloadOptimizer/DownloadOptimizer.ts:44-52 | In every run the next task created is one that no file has yet |
| TaskLifecycle.CreatingAddsOneTask | daemon/src/downloadOptimizer/DownloadOptimizer.ts:44-105 | In every run a created task is one more of its file's; no other file's tasks change, and an update is scheduled |
| TaskLifecycle.FirstTaskBringsJob | daemon/src/downloadOptimizer/DownloadOptimizer.ts:53-79 | A file without tasks gets one job, waiting at the end of the table, with this task as its listener |
| TaskLifecycle.FurtherTaskJoins | daemon/src/downloadOptimizer/DownloadOptimizer.ts:53-102 | Any further task joins the one job its file has |
| TaskLifecycle.CancellingRemovesOneTask | daemon/src/downloadOptimizer/DownloadOptimizer.ts:106-120 | Cancelling takes away that one task and no other, and a task that is not there changes nothing |
| TaskLifecycle.LastTaskTakesJob | daemon/src/downloadOptimizer/DownloadOptimizer.ts:106-120 | The table keeps a file's job as long as another task of it is left; with the last one exactly that job leaves, and the others keep their order |
| TaskLifecycle.CreatedTaskRuns | daemon/src/downloadOptimizer/DownloadOptimizer.ts:142-182 | From every run, a task and one update later its file's job runs, unless five jobs do |
| DownloadScheduler.EndReleasesExactlyItsTasks | daemon/src/downloadOptimizer/DownloadOptimizer.ts:86-93 | The end of a table job releases all tasks of its file and its place; the end of any other job, with its stale callbacks, touches nothing else |
| DownloadScheduler.OutsideIffAbandoned | daemon/src/downloadOptimizer/DownloadOptimizer.ts:106-120 | In every run a running job is outside the table if and only if its last task was cancelled while it ran |
| DownloadScheduler.RunningInAll | daemon/src/downloadOptimizer/DownloadOptimizer.ts:153-182 | In every run the jobs running in all are those of the table, at most five, plus exactly the abandoned ones not yet ended |
| DownloadScheduler.AtMostFiveInAll | daemon/src/downloadOptimizer/DownloadOptimizer.ts:153-182 | If no cancelled task was the last of a running job, at most five jobs run in all |
| DownloadScheduler.AnyNumberMayRun | daemon/src/downloadOptimizer/DownloadOptimizer.ts:106-120 | Counterexample to an overall limit: for every n there is a run after which n jobs, all for the same file, run outside the table |
| DownloadScheduler.CancelledJobRunsOn | daemon/src/downloadOptimizer/DownloadOptimizer.ts:106-120 | Cancelling a job's last task takes it out of the table but leaves it running |
| DownloadScheduler.RunsUntilItEnds | daemon/src/downloadOptimizer/DownloadOptimizer.ts:106-120 | A running job stops running if and only if it ends by itself |
| DownloadScheduler.DownloadOptimizer.CreateTask | daemon/src/downloadOptimizer/DownloadOptimizer.ts:44-105 | A task joins the file's job or a new one at the end of the table, and schedules an update |
| DownloadScheduler.DownloadOptimizer.DeleteTask | daemon/src/downloadOptimizer/DownloadOptimizer.ts:106-120 | The last task of a file takes its job out of the table |
| DownloadScheduler.DownloadOptimizer.Update | daemon/src/downloadOptimizer/DownloadOptimizer.ts:153-182 | The loops drop ended jobs, count and start as specified |
| DownloadScheduler.DownloadOptimizer.OnUpdateTimer | daemon/src/downloadOptimizer/DownloadOptimizer.ts:142-152 | The timer clears the flag first, so a wakeup during the update schedules another |
| DownloadScheduler.DownloadOptimizer.JobEnds | daemon/src/downloadOptimizer/DownloadOptimizer.ts:86-93 | Telling the listeners one by one deletes exactly their tasks |
| GarbageMaps.YoungEntriesAreFound | daemon/src/common/GarbageMap.ts:10-68 | After every history an undeleted entry set at most one timeout ago is found with its latest value, and whatever is found is the latest value set and not deleted since |
| GarbageMaps.SurvivorsAreRecent | daemon/src/common/GarbageMap.ts:49-68 | After any get, set or delete, with a positive timeout, no entry is older than one and a half timeouts |
| GarbageMaps.AcceptedTwiceIsFarApart | daemon/src/services/PublicUdpSocketServer.ts:228-231 | Two packets accepted under the same identifier arrived more than one timeout apart |
| GarbageMaps.GarbageMap.Get | daemon/src/common/GarbageMap.ts:16-25 | Getting sweeps first and returns what survives |
| GarbageMaps.GarbageMap.Set | daemon/src/common/GarbageMap.ts:35-41 | Setting stamps the entry and then sweeps |
| GarbageMaps.GarbageMap.CheckGarbageCollection | daemon/src/common/GarbageMap.ts:49-68 | The sweep runs at most once per half timeout and removes exactly the expired entries |
| Subscriptions.SubscribersAreToldOnce | daemon/src/feeds/NewIncomingSubfeedSubscriptionManager.ts:12-40 | After every history an append is reported exactly once to every node that renewed at most a minute ago, at most once to any node, and never to one that did not subscribe |
| Subscriptions.TimerRemovesIffLapsed | daemon/src/feeds/NewIncomingSubfeedSubscriptionManager.ts:57-65 | A removal timer, however stale, ends a subscription if and only if it was not renewed within the last minute |
| Subscriptions.LapsedGetNothing | daemon/src/feeds/NewIncomingSubfeedSubscriptionManager.ts:27-40 | An ended subscription stays ended, and nothing is sent to it, until the node renews |
| Subscriptions.TimelyTimerEndsNothing | daemon/src/feeds/NewIncomingSubfeedSubscriptionManager.ts:23-25 | Counterexample to removal after a minute: a timer firing exactly on time ends nothing, and the node is still told two hours later |
| Subscriptions.RenewalMakesNewSubscription | daemon/src/feeds/NewIncomingSubfeedSubscriptionManager.ts:16-21 | The lookup under the subfeed's code never finds a subscription, so every renewal makes a new one |
| Subscriptions.RunInv | daemon/src/feeds/NewIncomingSubfeedSubscriptionManager.ts:12-40 | In every history the index entry of a subfeed is at least as fresh as each of its subscriptions, despite expiry in both maps |
| Subscriptions.CodesAreInjective | daemon/src/feeds/NewIncomingSubfeedSubscriptionManager.ts:68-74 | Identifiers without colons give different codes to different subscriptions and subfeeds, and never the same code to one of each |
| Subscriptions.NewIncomingSubfeedSubscriptionManager.ReportMessagesAdded | daemon/src/feeds/NewIncomingSubfeedSubscriptionManager.ts:27-40 | The loop over the index sends the specified reports in order |
| Subscriptions.NewIncomingSubfeedSubscriptionManager.CreateOrRenewIncomingSubscription | daemon/src/feeds/NewIncomingSubfeedSubscriptionManager.ts:12-26 | Renewing lists the subscription and stamps it |
| Subscriptions.NewIncomingSubfeedSubscriptionManager.CheckRemove | daemon/src/feeds/NewIncomingSubfeedSubscriptionManager.ts:57-65 | The timer deletes the subscription if it has lapsed |
| GossipTable.EntryIsNewestHeard | daemon/src/RemoteNode.ts:78-103 | In every run each (node, channel) entry is the newest announcement heard unexpired, the last of equally new ones, and is missing only if everything heard has expired |
| GossipTable.EntriesAreAuthentic | daemon/src/RemoteNodeManager.ts:47-78 | In every run every entry is an announcement received within two minutes of its time, about the node and channel it is kept for, signed by that node, never the own one |
| GossipTable.AnnouncementIsHeard | daemon/src/RemoteNode.ts:78-103 | A signed announcement at most two minutes old becomes the entry unless a newer one is there, and changes no other entry |
| GossipTable.OthersAreIgnored | daemon/src/RemoteNodeManager.ts:47-56 | An expired, falsely signed or own announcement changes nothing |
| GossipTable.PruneForgets | daemon/src/RemoteNodeManager.ts:255-267 | Pruning forgets exactly the entries more than two minutes old, and nodes left with neither entry nor address |
| GossipTable.ConfiguringLists | daemon/src/RemoteNodeManager.ts:79-102 | Configuring lists a node under its address, and forgets what was known if and only if the address is another |
| GossipTable.PrunedEntryIff | daemon/src/RemoteNode.ts:170-180 | After pruning an entry is there if and only if something heard has not expired |
| GossipTable.TablesConverge | daemon/src/RemoteNodeManager.ts:47-78 | Nodes that heard the same announcements, in any order and number and with any prunings between, agree after pruning on the entries and their times |
| GossipTable.ContentConvergesIff | daemon/src/RemoteNode.ts:80-86 | They agree on the content whatever the order if and only if no two different announcements are equally new |
| GossipTable.WinnerIsNewest | daemon/src/RemoteNode.ts:80-86 | What repeated replacement leaves is a newest announcement |
| GossipTable.ListedNodesHaveEntries | daemon/src/RemoteNodeManager.ts:255-267 | A node that was not configured by hand is listed only while it has an entry, and the node itself never has one |
| GossipTable.RemoteNode.SetChannelNodeInfoIfMoreRecent | daemon/src/RemoteNode.ts:78-103 | An announcement replaces an entry unless expired or older |
| GossipTable.RemoteNode.PruneChannelNodeInfos | daemon/src/RemoteNode.ts:170-180 | The pruning loop keeps exactly the unexpired entries |
| GossipTable.RemoteNodeManager.SetChannelNodeInfo | daemon/src/RemoteNodeManager.ts:47-78 | Expired, unverified and own announcements change nothing, in that order of checks; any other is recorded, and a new channel is announced |
| GossipTable.RemoteNodeManager.SetBootstrapNode | daemon/src/RemoteNodeManager.ts:79-105 | A node configured under a new address is replaced, with what was known about it; under the same address nothing changes |
| GossipTable.RemoteNodeManager.PruneRemoteNodes | daemon/src/RemoteNodeManager.ts:255-267 | The pruning loop removes expired entries and then the nodes left without any, unless configured by hand |

## Left out

- Sockets, HTTP, websockets, the file system, the command line and display: plumbing; the network is a bag of packets that may be lost, repeated and reordered.
- Cryptography and encodings: a signature verifies exactly for the key and body it was made from, a hash is the content itself, and values travel unencoded; header texts are ASCII.
- SQLite, private keys on disk, feed deletion and access rules: the message table is a map with all-or-nothing transactions; a loaded instance is not told of a deletion, so the chain invariant does not span one.
- Real time and the speed-up factor: only the order of clock readings and the programs' comparisons with their limits matter.
- Random identifiers: they are fresh.
- UdpTransport.CompletedOnceAndExact: packets arrive while the receiver remembers their identifiers and the parts of their message, both for 30 minutes; AcceptedTwiceIsFarApart states what the map of identifiers guarantees.
- UdpTransport.UdpPacketSender.ReceivePacketConfirmation: the map of unconfirmed packets forgets them after five minutes, which is longer than an attempt lasts.
- StreamOverUdp.StreamIsNeverWrong: who subscribes when is left to DataStreamies; messages of one stream come from one sender.
- UdpTransport.ResolvedIsCompleted: a packet's header is well formed and names the sender, so a delivered packet is always accepted.
- DownloadJobs.JobTerminates: provider candidates and jobs live in maps that forget them after an hour; the model assumes shorter jobs. A search restricted to one node never reports its end, so such a job keeps waiting for it, as NeverStuck allows.
- DownloadScheduler.AtMostFiveRun: task identifiers are numbers in order of creation; the job's missing reaction to being cancelled and the listeners of waitForReady, which never wait because no job ever counts as downloading, are not part of the state.
- DownloadScheduler.DownloadOptimizer.JobEnds: the callbacks of a task's own stream run after its deletion; a callback that creates a task from within is not modelled.
- MessageDownloader.NoReportIsLost: a report overwrites the one before, as in the code, so catching up with the writer needs reports in order.
- FeedProgress.UndisturbedAppend: a failed transaction leaves the instance's appending flag set; such an instance is kept in the model, stuck but harmless.
- FeedReads.ClientsReadTheWritersLog: fetches of several subfeeds at once and the 30 ms grace period of a watch are not modelled; a lost or late answer is one that returns nothing and does not advance.
- ManifestRuns.BegunLoadStoresTheFile: downloads and other stores put only bytes under a hash that have it, because storing does not check it; EndedMeansStored and LoadHangsIff hold without that. Reading one chunk is one step, since stored files do not change.
- ManifestLoad.ChunkReadsFromParent: reading an empty stretch, which the read-stream library treats in its own way, gives the empty sequence.
- CongestionManager.UnconfirmedIsInFlight: rates and latencies are real numbers, without rounding or underflow; packet counts and other counters nobody reads are not part of the state.
- DataStreamies.SubscribersSeeEverything: progress and start callbacks are not modelled; neither is a callback that feeds the stream it is called from.
- Subscriptions.SubscribersAreToldOnce: a subscription is a value in the map, not a shared object, because every renewal makes a new one; the delivery of a report is the transport's.
- GossipTable.EntryIsNewestHeard: the check whether a node is online is not modelled; configuring a node under a new address starts its history afresh, as the code does.
- GarbageMaps.GarbageMap.CheckGarbageCollection: the map's iteration order and the default-value form of get are not modelled.
- Method choosers, rate estimation, channel authorisation, discovery, announcing and the validators of received data: easy, or driven by library behaviour.
