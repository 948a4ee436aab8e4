# pi-audio-node: verified model of the engine

pi-audio-node is a networked audio endpoint: it receives redundant RTP streams (SMPTE ST 2022-7),
follows a PTP clock (IEEE 1588-2008), sends PTP-paced RTP, describes itself in SDP and reports its
health over NMOS IS-12 / BCP-008. This project models the engine parts whose correctness depends on
interleavings, wrap-around arithmetic or whole histories, and proves what they promise for every
input, every run or every reachable state.

`dafny verify dfyconfig.toml` checks everything.

## How the model is laid out

| files | part | form |
|---|---|---|
| `JitterRing`, `JitterOrder`, `JitterPolicy`, `JitterSlot`, `JitterMerge`, `JitterWindow`, `JitterCounts`, `RtpReceiver`, `LossCounter` | ST 2022-7 receiver, `src/rtp/rtpreceiver.cpp` | a two-thread step system over unwrapped sequence numbers, theorems over its runs, and a class that works on 16-bit numbers and arrays in place |
| `Bmca`, `Servo`, `ServoConverge`, `PtpState`, `PtpTable`, `PtpRuns`, `PtpElection`, `PtpPairing`, `PtpRest`, `PtpClient` | PTP slave, `src/ptp` | pure comparison and servo, a state machine with one step per mutex section, theorems over its runs, and the class |
| `Is12`, `Is12Mirror`, `Is12Reset`, `Is12Delay`, `Is12Server` | status monitors, `src/nmos/is12.cpp` | the same arrangement: steps, whole-trace theorems, class |
| `MediaClock`, `RtpSender`, `RtpPacket` | PTP-paced sender and the packet layout both ends share | clock arithmetic, the send loop as a method proved against a fold over its iterations, packets built and decoded in arrays |
| `SdpText`, `Sdp`, `SdpRoundTrip`, `SdpReceived`, `SdpForeign` | SDP printer and parser, `src/rtp/sdp.cpp` | real text, character by character, down to `getline`, `sscanf` and `atoi` |
| `MemorySource` | looping source, `src/audio/sources.cpp` | a class filling an array chunk by chunk |
| `EndToEnd` | sender, network and receiver together | the sender's packets as arrivals of the receiver's step system |
| `Common` | | what several parts share |

The three classes carry, as ghost state, the run of the step system they have made so far. `Valid()`
says that it is a run and ends in the object's present state; every method extends it by one step
(`Took`) and ensures what the theorems about runs give for it.

Ghost history (which positions were published, which Sync was accepted, what a connection has
received) is kept beside the modelled variables and is never read by them.

## What turned out not to hold

The model follows the code. Where a property one would expect fails, the project has a run or an
input that shows it and the exact condition under which the property holds.

- **Playing a position twice.** When playout parks, the next stored packet re-anchors it, whatever
  its position. The second leg's copy of a packet that has just been played is stored, because its
  slot was emptied, and is played again (`JitterWindow.LateCopyReanchors`; every arrival is at the
  cursor or one behind it). `JitterOrder.OrderedIff`: in every run, with or without a window,
  positions are handled once and in order if and only if playout never takes up an anchor at or
  behind a position it has already handled. `ReanchorIff` is the same for one packet, as it arrives.
  That slots are not torn, that what plays is one whole packet, and that a packet which stays in
  reach is found, does not depend on it (`JitterSlot`); the theorems of `JitterMerge`, about first
  copies and exact positions, assume that no packet behind the cursor re-anchors playout.
- **Ring window.** `TearIff`: no slot is torn in any run if and only if packets are stored less than
  one ring away from the cursor on either side; old markers and re-anchors do not matter.
  `WindowSizeExact`: the merge is seamless in all runs if and only if the late and
  the early span together fit into the 1024 slots. Beyond that a slot is torn (`Torn`) or a packet that came in time is overwritten and concealed (`Overwritten`).
  `MarkerAgeExact`: and if and only if no marker is left lying for more than a full 16-bit wrap.
  Beyond that an arrival is discarded as the duplicate of a packet never sent (`Mistaken`), and a
  stale copy plays as a new packet (`LateCopyReplays`).
- **Servo rest points.** In a noise-free loop the true offset and delay are not the only rest point.
  A held path delay above twice the true one makes every delay measurement negative, so it is
  rejected for ever and the offset stays wrong by the difference. `RestPoints` lists all rest
  points (if and only if), `TrueRestPoint` says when there is only one, and `StuckRun` reaches a
  wrong one from the start: the path shortens while Syncs pause, which clears the window but keeps
  the delay.
- **Dataset comparison.** `CompareDatasets` branches on "same grandmaster" first. `TransitiveIff`
  says exactly on which triples it is not transitive, through a circle (`CyclicTriple`) or through a
  tie (`LevelTriple`). `ElectionIff`: what RunBmca selects is independent of the order of the table
  if and only if some qualified master beats all others. `SelectedBestIff`: in every state of every
  run the selected master is the best of the present table if and only if the table has a best one.
  Tables with consistent grandmaster attributes have one, and `SelectedNotBest` is a run whose
  table has none. (std::map iterates by
  port identity, so in such a table the identities decide.)
- **One-step Sync after a two-step one.** The pending flag survives a one-step Sync.
  `MeasuredTwiceIff`: an accepted one-step Sync can be measured a second time, by a Follow_Up with
  its number, if and only if a two-step Sync was pending when it came. `MeasuredTwice` is a run.
- **Another master's delay.** The responder is not compared with the selected master, and a change
  of master keeps the number of the latest request. `DelayOwnIff`: a response that counts was asked
  for under the present selection if and only if the latest request was sent since it was made.
  `OldMastersDelay` is a run in which the old master's answer becomes the new one's first delay.
- **Counted transitions after a reset.** From the start, counted transitions take 3 s each. From a
  reset the same bound holds for every continuation if and only if no worse status was already
  pending on an active domain when the reset came (`TransitionsSinceReset`): the reset clears the
  counter but not the waiting time. `ResetInsideDelay` is a run with one transition 1 ms after the
  reset. Both bounds are for statuses from 0 up: a negative one, which no caller uses, is counted
  as soon as it is taken back (`CountsAtOnceIff`, `NegativeCounts`).
- **Mirror after a reset.** The reset methods notify nobody. `ResetExactIff`: the controller's copy
  stays exact if and only if there was nothing to reset; `ResetSilencesMessage` shows that a
  following empty report does not repair it. `DetailShownIff`, over traces with any resets: a
  message or counter is shown rightly if and only if no reset has cleared it since its last
  notification.
- **SDP.** `RoundTripIff` says what comes back for every session of one or two legs whose text holds
  no separators of the format, and that it is the same session if and only if the name has no trailing blanks, there is a channel, a domain only with a grandmaster,
  a leg name only with a second leg, and every leg names its own source. A leg without a source
  takes the positional one or the origin, and if that is empty too, the parser takes the multicast
  group for the source. When only the second leg is enabled and has no address, it is advertised
  with the first leg's address (`OtherLegsSource`).

## Model

| member | source | states |
|---|---|---|
| JitterOrder.OrderedIff | src/rtp/rtpreceiver.cpp:246-368 | For every run, windowed or not: positions are played, concealed or dropped at most once and in increasing order if and only if playout never takes up an anchor at or behind a position it has already handled |
| JitterOrder.ReanchorIff | src/rtp/rtpreceiver.cpp:239-243 | For a packet that re-anchors a parked playout: every continuation under that anchor stays in order if and only if playout has not yet handled its position or a later one |
| JitterOrder.RewindsBelowCursor | src/rtp/rtpreceiver.cpp:346-355 | Once something was handled under the present anchor, that is the same as the packet lying below the cursor |
| JitterOrder.InOrderOnce | src/rtp/rtpreceiver.cpp:300-366 | Whatever is handled later lies strictly higher, across re-anchors and 16-bit wraps, unless playout took up a passed anchor before |
| JitterOrder.EveryPositionOnce | src/rtp/rtpreceiver.cpp:305-344 | In every run: since the last anchor the events are exactly the positions from anchor to cursor, one each, in order |
| JitterOrder.LogMeans | src/rtp/rtpreceiver.cpp:309-311 | Every logged event was written by the step that handled its position |
| JitterOrder.AnchorOf | src/rtp/rtpreceiver.cpp:239-243 | A playout that knows where to start was anchored by a published packet, the latest such |
| JitterPolicy.ConcealsIff | src/rtp/rtpreceiver.cpp:314-345 | A missing packet of a stream being received is concealed, and the cursor moved on, if and only if at most two packets are queued, or less than half the target is and one of the next sixteen slots carries its own 16-bit number; otherwise nothing changes |
| JitterPolicy.ParksIff | src/rtp/rtpreceiver.cpp:346-355 | Playout parks if and only if nothing is being received, and then waits for a packet to restart at |
| JitterPolicy.MatchesIff | src/rtp/rtpreceiver.cpp:302-305 | The packet at the cursor is taken if and only if its slot carries the cursor's 16-bit number plus one |
| JitterPolicy.DropsIff | src/rtp/rtpreceiver.cpp:357-366 | A packet is dropped if and only if more than the target and four packets are queued and the cursor's packet is there |
| JitterPolicy.DiscardsIff | src/rtp/rtpreceiver.cpp:207-212 | An arrival is discarded if and only if its slot carries its number |
| JitterPolicy.SecondaryMeans | src/rtp/rtpreceiver.cpp:237 | The merged-from-secondary counter is the number of publications from the second leg |
| JitterSlot.NoTornSlot | src/rtp/rtpreceiver.cpp:302-311 | As long as packets are stored less than one ring away from the cursor, on either side: from playout's match to its clear no step of either thread changes the slot's samples or marker, and what is cleared is what was fed and written |
| JitterSlot.PlayedIsComplete | src/rtp/rtpreceiver.cpp:207-236 | Under the same condition whatever plays is the complete decode of one published packet with the cursor's 16-bit number, and of that very position unless it lay in the ring for a whole wrap |
| JitterSlot.InTimeIsMatched | src/rtp/rtpreceiver.cpp:302-345 | If late and early span fit into one ring, a published packet that stays in reach until playout looks for it is found complete, in any interleaving |
| JitterSlot.InTimeNeverConcealed | src/rtp/rtpreceiver.cpp:314-345 | A packet published before playout came to its position, and in reach since, is not concealed |
| JitterSlot.PublishedWhole | src/rtp/rtpreceiver.cpp:229-236 | In every run a publication leaves the complete packet in its slot |
| JitterSlot.WholeAlways | src/rtp/rtpreceiver.cpp:207-236 | In every run a marked slot that is not being overwritten holds a published packet, whole |
| JitterSlot.WriterFrom | src/rtp/rtpreceiver.cpp:207-236 | The packet being stored is the latest arrival that was not discarded |
| JitterSlot.MissedMeans | src/rtp/rtpreceiver.cpp:305-345 | A miss being handled refers to the look that caused it, at the same cursor ever since |
| JitterMerge.PlayedIsPublished | src/rtp/rtpreceiver.cpp:207-237 | In a windowed run what is metered and written is the first published copy of exactly the position at the cursor |
| JitterMerge.ConcealedWasMissing | src/rtp/rtpreceiver.cpp:314-344 | A position is concealed only if no leg had published it when the cursor looked for it |
| JitterMerge.DuplicateIffPublished | src/rtp/rtpreceiver.cpp:207-212 | Inside the window an arrival at or ahead of playout is discarded as a duplicate if and only if its position was already published |
| JitterMerge.InvAlways | src/rtp/rtpreceiver.cpp:177-368 | The ring agrees with the map from positions to packets in every state of every windowed run |
| JitterMerge.StepKeeps | src/rtp/rtpreceiver.cpp:177-368 | Every step of either thread keeps that agreement |
| JitterMerge.WriterClear | src/rtp/rtpreceiver.cpp:207-236 | The slot being filled is never the slot of a packet still to be played |
| JitterMerge.MatchIsHeld | src/rtp/rtpreceiver.cpp:305 | A generation marker that matches a 16-bit number belongs to that very position, not to one 65536 away |
| JitterMerge.PublishedMeans | src/rtp/rtpreceiver.cpp:229-236 | The history map holds exactly the positions published so far, each with its first copy |
| JitterMerge.HorizonGrows | src/rtp/rtpreceiver.cpp:346-355 | The position playout is committed to never goes back, parking and re-anchoring included |
| JitterWindow.WindowSizeExact | src/rtp/rtpreceiver.cpp:207-236 | For all late and early spans: every run that keeps to them is seamless (plays complete published packets, conceals nothing that came in time, discards only real duplicates) if and only if the two together fit into the ring |
| JitterWindow.TearIff | src/rtp/rtpreceiver.cpp:207-311 | For all distances: no run that keeps to them ever plays a torn slot if and only if both are less than one ring |
| JitterWindow.WindowedIsSeamless | src/rtp/rtpreceiver.cpp:177-368 | The sufficient half of the seamless merge, from the merge theorems |
| JitterWindow.MarkerAgeExact | src/rtp/rtpreceiver.cpp:208 | Inside such a window every run is seamless if and only if no marker is left in the ring for more than a full 16-bit wrap |
| JitterWindow.Torn | src/rtp/rtpreceiver.cpp:229-236 | A run in which the meters see packet 0 and the sound card gets a packet one ring away |
| JitterWindow.Overwritten | src/rtp/rtpreceiver.cpp:207-236 | A run in which a late packet overwrites one that came in time, which is then concealed |
| JitterWindow.Mistaken | src/rtp/rtpreceiver.cpp:208-212 | A run in which a packet that never came before is discarded as a duplicate, because one left behind by a race between look and conceal carries its 16-bit number |
| JitterWindow.LateCopyReplays | src/rtp/rtpreceiver.cpp:208-236 | A run in which playout matches a position that was never published, from a stale copy 65536 earlier |
| JitterWindow.LateCopyReanchors | src/rtp/rtpreceiver.cpp:346-355 | A run that plays one position twice: the second leg's copy re-anchors a parked playout |
| JitterWindow.ConcealOn | src/rtp/rtpreceiver.cpp:337-344 | While nothing carries the cursor's marker, playout can conceal any number of positions |
| JitterCounts.PacketConservation | src/rtp/rtpreceiver.cpp:186-237 | After every step of every run, without any window: received = duplicates + rejected + stored (+ one in flight); stored = played + dropped + overwritten + still occupied; cursor advance since the anchor = played + concealed + dropped since then |
| JitterCounts.ConservedStep | src/rtp/rtpreceiver.cpp:305-366 | Each single step keeps those balances |
| JitterCounts.OccupiedUpdate | src/rtp/rtpreceiver.cpp:236 | Storing a marker changes the number of occupied slots by what it replaces |
| RtpReceiver.RtpReceiver.constructor | src/rtp/rtpreceiver.cpp:119-127 | Configure's resets start a run of the step system |
| RtpReceiver.RtpReceiver.HandlePacket | src/rtp/rtpreceiver.cpp:177-212 | Parsing, leg accounting and the duplicate check on 16-bit values extend the run by Arrive or Reject on positions; every packet stays accounted for |
| RtpReceiver.RtpReceiver.CheckDuplicate | src/rtp/rtpreceiver.cpp:207-212 | The marker test on 16-bit values is the one on positions |
| RtpReceiver.RtpReceiver.ResizeSlot | src/rtp/rtpreceiver.cpp:229 | Resizing the slot's buffer in place extends the run by Resize |
| RtpReceiver.RtpReceiver.StoreNext | src/rtp/rtpreceiver.cpp:230-234 | Storing one sample in place extends the run by StoreSample |
| RtpReceiver.RtpReceiver.PublishSlot | src/rtp/rtpreceiver.cpp:235-243 | Marker, secondary-leg counter and first-packet anchor extend the run by Publish |
| RtpReceiver.RtpReceiver.LookAtCursor | src/rtp/rtpreceiver.cpp:302-305 | The marker test at the 16-bit cursor answers whether the run's next state is a match |
| RtpReceiver.RtpReceiver.FeedMeters | src/rtp/rtpreceiver.cpp:307 | The meters get what the slot holds in the run's state |
| RtpReceiver.RtpReceiver.WriteOut | src/rtp/rtpreceiver.cpp:308 | With packets stored less than one ring away the sound card gets what the meters saw; in a windowed run it is the first published copy of the cursor's position |
| RtpReceiver.RtpReceiver.ClearPlayed | src/rtp/rtpreceiver.cpp:309-311 | Marker cleared, counter and wrapping cursor advanced: the run's Clear |
| RtpReceiver.RtpReceiver.ProbeAhead | src/rtp/rtpreceiver.cpp:322-327 | The 16-slot probe in wrapping arithmetic answers true if and only if a newer packet is waiting |
| RtpReceiver.RtpReceiver.HandleMiss | src/rtp/rtpreceiver.cpp:314-350 | Parks if and only if nothing is being received; otherwise counter and wrapping cursor move by one if and only if it is time to conceal, as JitterPolicy.ConcealsIff says |
| RtpReceiver.RtpReceiver.ResumePlayout | src/rtp/rtpreceiver.cpp:350-355 | The cursor restarts at the anchoring packet: the run's Resume |
| RtpReceiver.RtpReceiver.SteerDrift | src/rtp/rtpreceiver.cpp:358-361 | A drop is decided exactly when the queue is too deep and the packet is there: the run's Drift |
| RtpReceiver.RtpReceiver.ClearDropped | src/rtp/rtpreceiver.cpp:361-365 | The dropped packet's slot is emptied and the cursor advanced: the run's DropClear |
| LossCounter.CoversSpan | src/rtp/rtpreceiver.cpp:186-193 | For every arrival order received + lost is at least the span of signed 16-bit steps, with equality if and only if every packet moves forward |
| LossCounter.ExactLoss | src/rtp/rtpreceiver.cpp:187-192 | In-order streams with gaps below 2^15 count exactly their missing packets, over any number of wraps |
| LossCounter.Signed16 | src/rtp/rtpreceiver.cpp:189 | The 16-bit cast gives the representative of the difference in [-32768, 32768) |
| RtpPacket.Sample | src/rtp/rtpreceiver.cpp:214-224 | The hand-made sign extension is the two's complement reading of 2 or 3 big-endian bytes |
| RtpPacket.IndexInside | src/rtp/rtpreceiver.cpp:202-233 | Every decode index lies inside the payload for any length, channel count and monitor choice |
| RtpPacket.DecodedMeans | src/rtp/rtpreceiver.cpp:196-234 | For any payload, format and monitor choice: how many frames there are, from which bytes each ear's sample is read, and which channel each ear hears |
| RtpPacket.ParseMeans | src/rtp/rtpreceiver.cpp:179-205 | Ignored if and only if not version 2; usable if and only if a complete frame follows the header and its contributing sources; number and timestamp from bytes 2 to 7 |
| RtpPacket.DecodeInto | src/rtp/rtpreceiver.cpp:229-234 | The decode loop leaves exactly the two monitored channels, frame by frame |
| RtpPacket.ParsePacket | src/rtp/rtpreceiver.cpp:179-234 | Header checks, fields and decode loop together compute the parse function |
| RtpPacket.StorePayload | src/rtp/rtpsender.cpp:202-210 | The L24 loop stores every sample's three bytes in its place and leaves the header alone |
| RtpPacket.BuildPacket | src/rtp/rtpsender.cpp:193-210 | The packet is the section 5.1 header of RFC 3550 followed by the section 4 payload of RFC 3190 |
| RtpPacket.SampleRoundTrip | src/rtp/rtpsender.cpp:206-209 | Every signed 24-bit value survives the wire |
| RtpPacket.HeaderFields | src/rtp/rtpreceiver.cpp:179-181 | The receiver reads back sequence number and timestamp from any header the sender writes |
| RtpPacket.HeaderLayout | src/rtp/rtpsender.cpp:193-200 | The twelve header bytes hold version 2 alone, payload type, number, timestamp and SSRC |
| RtpPacket.DecodedPayload | src/rtp/rtpreceiver.cpp:214-234 | A decoded stereo payload is the sender's block under the monitor choice |
| RtpPacket.PacketRoundTrip | src/rtp/rtpsender.cpp:188-210 | For every sequence number, timestamp and L24 block the receiver recovers exactly what the sender wrote |
| RtpPacket.HeardWhole | src/rtp/rtpreceiver.cpp:225-228 | Without a monitor choice both channels are heard as sent |
| Bmca.Antisymmetric | src/ptp/bmca.cpp:14-57 | Swapping the arguments negates the result and keeps the deciding field, for all datasets; ties are exactly same grandmaster, distance and port |
| Bmca.KeyOrder | src/ptp/bmca.cpp:14-57 | For consistent datasets the branching comparison is one lexicographic order over nine fields |
| Bmca.DecidingField | src/ptp/bmca.cpp:19-56 | The reported field is the first of the nine that differs, and the winner is smaller in it |
| Bmca.Transitive | src/ptp/bmca.cpp:14-57 | Consistent datasets are compared transitively |
| Bmca.CycleIff | src/ptp/bmca.cpp:16-19 | Without consistency, exactly which triples beat each other in a circle |
| Bmca.TransitiveIff | src/ptp/bmca.cpp:14-57 | Exactly on which triples the comparison is not transitive, ties included |
| Bmca.CyclicTriple | src/ptp/bmca.cpp:16-19 | Three datasets of different ports that beat each other in a circle |
| Bmca.LevelTriple | src/ptp/bmca.cpp:44-56 | Three datasets of which the first beats the second, the second the third, and the first and third tie |
| Bmca.PairOrder | src/ptp/bmca.cpp:19-56 | The comparison is attribute order between grandmasters and topology order within one |
| Servo.MedianRank | src/ptp/ptpclient.cpp:433-436 | The element chosen after sorting has more than half the window at or below it and at least half at or above it |
| Servo.MedianRobust | src/ptp/ptpclient.cpp:433-436 | With fewer than half the samples corrupted the median lies between two good ones |
| Servo.SortSorted | src/ptp/ptpclient.cpp:435 | The window is sorted |
| Servo.SortCount | src/ptp/ptpclient.cpp:435 | Sorting changes no value's rank count |
| Servo.AddSampleKeeps | src/ptp/ptpclient.cpp:428-440 | Window of at most 16 and smoothed offset in the hull of the samples since sync was lost, through jumps and restarts |
| Servo.WindowAfter | src/ptp/ptpclient.cpp:420-429 | The window restarts with the sample if and only if it held at least eight and the sample is more than 50 ms from the smoothed offset; otherwise it is the last sixteen |
| Servo.OffsetAfter | src/ptp/ptpclient.cpp:431-440 | Below four samples nothing moves, the first four lock the offset on their median, later ones move it a tenth of the way |
| Servo.JumpRestarts | src/ptp/ptpclient.cpp:421-437 | A jump of more than 50 ms moves a settled offset at its fourth sample, by a tenth of the way |
| Servo.DelayAfter | src/ptp/ptpclient.cpp:484-489 | A delay outside [0, 100 ms) changes nothing, the first is taken as it is, later ones move the held one a tenth of the way |
| Servo.SampleStaysNear | src/ptp/ptpclient.cpp:408-440 | A noise-free Sync measurement keeps offset and window within any bound that is at least the path delay |
| Servo.DelayStaysNear | src/ptp/ptpclient.cpp:480-489 | So does a noise-free Delay_Resp: first, low-passed or rejected |
| Servo.RestPoints | src/ptp/ptpclient.cpp:408-440 | All rest points of the coupled loop, if and only if: the true one and the stuck ones |
| Servo.TrueRestPoint | src/ptp/ptpclient.cpp:472-490 | Within one path delay of the truth the only rest point is the true offset and delay |
| PtpRuns.ScanFindsBest | src/ptp/ptpclient.cpp:324-332 | One pass in any order finds the master that beats every other qualified one |
| PtpRuns.ElectedIsBest | src/ptp/ptpclient.cpp:321-332 | The elected master is the best of the table and there is only one best |
| PtpRuns.SelectedIsElected | src/ptp/ptpclient.cpp:294-374 | In every state of every run, whatever was announced, the selected master is what a pass over the present table elects, and the notes are against it |
| PtpRuns.SelectedIsBest | src/ptp/ptpclient.cpp:294-374 | In every state of every run whose present table is consistent the selected master is the best of it with at least two primary announces, and every note names the true deciding field |
| PtpElection.SelectedBestIff | src/ptp/ptpclient.cpp:321-374 | In every state of every run the selected master is the best of the present table if and only if the table has a best one |
| PtpRuns.LosingArrival | src/ptp/ptpclient.cpp:294-318 | An announce of a master that loses to the best one, or is not qualified, leaves selection, servo, delay and pairing untouched |
| PtpRuns.LosingTimeout | src/ptp/ptpclient.cpp:505-526 | However many other masters time out together, the servo is left as Sync silence alone would leave it |
| PtpTable.EntryMeans | src/ptp/ptpclient.cpp:294-317 | For every run and entry: its two counters are the announces on each net since it was created, its time that of the latest on either, its dataset that of the latest primary one, or of the latest at all while there is none |
| PtpTable.PresentIff | src/ptp/ptpclient.cpp:505-518 | After a step an entry is in the table if and only if it was just announced, or was there and the domain did not change and the timer did not find its last announce more than 6 s old |
| PtpTable.SelectedAnnouncedTwice | src/ptp/ptpclient.cpp:323-332 | A selected master has at least two primary announces since it came into the table; blue ones do not count |
| PtpTable.HeardMeans | src/ptp/ptpclient.cpp:303-317 | What one announce does to the table, net by net |
| PtpElection.ElectionIff | src/ptp/ptpclient.cpp:324-332 | For every table: the pass elects the same master in every order if and only if some qualified master beats all others, or none is qualified |
| PtpElection.ConsistentHasBest | src/ptp/ptpclient.cpp:324-332 | Tables with consistent grandmaster attributes always have one |
| PtpElection.SelectedNotBest | src/ptp/ptpclient.cpp:294-332 | A run of six announces after which the selected master is beaten by another one |
| PtpRuns.ChangeRestarts | src/ptp/ptpclient.cpp:357-373 | In every run a change of master restarts window and delay and drops a pending Sync; only a domain change leaves that flag up |
| PtpRuns.SyncLostIff | src/ptp/ptpclient.cpp:520-526 | In every run sync ends if and only if the last master goes or the timer finds the latest accepted Sync more than 5 s old |
| PtpPairing.SyncLostAfterSilence | src/ptp/ptpclient.cpp:520-526 | The same in terms of the latest accepted Sync, one- or two-step: more than 5000 ms old |
| PtpPairing.LastSyncMeans | src/ptp/ptpclient.cpp:382 | The remembered time is that of the latest accepted Sync |
| PtpRuns.TrackingAlways | src/ptp/ptpclient.cpp:357-374 | In every reachable state synced implies a master, the window is at most 16, offset in the hull, held delay in [0, 100 ms), measurements plus pending flag at most accepted Syncs |
| PtpPairing.AwaitingMeans | src/ptp/ptpclient.cpp:382-389 | A raised flag refers to the latest accepted Sync, accepted under the present selection, and has been up since |
| PtpPairing.SyncMeans | src/ptp/ptpclient.cpp:376-394 | Only the selected master's Syncs count; each is remembered, and raises the flag or is measured with the held delay added |
| PtpPairing.FollowUpMeans | src/ptp/ptpclient.cpp:396-406 | A Follow_Up is measured if and only if a Sync is pending and clock and number match, and then lowers the flag |
| PtpPairing.DifferenceMeans | src/ptp/ptpclient.cpp:412 | Time differences are signed 64-bit ones |
| PtpPairing.SyncPairing | src/ptp/ptpclient.cpp:396-416 | Every completing Follow_Up uses the receive time of the latest accepted Sync of the same sequence number and clock, taken since the master was selected; that Sync was measured before if and only if it was one-step, and then a two-step one was pending |
| PtpPairing.MeasuredTwiceIff | src/ptp/ptpclient.cpp:386-405 | An accepted one-step Sync can be measured again in some continuation if and only if a two-step Sync was pending when it came |
| PtpPairing.MeasuredTwice | src/ptp/ptpclient.cpp:386-405 | A run from the start that does it |
| PtpPairing.LatestRequest | src/ptp/ptpclient.cpp:456-462 | The remembered number is the count of requests modulo 2^16, the remembered time that of the latest one |
| PtpPairing.DelayPairing | src/ptp/ptpclient.cpp:477-490 | A response counts if and only if it carries the latest request's number, and is measured against that request's transmit time |
| PtpPairing.DelayOwnIff | src/ptp/ptpclient.cpp:472-490 | A response that counts was asked for under the present selection if and only if the latest request was sent since that selection was made |
| PtpPairing.OldMastersDelay | src/ptp/ptpclient.cpp:472-490 | A run in which the old master's answer becomes the first delay held for the new one |
| PtpRest.StuckRun | src/ptp/ptpclient.cpp:484-526 | A run from the start to a rest point 5 ms off the true offset |
| PtpRuns.NeverDiverges | src/ptp/ptpclient.cpp:408-440 | Under every interleaving of noise-free Sync, Follow_Up, Delay_Resp, announces, time-outs and domain changes, offset, delay and window stay within any bound that is at least the path delay |
| ServoConverge.RoundShrinks | src/ptp/ptpclient.cpp:408-490 | Starting within one path delay (of at most 25 ms) of the truth, at least 46 noise-free Syncs, a Delay_Resp and 46 more Syncs bring offset, delay and window closer by a tenth |
| ServoConverge.Converges | src/ptp/ptpclient.cpp:408-490 | For every tolerance there is a number of such rounds from which on everything is within it of the truth |
| PtpRest.MeasuredIsNoiseFree | src/ptp/ptpclient.cpp:408-416 | A noise-free measurement of the client is a Sync of those rounds |
| PtpClient.PtpClient.constructor | src/ptp/ptpclient.h:90-107 | A new client has no masters, no pending Sync, an empty window and no delay: the start of a run |
| PtpClient.PtpClient.FindBest | src/ptp/ptpclient.cpp:323-332 | RunBmca's first loop returns what a pass over the whole table elects |
| PtpClient.PtpClient.Annotate | src/ptp/ptpclient.cpp:334-355 | RunBmca's second loop leaves every entry annotated against the elected master |
| PtpClient.PtpClient.RunBmca | src/ptp/ptpclient.cpp:321-374 | The three parts together are one re-selection |
| PtpClient.PtpClient.HandleAnnounce | src/ptp/ptpclient.cpp:294-318 | Extends the run by Announce; only net 0 raises the primary count; if the resulting table has a best master it is the selected one, and if it is consistent every note is true |
| PtpClient.PtpClient.Erase | src/ptp/ptpclient.cpp:508-512 | One erasure followed by RunBmca |
| PtpClient.PtpClient.EraseSilent | src/ptp/ptpclient.cpp:505-518 | The ageing loop erases exactly the expired masters, re-selecting after each |
| PtpClient.PtpClient.AgeOut | src/ptp/ptpclient.cpp:502-526 | The timer section extends the run by Age; sync is lost exactly with the last master or after 5 s without an accepted Sync |
| PtpClient.PtpClient.ChangeDomain | src/ptp/ptpclient.cpp:118-129 | Extends the run by the domain change: a pending Sync stays pending, but no Sync or Follow_Up is accepted until a master is selected |
| PtpClient.PtpClient.HandleSync | src/ptp/ptpclient.cpp:376-394 | Extends the run by Sync; a Sync of another clock changes nothing, and measurements plus pending flag never exceed accepted Syncs |
| PtpClient.PtpClient.HandleFollowUp | src/ptp/ptpclient.cpp:396-406 | Extends the run by FollowUp; a completed measurement pairs it with the latest accepted Sync of its number and clock |
| PtpClient.PtpClient.SendDelayReq | src/ptp/ptpclient.cpp:456-462 | The number sent is the count of requests so far modulo 2^16 |
| PtpClient.PtpClient.HandleDelayResp | src/ptp/ptpclient.cpp:477-490 | Only an answer to the latest request moves the servo, and a held delay is in [0, 100 ms) |
| Is12Mirror.NotificationMirror | src/nmos/is12.cpp:323-442 | A controller subscribed throughout that folds notifications over a snapshot holds what GetProperty returns: statuses, overall status and message, sync source always; domain messages and counters too in reset-free traces |
| Is12Mirror.StepMirrors | src/nmos/is12.cpp:344-442 | One step's notifications keep the mirror |
| Is12Mirror.UpdateMirrors | src/nmos/is12.cpp:344-379 | One UpdateDomain with its notifications keeps the mirror, held back or not |
| Is12Mirror.RecomputedMirrors | src/nmos/is12.cpp:381-417 | RecomputeOverall notifies every change it makes |
| Is12Mirror.ResetMirrors | src/nmos/is12.cpp:175-201 | A reset keeps the mirror for everything that does not hold its reset value |
| Is12Mirror.ResetExactIff | src/nmos/is12.cpp:182-198 | A reset keeps an exact mirror if and only if there was nothing to reset |
| Is12Reset.DetailShownIff | src/nmos/is12.cpp:175-442 | Over traces with any resets: a subscribed controller shows a message or counter rightly if and only if no reset has cleared it since its last notification |
| Is12Mirror.ResetSilencesMessage | src/nmos/is12.cpp:186 | After a reset an empty report notifies no message change |
| Is12Mirror.OnlySubscribed | src/nmos/is12.cpp:51-64 | In every step of every trace an open connection receives notifications of the objects it is subscribed to and of no other, and loses none it had |
| Is12Mirror.SubscriptionMeans | src/nmos/is12.cpp:51-122 | Connecting starts empty, a subscription is replaced by those of objects 1, 10 and 11 that are asked for, closing forgets it, and other connections are untouched |
| Is12Delay.AppliesAtOnce | src/nmos/is12.cpp:346-379 | Equal, healthier and at most healthy requests take effect at once |
| Is12Delay.UpdateResult | src/nmos/is12.cpp:350-377 | One request touches its own domain alone |
| Is12Delay.PendingMeans | src/nmos/is12.cpp:351-361 | A pending status is one that every request since its recorded time asked for |
| Is12Delay.WorsensOnlyAfterDelay | src/nmos/is12.cpp:346-372 | A domain worsens to 2 or 3 only if every request for at least the preceding 3 s asked for exactly that |
| Is12Delay.AppliesAfterDelay | src/nmos/is12.cpp:349-377 | What every request on a domain asks for over at least 3 s is reported with the last one's message, from any earlier status, inactive included |
| Is12Delay.HeldBackIsInvisible | src/nmos/is12.cpp:351-360 | A request is reported whole or leaves status, message and counter alone |
| Is12Delay.TransitionsMeans | src/nmos/is12.cpp:363-369 | The counter is the number of steps since the latest reset that made an active domain worse, modulo 2^32 |
| Is12Delay.TransitionsSinceStart | src/nmos/is12.cpp:363-369 | While no request is negative, counted transitions times 3 s never exceed the time since the start |
| Is12Delay.CountsAtOnceIff | src/nmos/is12.cpp:351-369 | A transition is counted without delay only out of a negative status |
| Is12Delay.NegativeCounts | src/nmos/is12.cpp:351-369 | A run that counts one in no time |
| Is12Delay.TransitionsSinceReset | src/nmos/is12.cpp:182-198 | Counted from a reset, the bound holds for every continuation if and only if nothing was pending on an active domain |
| Is12Delay.ResetInsideDelay | src/nmos/is12.cpp:182-198 | A run with a counted transition 1 ms after a reset |
| Is12Delay.OverallAlways | src/nmos/is12.cpp:381-417 | After every step of every run, early returns included, overall status is the worst-of rule over the domains in use |
| Is12Delay.MessageAlways | src/nmos/is12.cpp:381-417 | The overall message is the first worst domain's whenever there was no reset since the start or since the latest report that took effect |
| Is12Delay.WorstIsFirstMaximum | src/nmos/is12.cpp:393-405 | The loop finds the first of the worst domains in use, for any statuses |
| Is12Server.Is12Server.constructor | src/nmos/is12.cpp:36-42 | Two monitors with the link domain healthy and no subscriptions: the start of a run |
| Is12Server.Is12Server.Notify | src/nmos/is12.cpp:323-342 | Exactly the connections subscribed to the object receive the notification |
| Is12Server.Is12Server.Report | src/nmos/is12.cpp:367-377 | A changed property is stored and notified once |
| Is12Server.Is12Server.ChangeStatus | src/nmos/is12.cpp:363-372 | Counter before status, each notified |
| Is12Server.Is12Server.RecomputeOverall | src/nmos/is12.cpp:381-417 | The in-place recomputation and its notifications |
| Is12Server.Is12Server.Update | src/nmos/is12.cpp:344-429 | UpdateReceiverDomain and UpdateSenderDomain extend the run by Update, for any int status; a status asked for over 3 s is reported; the worst-of rule holds, and a report that took effect leaves the worst domain's message |
| Is12Server.Is12Server.SetSourceOf | src/nmos/is12.cpp:434-441 | One monitor's sync source, notified when it changes |
| Is12Server.Is12Server.SetSyncSource | src/nmos/is12.cpp:431-442 | Both monitors end up with the source; extends the run by SyncSource |
| Is12Server.Is12Server.ResetCounters | src/nmos/is12.cpp:175-199 | Messages and transition counters cleared and nobody told; extends the run by Reset |
| Is12Server.Is12Server.HandleSubscription | src/nmos/is12.cpp:107-125 | The subscription is replaced by exactly the known objects asked for, and the response lists them in the order asked |
| MediaClock.SplitIsExact | src/rtp/rtpsender.cpp:188-192 | The split-seconds formula is floor(ns*48000/10^9) and no 64-bit intermediate overflows |
| MediaClock.StepIsFramesOrOneMore | src/rtp/rtpsender.cpp:173-192 | Within an anchor the media clock moves by the frames of a packet or one more |
| MediaClock.TimestampStep | src/rtp/rtpsender.cpp:190-192 | The same modulo 2^32 on the wire |
| MediaClock.ExactIff125 | src/rtp/rtpsender.cpp:136-192 | Every step is exact if and only if the packet time is a multiple of 125 us |
| MediaClock.AgeIsTrueAge | src/rtp/rtpreceiver.cpp:262-264 | The signed 32-bit age is the true age across timestamp wraps |
| MediaClock.AnchorBound | src/rtp/rtpreceiver.cpp:259-270 | Playout is first planned within one sample plus 1 us of deadline plus playout delay |
| MediaClock.SleepMeans | src/rtp/rtpreceiver.cpp:265-269 | The wait is slept to the microsecond below if it is positive and less than a second, otherwise not at all |
| RtpSender.Iteration | src/rtp/rtpsender.cpp:155-247 | One loop iteration with the packet built in an array, equal to the function IterationMeans describes |
| RtpSender.SendLoop | src/rtp/rtpsender.cpp:125-248 | The loop over any sequence of iterations, equal to the fold SentMeans and SteadySender describe |
| RtpSender.IterationMeans | src/rtp/rtpsender.cpp:157-179 | An iteration that needs an anchor or finds PTP unsynced starts a grid 20 ms after PTP time, any other keeps its grid; one packet leaves if and only if the deadline is within 2 s of PTP time |
| RtpSender.SentMeans | src/rtp/rtpsender.cpp:157-246 | Every packet sent: the iteration that sent it and gave its block, the one that started its grid, and its deadline on that grid |
| RtpSender.SteadySender | src/rtp/rtpsender.cpp:155-246 | A sender on schedule sends one packet per iteration, the k-th with block k, 20 ms and k packet times after it began |
| RtpSender.SequenceNumbers | src/rtp/rtpsender.cpp:152-246 | The k-th packet carries SSRC + k mod 2^16 across all re-anchors, on its anchor's deadline grid |
| RtpSender.AnchorsAreTrains | src/rtp/rtpsender.cpp:157-179 | Every packet is the next grid point of the same anchor or the first of a new one |
| RtpSender.TimestampsFollowMediaClock | src/rtp/rtpsender.cpp:188-192 | Consecutive wire timestamps inside an anchor differ by the frames of a packet or one more |
| RtpSender.NoPacketAfterJump | src/rtp/rtpsender.cpp:173-179 | Nothing is sent more than 2 s off its deadline; not sending means re-anchoring |
| RtpSender.ReceiverHears | src/rtp/rtpsender.cpp:188-231 | Whatever any run sends, a receiver decodes to the same number, media clock and samples |
| EndToEnd.HearsBlocks | src/rtp/rtpreceiver.cpp:305-311 | If both legs carry packets of one run of the sender, whatever plays is one of its blocks, whole, with the cursor's 16-bit number |
| EndToEnd.ListenerHears | src/rtp/rtpreceiver.cpp:177-311 | In a windowed run what plays at position SSRC + k is the sender's block k, and blocks are heard in the order sent, none twice |
| EndToEnd.WindowedIsOrdered | src/rtp/rtpreceiver.cpp:300-366 | Windowed runs handle positions in order |
| SdpText.Find | src/rtp/sdp.cpp:43 | First occurrence at or after a position |
| SdpText.FindLast | src/rtp/sdp.cpp:40 | Last occurrence |
| SdpText.LinesOfJoin | src/rtp/sdp.cpp:26 | getline splits CR LF terminated text back into its lines |
| SdpText.ScanPrinted | src/rtp/sdp.cpp:52 | A printed int, negative or not, is scanned back, and the rest of the text is left |
| SdpText.TwoWords | src/rtp/sdp.cpp:67-69 | Two blank-separated mids are extracted in order |
| Sdp.ParseSdp | src/rtp/sdp.cpp:16-140 | The line loop and the grouping compute the parse function |
| Sdp.GenerateSdp | src/rtp/sdp.cpp:142-182 | The printer loop produces the lines of the session |
| Sdp.DescribeSession | src/rtp/rtpsender.cpp:250-271 | The two loops over the legs produce the sender's description |
| SdpRoundTrip.MediaRead | src/rtp/sdp.cpp:48-62 | A printed media line opens a leg with that port and payload type |
| SdpRoundTrip.ConnectionRead | src/rtp/sdp.cpp:37-47 | A printed connection line gives the current leg its multicast group |
| SdpRoundTrip.MapRead | src/rtp/sdp.cpp:75-86 | A printed rtpmap restores bits, rate and channels |
| SdpRoundTrip.ClockRead | src/rtp/sdp.cpp:97-115 | Colons inside the grandmaster identity are preserved |
| SdpRoundTrip.LegRead | src/rtp/sdp.cpp:158-180 | Reading one printed leg adds exactly that leg |
| SdpRoundTrip.FinishRead | src/rtp/sdp.cpp:125-139 | DUP grouping keeps both legs in their order |
| SdpRoundTrip.RoundTrip | src/rtp/sdp.cpp:16-182 | ParseSdp of GenerateSdp is the same session for any session number, origin and positional sources |
| SdpReceived.RoundTripIff | src/rtp/sdp.cpp:9-182 | What is parsed for every session of one or two legs whose text holds no separators, and exactly when it is the session itself |
| SdpReceived.EmptyFilterRead | src/rtp/sdp.cpp:91-96 | A source filter printed without a source is parsed with the multicast group as source |
| SdpReceived.FullFilterRead | src/rtp/sdp.cpp:91-96 | A source filter printed with one gives the current leg that source |
| SdpReceived.DescribedMeans | src/rtp/rtpsender.cpp:259-269 | A sender lists its enabled legs in order, PRI and SEC exactly when both are enabled |
| SdpReceived.DescribedRoundTrip | src/rtp/rtpsender.cpp:250-271 | For every enable mask leaving a leg, what a receiver parses of the sender's own text, and that it is the described session if and only if the name has no trailing blanks and every enabled leg has an address |
| SdpReceived.HeardLegs | src/rtp/sdp.cpp:158-166 | Which group, source and name each leg comes back with |
| SdpReceived.OtherLegsSource | src/rtp/sdp.cpp:161-163 | A second leg alone enabled and without an address is parsed with the first leg's |
| SdpForeign.GroupDecides | src/rtp/sdp.cpp:125-138 | A duplication group decides which two legs are used and in which order, wherever their sections stand; unnamed legs are dropped |
| SdpForeign.NoGroupDecides | src/rtp/sdp.cpp:123-139 | Without a group the first two legs are used, and without a leg there is no session |
| SdpForeign.SessionAddress | src/rtp/sdp.cpp:37-47 | An address before the first media line is kept for the legs to come |
| SdpForeign.LegAddress | src/rtp/sdp.cpp:44-57 | A leg starts with that address and takes its own if it has one |
| SdpForeign.NoPayloadType | src/rtp/sdp.cpp:51-58 | A media line without a payload type stands for 96 |
| SdpForeign.PortWraps | src/rtp/sdp.cpp:56 | A port number is taken modulo 2^16 |
| SdpForeign.OtherMedia | src/rtp/sdp.cpp:52 | Media other than audio opens no leg |
| SdpForeign.MonoMap | src/rtp/sdp.cpp:75-86 | A map without a channel count is mono, one for another payload type is ignored |
| SdpForeign.NoDomain | src/rtp/sdp.cpp:97-113 | A clock without a domain gives the grandmaster alone |
| SdpForeign.JunkSkipped | src/rtp/sdp.cpp:28-32 | Lines that are no SDP, or of another kind, change nothing |
| SdpForeign.DescribedFields | src/rtp/rtpsender.cpp:253-258 | Every sender describes 24-bit stereo at 48 kHz in domain 0 and its own configuration |
| MemorySource.MemorySource.constructor | src/audio/sources.cpp:83-87 | A new source stands at the first sample |
| MemorySource.MemorySource.Copy | src/audio/sources.cpp:105 | One chunk copied, nothing else touched |
| MemorySource.MemorySource.Silence | src/audio/sources.cpp:99 | The rest zeroed, nothing else touched |
| MemorySource.MemorySource.Read | src/audio/sources.cpp:89-110 | Terminates, delivers the next slice of the stream, leaves the buffer beyond it alone, and returns false exactly when material ran out |
| MemorySource.MemorySource.ReadAll | src/audio/sources.cpp:89-110 | Any sequence of Reads on the object yields one stretch of the stream, end to end |
| MemorySource.ChunkIndependence | src/audio/sources.cpp:89-110 | Any sequence of reads concatenates to one prefix of the endless (or finite, then silent) stream |
| MemorySource.PositionStandsFor | src/audio/sources.cpp:95-107 | The stored position is the stream index modulo the length, rewound or not |
| MemorySource.FailsIffRanOut | src/audio/sources.cpp:95-101 | Failure in terms of the total read so far |

## Left out

- Sockets, select, ALSA, sleeps, the spin loop, thread priorities: arrivals, clocks and queue depths are arbitrary inputs of the steps.
- The start of playout without PTP, which sleeps for the configured delay.
- The 500 ms leg time-out in RxLoop: whether a stream is being received is an arbitrary input of every miss.
- The window between raising `m_bHaveFirst` and storing the first sequence number: anchoring is one step, together with the publication.
- The probe of the 16 slots ahead of the cursor is one step of the playout thread, not 16.
- RtpReceiver.RtpReceiver.ResumePlayout: the first start also passes the drift check, which the code reaches only after its first look; the model allows every queue depth there, so it has more runs than the code, not fewer.
- JitterMerge.PlayedIsPublished: like the other theorems of that module it is stated for runs in which no packet behind the cursor re-anchors playout; what holds in all runs is in JitterOrder, JitterSlot and JitterCounts.
- ServoConverge.RoundShrinks: path delays above 25 ms, at which a sample may count as a jump, and a servo that holds no delay yet are covered by PtpRuns.NeverDiverges alone.
- Float scaling and rounding, in samples and in the servo: samples are the integers on the wire, the servo works on reals.
- Meters, tone and sweep generation, resampling, buffer history, offset history and the published time mapping.
- Byte parsing of PTP messages, the domain filter in front of the handlers, and the race between a domain change and a message already past that filter.
- The reading thread of PTP that filters Delay_Resp by own clock identity: only responses addressed to this client are steps.
- Pacing statistics of the sender, send errors and per-leg sends: one packet per iteration is what is put on every enabled leg.
- RtpSender.Iteration: times are unbounded, not 64-bit, so the wrap of a deadline beyond 2^63 ns is not modelled.
- Numbers in SDP text are unbounded; the overflow behaviour of sscanf and atoi is not modelled, and ptime is an opaque token.
- SdpReceived.RoundTripIff: sessions without legs, with more than two, or whose text holds separators of the format are not covered.
- SdpRoundTrip.RoundTrip: stated for text the printer produces, not for foreign SDP with other media sections.
- IS-12 packet counters, the root block, device and class managers, command dispatch and JSON encoding.
- Is12Delay.TransitionsSinceStart: stated for requests that are not negative; a negative status is counted when it is taken back.
- Web interface, logging, configuration, connection API, registration and DNS-SD.
